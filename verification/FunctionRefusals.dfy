/** How many parameters, arguments and locals functions within functions may have, in numbers. */
module FunctionRefusals {
  import opened Basics
  import opened FunctionSyntax
  import opened FunctionCompiler

  /** At most 16 parameters, of different names. */
  lemma {:induction false} ParametersLegal(env: Scopes, params: seq<string>)
    ensures LegalE(env, Fn(params, [])) <==>
              |params| <= 16 && forall i, j :: 0 <= i < j < |params| ==> params[i] != params[j]
  {
    hide Params;
  }

  /** At most 16 arguments. */
  lemma {:induction false} ArgumentsLegal(env: Scopes, callee: Expr, args: seq<Expr>)
    requires LegalE(env, callee) && forall i :: 0 <= i < |args| ==> LegalE(env, args[i])
    ensures LegalE(env, CallOf(callee, args)) <==> |args| <= 16
  {
  }

  /** Definitions of variables, one after the other. */
  function Variables(names: seq<string>): seq<Definition> {
    seq(|names|, i requires 0 <= i < |names| => Var(names[i], Expr.Constant(Null)))
  }

  lemma {:induction false} NotTaken(scope: seq<NameAt>, x: string, depth: int)
    ensures Taken(scope, x, depth) <==> NameAt(x, depth) in scope
  {
  }

  /** A function has at most 256 slots, of which it takes one itself; a name is declared once in a scope. */
  lemma {:induction false} LocalsLegal(env: Scopes, depth: int, names: seq<string>)
    requires env != [] && |env[|env| - 1]| <= 256
    requires forall i, j :: 0 <= i < j < |names| ==> names[i] != names[j]
    requires forall i :: 0 <= i < |names| ==> NameAt(names[i], depth) !in env[|env| - 1]
    ensures LegalD(env, depth, Variables(names), false) <==> |env[|env| - 1]| + |names| <= 256
    decreases |names|
  {
    if names != [] {
      var scope, body := env[|env| - 1], Variables(names);
      assert body[0] == Var(names[0], Expr.Constant(Null));
      assert NameAt(names[0], depth) !in scope;
      NotTaken(scope, names[0], depth);
      assert LegalE(env, Expr.Constant(Null));
      assert LegalOne(env, depth, body[0], false) <==> |scope| < 256;
      assert |body| > 0 && body != [];
      if |scope| < 256 {
        var env1 := Declaring(env, names[0], depth);
        assert Then(env, depth, body[0]) == env1;
        assert body[1..] == Variables(names[1..]);
        assert env1[|env1| - 1] == scope + [NameAt(names[0], depth)];
        forall i | 0 <= i < |names[1..]| ensures NameAt(names[1..][i], depth) !in env1[|env1| - 1] {
          assert names[1..][i] == names[i + 1];
        }
        LocalsLegal(env1, depth, names[1..]);
      }
    }
  }

  /** A name is legal in the functions around that declare it, and nowhere else. */
  lemma {:induction false} NameLegal(env: Scopes, x: string)
    requires x != ""
    ensures LegalE(env, Name(x)) <==>
              exists l, i :: 0 <= l < |env| && 0 <= i < |env[l]| && env[l][i].name == x
  {
  }
}

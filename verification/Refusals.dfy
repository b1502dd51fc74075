/** What the compiler refuses, in numbers: how many parameters, locals and literals there may be, how long names may be,
    and which unknown names are taken for module variables. */
module Refusals {
  import opened Wrappers
  import opened Syntax
  import opened Semantics
  import opened Grammar
  import opened Printing
  import opened Precedence
  import opened CodeGen
  import opened Acceptance
  import opened Correctness
  import opened Operators

  /** At most 16 parameters, of different names of at most 64 bytes. */
  lemma {:induction false} ParametersAccepted(params: seq<string>)
    ensures AcceptParams(params) <==>
              && |params| <= 16
              && (forall i :: 0 <= i < |params| ==> |params[i]| <= 64)
              && (forall i, j :: 0 <= i < j < |params| ==> params[i] != params[j])
  {
    if AcceptParams(params) {
      forall i, j | 0 <= i < j < |params| ensures params[i] != params[j] {
        assert FreshName(params[j], params[..j]);
        assert params[..j][i] == params[i];
      }
      forall i | 0 <= i < |params| ensures |params[i]| <= 64 {
        assert FreshName(params[i], params[..i]);
      }
    }
  }

  /** A function whose body is one name: the name is a parameter or a module variable, or does not begin with a
      lower-case letter, so that the module may define it later. */
  lemma {:induction false} NameAccepted(x: string, params: seq<string>, mods: seq<string>)
    requires x != ""
    ensures Accepted([TName(x), TRightBrace], params, mods) <==>
              AcceptParams(params) && (x in params || x in mods || !('a' <= x[0] <= 'z'))
  {
    hide AcceptParams, ParseBlock;
    AnyName(x);
    PrintedBody(Name(x));
    assert [TName(x)] + [TRightBrace] == [TName(x), TRightBrace];
    assert x in [""] + params <==> x in params;
  }

  /** The name of a method may have at most 64 bytes. */
  lemma {:induction false} MethodNameAccepted(x: string, name: string, mods: seq<string>)
    requires |x| <= 64
    ensures Accepted([TName(x), TDot, TName(name), TRightBrace], [x], mods) <==> |name| <= 64
  {
    hide ParseBlock, Print;
    var e := Getter(Name(x), name);
    PrintName(x, PREC_CALL);
    PrintGetter(Name(x), name, PREC_LOWEST);
    PrintedBody(e);
    assert Print(e, PREC_LOWEST) == [TName(x), TDot, TName(name)];
    assert [TName(x), TDot, TName(name)] + [TRightBrace] == [TName(x), TDot, TName(name), TRightBrace];
    assert x in [""] + [x] by { assert ([""] + [x])[1] == x; }
    AcceptGetter(Name(x), name, [""] + [x], mods, []);
    AcceptVariable(x, NullLit, [""] + [x], mods, []);
    assert AcceptParams([x]) by { ParametersAccepted([x]); }
  }

  /** Definitions of variables, one after the other. */
  function Variables(names: seq<string>): Body {
    if names == [] then Done else VarThen(names[0], NullLit, Variables(names[1..]))
  }

  /** A name not used before in the scope. */
  predicate New(name: string, used: seq<string>) {
    |name| <= 64 && name !in used
  }

  /** A function has at most 256 slots, of which the receiver takes one. */
  lemma {:induction false} LocalsAccepted(names: seq<string>, ls: seq<string>, m: nat, mods: seq<string>, c: seq<Value>,
                                          base: nat, inLoop: bool)
    requires m <= |ls| <= 256
    ensures AcceptB(Variables(names), ls, m, mods, c, base, inLoop) <==>
              |ls| + |names| <= 256 && forall i :: 0 <= i < |names| ==> New(names[i], ls[m..] + names[..i])
    decreases |names|
  {
    if names == [] {
    } else if |ls| < 256 {
      var x, rest := names[0], names[1..];
      LocalsAccepted(rest, ls + [x], m, mods, c, base, inLoop);
      assert ls[m..] + names[..0] == ls[m..];
      forall i | 0 <= i < |rest| ensures (ls + [x])[m..] + rest[..i] == ls[m..] + names[..i + 1] {
        assert names[..i + 1] == [x] + rest[..i];
      }
      assert forall i :: 0 < i < |names| ==> names[i] == rest[i - 1];
      FirstFresh(names, ls, m, rest);
    }
  }

  lemma {:induction false} FirstFresh(names: seq<string>, ls: seq<string>, m: nat, rest: seq<string>)
    requires names != [] && rest == names[1..] && m <= |ls|
    ensures (forall i :: 0 <= i < |names| ==> New(names[i], ls[m..] + names[..i])) <==>
              New(names[0], ls[m..])
              && forall i :: 0 <= i < |rest| ==> New(rest[i], (ls + [names[0]])[m..] + rest[..i])
  {
    var x := names[0];
    assert ls[m..] + names[..0] == ls[m..];
    forall i | 0 <= i < |rest|
      ensures (ls + [x])[m..] + rest[..i] == ls[m..] + names[..i + 1] && rest[i] == names[i + 1]
    {
      assert names[..i + 1] == [x] + rest[..i];
    }
    if forall i :: 0 <= i < |rest| ==> New(rest[i], (ls + [x])[m..] + rest[..i]) {
      forall i | 1 <= i < |names| ensures New(names[i], ls[m..] + names[..i]) {
        assert New(rest[i - 1], (ls + [x])[m..] + rest[..i - 1]);
      }
    }
    if forall i :: 0 <= i < |names| ==> New(names[i], ls[m..] + names[..i]) {
      forall i | 0 <= i < |rest| ensures New(rest[i], (ls + [x])[m..] + rest[..i]) {
        assert New(names[i + 1], ls[m..] + names[..i + 1]);
      }
      assert New(names[0], ls[m..] + names[..0]);
    }
  }

  /** Statements that are one literal each. */
  function Literals(vs: seq<Value>): Body {
    if vs == [] then Done else StmtThen(ExprS(Lit(vs[0])), Literals(vs[1..]))
  }

  /** A function has at most 65536 different literals. */
  lemma {:induction false} LiteralsAccepted(vs: seq<Value>, ls: seq<string>, m: nat, mods: seq<string>, c: seq<Value>,
                                            base: nat, inLoop: bool)
    requires forall i, j :: 0 <= i < j < |vs| ==> vs[i] != vs[j]
    requires |c| <= 65536 && forall v :: v in vs ==> v !in c
    ensures AcceptB(Literals(vs), ls, m, mods, c, base, inLoop) <==> |c| + |vs| <= 65536
    decreases |vs|
  {
    if vs != [] {
      var v, rest := vs[0], vs[1..];
      assert v in vs && v !in c;
      if |c| < 65536 {
        forall w | w in rest ensures w !in c + [v] {
          var i :| 0 <= i < |rest| && rest[i] == w;
          assert vs[i + 1] == w;
        }
        LiteralsAccepted(rest, ls, m, mods, c + [v], base, inLoop);
      }
    }
  }
}

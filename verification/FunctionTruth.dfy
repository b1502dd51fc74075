/** Which values make a condition fail in programs of functions within functions, value by value: in what they mean, in
    the machine, and in whole compiled programs. */
module FunctionTruth {
  import opened Wrappers
  import opened FunctionSyntax
  import opened Functions
  import opened FunctionMeaning
  import opened FunctionCorrectness
  import M = FunctionMachine

  // ----- In what statements mean ----------------------------------------------------------------------------

  /** A condition that is null or false: nothing is done, the other branch is, and the loop is over. */
  lemma {:induction false} FailsOnNullAndFalse(cond: Expr, t: Stmt, f: Stmt, env: Env, w: World, fuel: nat, v: Value,
                                               w1: World)
    requires env != [] && Eval(cond, env, w, fuel) == Val(v, w1) && (v == Null || v == Bool(false))
    ensures Exec(If(cond, t), env, w, fuel) == Normal(env, w1)
    ensures Exec(IfElse(cond, t, f), env, w, fuel) == Exec(f, env, w1, fuel)
    ensures Exec(While(cond, t), env, w, fuel) == Normal(env, w1)
  {
  }

  /** A condition that is true, any number, or any function. */
  lemma {:induction false} HoldsOnOthers(cond: Expr, t: Stmt, f: Stmt, env: Env, w: World, fuel: nat, v: Value,
                                         w1: World)
    requires env != [] && Eval(cond, env, w, fuel) == Val(v, w1) && (v == Bool(true) || v.Num? || v.Closure?)
    ensures Exec(If(cond, t), env, w, fuel) == Exec(t, env, w1, fuel)
    ensures Exec(IfElse(cond, t, f), env, w, fuel) == Exec(t, env, w1, fuel)
    ensures match Exec(t, env, w1, fuel)
            case Normal(_, w2) =>
              Exec(While(cond, t), env, w, fuel) ==
                if fuel == 0 then Stopped(OutOfFuel) else Exec(While(cond, t), env, w2, fuel - 1)
            case Broke(w2) => Exec(While(cond, t), env, w, fuel) == Normal(env, w2)
            case r => Exec(While(cond, t), env, w, fuel) == r
  {
  }

  // ----- In the machine -------------------------------------------------------------------------------------

  /** A conditional jump gives up the last value, and goes to its target exactly when that is null or false. */
  lemma {:induction false} JumpsOnNullAndFalse(fns: seq<Function>, s: M.State, t: nat, below: seq<nat>, x: nat)
    requires M.Ready(fns, s) && M.Next(fns, s) == JumpIf(t) && s.slots == below + [x] && x < |s.cells|
    ensures var s' := M.Step(fns, s);
            && s'.slots == below && s'.cells == s.cells && s'.status == M.Running
            && |s'.frames| == |s.frames| && s'.frames[..|s.frames| - 1] == s.frames[..|s.frames| - 1]
            && s'.frames[|s.frames| - 1].pc ==
                 (if s.cells[x] == Null || s.cells[x] == Bool(false) then t else s.frames[|s.frames| - 1].pc + 1)
  {
    assert s.slots[..|s.slots| - 1] == below;
  }

  // ----- In whole programs ----------------------------------------------------------------------------------

  /** A program that returns `a` if a condition holds, and otherwise `b`. */
  function Choosing(cond: Expr, a: Literal, b: Literal): seq<Definition> {
    [Plain(If(cond, ReturnOf(Expr.Constant(a)))), Plain(ReturnOf(Expr.Constant(b)))]
  }

  lemma {:induction false} OneMoreDefinition(body: seq<Definition>, n: nat, env: Env, w: World, fuel: nat)
    requires n < |body| && env != []
    ensures ExecDefs(body, 0, env, w, fuel) == Normal(env, w)
    ensures var r := ExecDefs(body, n, env, w, fuel);
            ExecDefs(body, n + 1, env, w, fuel) == if r.Normal? then ExecDef(body[n], r.env, r.w, fuel) else r
  {
    hide ExecDef;
  }

  lemma {:induction false} ChoosingMeans(cond: Expr, a: Literal, b: Literal, fuel: nat, v: Value, w1: World)
    requires Eval(cond, [Parameters([], 0)], World([Null], []), fuel) == Val(v, w1)
    ensures Meaning(Choosing(cond, a, b), fuel) == Val(if v == Null || v == Bool(false) then b else a, w1)
  {
    hide Eval, Parameters, ExecDefs;
    var env, w, body := [Parameters([], 0)], World([Null], []), Choosing(cond, a, b);
    var first := Exec(If(cond, ReturnOf(Expr.Constant(a))), env, w, fuel);
    OneMoreDefinition(body, 0, env, w, fuel);
    OneMoreDefinition(body, 1, env, w, fuel);
    assert body[0] == Plain(If(cond, ReturnOf(Expr.Constant(a)))) && ExecDef(body[0], env, w, fuel) == first;
    assert Eval(Expr.Constant(a), env, w1, fuel) == Val(a, w1) by { ConstantMeans(a, env, w1, fuel); }
    assert Eval(Expr.Constant(b), env, w1, fuel) == Val(b, w1) by { ConstantMeans(b, env, w1, fuel); }
    if v == Null || v == Bool(false) {
      FailsOnNullAndFalse(cond, ReturnOf(Expr.Constant(a)), Break, env, w, fuel, v, w1);
      assert ExecDefs(body, 2, env, w, fuel) == Returned(b, w1);
    } else {
      HoldsOnOthers(cond, ReturnOf(Expr.Constant(a)), Break, env, w, fuel, v, w1);
      assert ExecDefs(body, 2, env, w, fuel) == Returned(a, w1);
    }
  }

  lemma {:induction false} ConstantMeans(c: Literal, env: Env, w: World, fuel: nat)
    ensures Eval(Expr.Constant(c), env, w, fuel) == Val(c, w)
  {
  }

  lemma {:induction false} FunctionMeans(params: seq<string>, body: seq<Definition>, env: Env, w: World, fuel: nat)
    ensures Eval(Fn(params, body), env, w, fuel).Val?
    ensures Eval(Fn(params, body), env, w, fuel).v.Closure?
  {
  }

  /** A compiled program that tests a literal returns the second value if that is null or false, otherwise the first. */
  lemma {:induction false} LiteralChooses(fns: seq<Function>, c: Literal, a: Literal, b: Literal, v: Value)
    requires Compiled(fns, Choosing(Expr.Constant(c), a, b))
    ensures EndsWith(fns, Begin(fns), M.Finished(v)) <==> v == if c == Null || c == Bool(false) then b else a
  {
    hide Compiled, Meaning, EndsWith, Begin, Choosing, Eval;
    var body := Choosing(Expr.Constant(c), a, b);
    CompiledMeansSource(fns, body);
    forall fuel: nat
      ensures Meaning(body, fuel).Val? && Meaning(body, fuel).v == if c == Null || c == Bool(false) then b else a
    {
      ConstantMeans(c, [Parameters([], 0)], World([Null], []), fuel);
      ChoosingMeans(Expr.Constant(c), a, b, fuel, c, World([Null], []));
    }
    assert Returns(body, v) <==> Meaning(body, 0).v == v;
  }

  /** One that tests a function returns the first value. */
  lemma {:induction false} FunctionChooses(fns: seq<Function>, params: seq<string>, inner: seq<Definition>, a: Literal,
                                           b: Literal, v: Value)
    requires Compiled(fns, Choosing(Fn(params, inner), a, b))
    ensures EndsWith(fns, Begin(fns), M.Finished(v)) <==> v == a
  {
    hide Compiled, Meaning, EndsWith, Begin, Choosing, Eval;
    var body := Choosing(Fn(params, inner), a, b);
    CompiledMeansSource(fns, body);
    forall fuel: nat ensures Meaning(body, fuel).Val? && Meaning(body, fuel).v == a {
      FunctionMeans(params, inner, [Parameters([], 0)], World([Null], []), fuel);
      var r := Eval(Fn(params, inner), [Parameters([], 0)], World([Null], []), fuel);
      ChoosingMeans(Fn(params, inner), a, b, fuel, r.v, r.w);
    }
    assert Returns(body, v) <==> Meaning(body, 0).v == v;
  }
}

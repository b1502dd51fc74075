/** What compiled functions that have locals do when they are called with more arguments than they have parameters. */
module SurplusArguments {
  import opened Wrappers
  import opened FunctionSyntax
  import opened Functions
  import opened Outlines
  import opened FunctionMeaning
  import opened FunctionSimulation
  import opened FunctionCorrectness
  import M = FunctionMachine
  import S = FunctionSafety

  /** A function body that declares `x` with the value `c` and returns it. */
  function OneLocal(x: string, c: Literal): seq<Definition> {
    [Var(x, Expr.Constant(c)), Plain(ReturnOf(Name(x)))]
  }

  function Constants(vs: seq<Literal>): (es: seq<Expr>)
    ensures |es| == |vs|
  {
    seq(|vs|, i requires 0 <= i < |vs| => Expr.Constant(vs[i]))
  }

  /** A program that calls such a function with these arguments, and returns what it gives. */
  function CallingIt(params: seq<string>, x: string, c: Literal, args: seq<Literal>): seq<Definition> {
    [Plain(ReturnOf(CallOf(Fn(params, OneLocal(x, c)), Constants(args))))]
  }

  // ----- The function's code --------------------------------------------------------------------------------

  lemma {:induction false} OneLocalPoints(x: string, c: Literal, f: nat, at: Site)
    ensures OfDefs(OneLocal(x, c), 2, 0, f, at, 0).points
         == [Point(Push(c), Scope(at.names, 0)), Point(Read(x), Scope(at.names + [x], 0)),
             Point(End, Scope(at.names + [x], 1))]
  {
    var body := OneLocal(x, c);
    var a := OfDefs(body, 1, 0, f, at, 0);
    assert OfDefs(body, 0, 0, f, at, 0) == Mere([]);
    assert VarNames(body, 0) == [] && VarNames(body, 1) == [x];
    assert With(at, []) == at by {
      assert at.names + [] == at.names;
    }
    assert OfDef(body[0], 0, f, at, 0) == OfExpr(Expr.Constant(c), f, at, 0);
    assert a == Plus(Mere([]), OfDef(body[0], 0, f, at, 0));
    assert a.points == [Point(Push(c), Scope(at.names, 0))];
    var d := OfStmt(ReturnOf(Name(x)), 1, f + |a.fns|, With(at, [x]), 1);
    assert OfDef(body[1], 1, f + |a.fns|, With(at, [x]), 1) == d;
    assert OfDefs(body, 2, 0, f, at, 0) == Plus(a, d);
    assert d == Plus(OfExpr(Name(x), f + |a.fns|, With(at, [x]), 0), Here(End, With(at, [x]), 1));
    assert d.points == [Point(Read(x), Scope(at.names + [x], 0)), Point(End, Scope(at.names + [x], 1))];
  }

  /** The local is in the slot after the parameters. */
  lemma {:induction false} OneLocalCode(fns: seq<Function>, g: nat, params: seq<string>, x: string, c: Literal)
    requires g < |fns| && FunctionOk(fns, fns[g]) && IsFunction(fns, g, params, OneLocal(x, c))
    ensures |fns[g].code| >= 3 && fns[g].code[0] == Instr.Constant(c)
    ensures fns[g].code[1] == LoadLocal(|params| + 1) && fns[g].code[2] == Return
  {
    hide FunctionOk, IsFunction, OfDefs, Scope;
    var f := FunctionCode(fns, g, params, OneLocal(x, c));
    var at := Entry(params, ShapesOf(fns[g].outer));
    OneLocalPoints(x, c, f, at);
    var code := OfDefs(OneLocal(x, c), 2, 0, f, at, 0);
    Fetch(fns, g, 0, code, f, None, 0);
    Fetch(fns, g, 0, code, f, None, 1);
    Fetch(fns, g, 0, code, f, None, 2);
    MarkIs(fns[g], 0);
    MarkIs(fns[g], 2);
    ReadLast(fns, fns[g], 1, at.names, x);
  }

  /** The last local is read as a local. */
  lemma {:induction false} ReadLast(fns: seq<Function>, f: Function, p: nat, names: seq<string>, x: string)
    requires FunctionOk(fns, f) && p < |f.code| && PointOf(f, p) == Point(Read(x), Scope(names + [x], 0))
    ensures f.code[p] == LoadLocal(|names|)
  {
    hide FunctionOk, MeansAround;
    NameFacts(fns, f, p);
    var k := f.kinds[p];
    assert ShapeOf(k)[|names|] == Some(x);
    assert k[|names|].Named? && k[|names|].name == x;
  }

  // ----- The call -------------------------------------------------------------------------------------------

  /** The function is called. */
  lemma {:induction false} EnteredWith(fns: seq<Function>, s: M.State, m: nat, k: M.ClosureObject)
    requires s.status == M.Running && M.Ready(fns, s) && M.Next(fns, s) == Call(m) && M.Callee(fns, s, m) == Some(k)
    ensures k.fn < |fns| && fns[k.fn].arity <= m < |s.slots|
    ensures M.Step(fns, s) == s.(frames := M.Goto(s, M.Top(s).pc + 1).frames
                                   + [M.Frame(k.fn, 0, |s.slots| - m - 1, k.upvalues, m - fns[k.fn].arity)])
  {
  }

  /** What is returned is the first argument too many, if there is one, and otherwise the value declared: the local's
      slot has it only when there are as many arguments as parameters. */
  lemma {:induction false} LocalIsRead(fns: seq<Function>, s: M.State, m: nat, params: seq<string>, x: string,
                                       c: Literal)
    requires ProgramOk(fns) && s.status == M.Running && M.Ready(fns, s) && M.Next(fns, s) == Call(m)
    requires S.InCells(s, s.slots)
    requires M.Callee(fns, s, m).Some? && fns[M.Callee(fns, s, m).value.fn].arity == |params|
    requires IsFunction(fns, M.Callee(fns, s, m).value.fn, params, OneLocal(x, c))
    ensures |params| <= m < |s.slots|
    ensures var t := M.Run(fns, s, 4);
            && t.status == M.Running && t.frames == M.Goto(s, M.Top(s).pc + 1).frames && t.slots != []
            && M.LastValue(t) == if m == |params| then c else M.ValueOf(s, s.slots[|s.slots| - m + |params|])
  {
    hide ProgramOk, FunctionOk, IsFunction, M.Callee, M.Run;
    var k := M.Callee(fns, s, m).value;
    EnteredWith(fns, s, m, k);
    AllOk(fns, k.fn);
    OneLocalCode(fns, k.fn, params, x, c);
    var s1 := M.Step(fns, s);
    var s2 := M.Pushed(s1, c);
    assert M.Step(fns, s1) == s2;
    var i := |s.slots| - m + |params|;
    var s3 := M.Read(s2, Some(s2.slots[i]));
    assert M.SlotVar(s2, |params| + 1) == Some(s2.slots[i]);
    assert M.Step(fns, s2) == s3;
    assert M.Step(fns, s3) == M.Returned(s3);
    FourSteps(fns, s);
    ReturnsLast(s, s1, s2, s3, m, k, i, c, fns[k.fn].arity);
  }

  lemma {:induction false} AllOk(fns: seq<Function>, g: nat)
    requires ProgramOk(fns) && g < |fns|
    ensures FunctionOk(fns, fns[g])
  {
  }

  lemma {:induction false} FourSteps(fns: seq<Function>, s: M.State)
    ensures M.Run(fns, s, 4) == M.Step(fns, M.Step(fns, M.Step(fns, M.Step(fns, s))))
  {
    M.OneMore(fns, s, 3);
    M.OneMore(fns, s, 2);
    M.OneMore(fns, s, 1);
    M.OneMore(fns, s, 0);
    assert M.Run(fns, s, 0) == s;
  }

  lemma {:induction false} ReturnsLast(s: M.State, s1: M.State, s2: M.State, s3: M.State, m: nat, k: M.ClosureObject,
                                       i: nat, c: Literal, arity: nat)
    requires s.status == M.Running && s.frames != [] && arity <= m < |s.slots| && i == |s.slots| - m + arity
    requires S.InCells(s, s.slots)
    requires s1 == s.(frames := M.Goto(s, M.Top(s).pc + 1).frames
                        + [M.Frame(k.fn, 0, |s.slots| - m - 1, k.upvalues, m - arity)])
    requires s2 == M.Pushed(s1, c) && s3 == M.Read(s2, Some(s2.slots[i]))
    ensures var t := M.Returned(s3);
            && t.status == M.Running && t.frames == M.Goto(s, M.Top(s).pc + 1).frames && t.slots != []
            && M.LastValue(t) == if m == arity then c else M.ValueOf(s, s.slots[i])
  {
  }

  // ----- The whole program ----------------------------------------------------------------------------------

  lemma {:induction false} ConstantsMean(vs: seq<Literal>, n: nat, env: Env, w: World, fuel: nat)
    requires n <= |vs|
    ensures EvalArgs(Constants(vs), n, env, w, fuel) == Values(vs[..n], w)
  {
    if n > 0 {
      ConstantsMean(vs, n - 1, env, w, fuel);
      assert Constants(vs)[n - 1] == Expr.Constant(vs[n - 1]);
      assert Eval(Constants(vs)[n - 1], env, w, fuel) == Val(vs[n - 1], w);
    }
  }

  /** The code of a program that is one statement. */
  lemma {:induction false} ReturnAt(fns: seq<Function>, e: Expr)
    returns (f: nat)
    requires Compiled(fns, [Plain(ReturnOf(e))])
    ensures CodeAt(fns, |fns| - 1, 0, OfExpr(e, f, Entry([], []), 0), f, None)
    ensures var pc := |OfExpr(e, f, Entry([], []), 0).points|;
            pc < |fns[|fns| - 1].code| && fns[|fns| - 1].code[pc] == Return
  {
    hide ProgramOk, OfExpr, OfFunction, IsFunction, Going, Exact;
    var body := [Plain(ReturnOf(e))];
    var at := Entry([], []);
    Beginning(fns, body);
    assert ShapesOf(fns[|fns| - 1].outer) == [];
    f := FunctionCode(fns, |fns| - 1, [], body);
    var c, r := OfExpr(e, f, at, 0), Here(End, at, 1);
    OneReturn(e, f, at);
    CodeSplit(fns, |fns| - 1, 0, c, r, f, None);
    Fetch(fns, |fns| - 1, |c.points|, r, f + |c.fns|, None, 0);
    MarkIs(fns[|fns| - 1], |c.points|);
  }

  lemma {:induction false} OneReturn(e: Expr, f: nat, at: Site)
    ensures OfDefs([Plain(ReturnOf(e))], 1, 0, f, at, 0) == Plus(OfExpr(e, f, at, 0), Here(End, at, 1))
  {
    hide OfExpr;
    var body := [Plain(ReturnOf(e))];
    assert OfDefs(body, 0, 0, f, at, 0) == Mere([]) && VarNames(body, 0) == [];
    assert With(at, []) == at by {
      assert at.names + [] == at.names;
    }
    var s := OfStmt(ReturnOf(e), 0, f, at, 0);
    assert OfDef(body[0], 0, f, at, 0) == s == Plus(OfExpr(e, f, at, 0), Here(End, at, 1));
    assert OfDefs(body, 1, 0, f, at, 0) == Plus(Mere([]), s);
  }

  /** The function and its arguments are there for the call. */
  lemma {:induction false} ReadyToCall(fns: seq<Function>, params: seq<string>, x: string, c: Literal,
                                       args: seq<Literal>)
    returns (n: nat, pc: nat)
    requires Compiled(fns, CallingIt(params, x, c, args)) && |params| <= |args|
    ensures pc + 1 < |fns[|fns| - 1].code| && fns[|fns| - 1].code[pc + 1] == Return
    ensures var s := M.Run(fns, Begin(fns), n);
            && s.status == M.Running && s.frames == [M.Frame(|fns| - 1, pc, 0, [], 0)]
            && M.Ready(fns, s) && M.Next(fns, s) == Call(|args|) && S.InCells(s, s.slots)
            && M.Callee(fns, s, |args|).Some? && fns[M.Callee(fns, s, |args|).value.fn].arity == |params|
            && IsFunction(fns, M.Callee(fns, s, |args|).value.fn, params, OneLocal(x, c))
            && |s.slots| > |args| && forall i :: 0 <= i < |args| ==>
                 M.ValueOf(s, s.slots[|s.slots| - |args| + i]) == args[i]
  {
    hide ProgramOk, OfFunction, IsFunction, Going, Exact, OfArgs, CodeAt, Several, Valued, M.Run, M.Follow, M.Callee,
         Constants, Scope, EvalArgs, M.Shifts, M.Clean;
    var m := |args|;
    var fn := Fn(params, OneLocal(x, c));
    var e := CallOf(fn, Constants(args));
    var at, env, w := Entry([], []), [Parameters([], 0)], World([Null], []);
    var s := Begin(fns);
    var f := ReturnAt(fns, e);
    Beginning(fns, [Plain(ReturnOf(e))]);
    var a := OfExpr(fn, f, at, 0);
    var b := OfArgs(Constants(args), m, f + |a.fns|, at, 1);
    CodeSplit(fns, |fns| - 1, 0, Plus(a, b), Here(Invoke(m), at, 1 + m), f, None);
    CodeSplit(fns, |fns| - 1, 0, a, b, f, None);
    FnSim(fns, [0], s, env, w, at, fn, 0, f, None);
    var s1 := M.Follow(fns, s, 1);
    var w1 := w.(closures := w.closures + [Made(params, OneLocal(x, c), env)]);
    GoesOn(fns, [0], s, 1, [0], s1, |s.cells|, Closure(0), env, w, w1, at);
    SameTopValue(fns, [0], s, 1, [0], s1, |s.cells|, Closure(0), w1);
    var n2, places, xs := SimArgs(fns, [0], s1, Constants(args), m, env, w1, 0, at, 1, f + |a.fns|, None);
    ConstantsMean(args, m, env, w1, 0);
    var s2 := M.Follow(fns, s1, n2);
    assert args[..m] == args;
    AllValues(fns, [0], s, 1, [0], s1, |s.cells|, Closure(0), w1, |b.points|, places, s2, xs, args, w1);
    pc := 1 + |b.points|;
    M.FollowAppend(fns, s, 1, n2);
    n := M.FollowRun(fns, s, 1 + n2);
    Loaded(fns, s, pc, places, s2, [|s.cells|] + xs, args, w1, params, x, c, at, f + |a.fns| + |b.fns|);
  }

  lemma {:induction false} Loaded(fns: seq<Function>, s: M.State, len: nat, places: Places, s2: M.State, ys: seq<nat>,
                                  args: seq<Literal>, w: World, params: seq<string>, x: string, c: Literal, at: Site,
                                  f: nat)
    requires ProgramOk(fns) && fns != [] && s == Begin(fns) && |params| <= |args| && |w.closures| == 1
    requires Several(fns, [0], s, len, places, s2, ys, [Closure(0)] + args, w)
    requires w.closures[0].params == params && w.closures[0].body == OneLocal(x, c)
    requires CodeAt(fns, |fns| - 1, len, Here(Invoke(|args|), at, 1 + |args|), f, None)
    ensures var m := |args|;
            && s2.status == M.Running && s2.frames == [M.Frame(|fns| - 1, len, 0, [], 0)]
            && M.Ready(fns, s2) && M.Next(fns, s2) == Call(m) && S.InCells(s2, s2.slots)
            && M.Callee(fns, s2, m).Some? && fns[M.Callee(fns, s2, m).value.fn].arity == |params|
            && IsFunction(fns, M.Callee(fns, s2, m).value.fn, params, OneLocal(x, c))
            && |s2.slots| > m && forall i :: 0 <= i < m ==> M.ValueOf(s2, s2.slots[|s2.slots| - m + i]) == args[i]
  {
    hide ProgramOk, FunctionOk, IsFunction, CodeAt, Effect, CellsFit, OneLocal;
    var m := |args|;
    CallHere(fns, [0], s, len, places, s2, ys, [Closure(0)] + args, w, m, at, 1 + m, f, None);
    var k := s2.closures[0];
    assert ClosureFits(fns, places, w.closures[0], k);
    AllOk(fns, k.fn);
    FunctionIs(fns, k.fn, params, OneLocal(x, c));
    forall i | 0 <= i < m ensures M.ValueOf(s2, s2.slots[|s2.slots| - m + i]) == args[i] {
      assert s2.slots[|s2.slots| - m + i] == ys[1 + i];
      assert s2.cells[ys[1 + i]] == ([Closure(0)] + args)[1 + i];
    }
    forall i | 0 <= i < |s2.slots| ensures s2.slots[i] < |s2.cells| {
      if i > 0 {
        assert s2.slots[i] == ys[i - 1];
      }
    }
  }

  /** A compiled program calls a function whose first local is `c`, and returns what that returns: `c` when there are as
      many arguments as parameters, and the first argument too many otherwise. */
  lemma {:induction false} FirstLocal(fns: seq<Function>, params: seq<string>, x: string, c: Literal,
                                      args: seq<Literal>)
    requires Compiled(fns, CallingIt(params, x, c, args)) && |params| <= |args|
    ensures exists n: nat :: M.Run(fns, Begin(fns), n).status
                               == M.Finished(if |args| == |params| then c else args[|params|])
    ensures (exists n: nat :: M.Run(fns, Begin(fns), n).status == M.Finished(c))
              <==> |args| == |params| || args[|params|] == c
  {
    hide ProgramOk, OutlinesOf, OfFunction, IsFunction, M.Callee, M.Run, CallingIt, M.Next;
    var n, pc := ReadyToCall(fns, params, x, c, args);
    var s := M.Run(fns, Begin(fns), n);
    LocalIsRead(fns, s, |args|, params, x, c);
    var t := M.Run(fns, s, 4);
    LastReturn(fns, s, t);
    M.RunAppend(fns, Begin(fns), n, 4);
    M.OneMore(fns, Begin(fns), n + 4);
    forall m: nat | M.Run(fns, Begin(fns), m).status != M.Running
      ensures M.Run(fns, Begin(fns), m) == M.Run(fns, Begin(fns), n + 5)
    {
      StopsOnce(fns, Begin(fns), m, n + 5);
    }
  }

  lemma {:induction false} StopsOnce(fns: seq<Function>, s: M.State, m: nat, n: nat)
    requires M.Run(fns, s, m).status != M.Running && M.Run(fns, s, n).status != M.Running
    ensures M.Run(fns, s, m) == M.Run(fns, s, n)
  {
    var a, b := if m <= n then m else n, if m <= n then n else m;
    M.RunAppend(fns, s, a, b - a);
    M.RunStopped(fns, M.Run(fns, s, a), b - a);
  }

  lemma {:induction false} LastReturn(fns: seq<Function>, s: M.State, t: M.State)
    requires |s.frames| == 1 && M.Top(s).fn < |fns| && M.Top(s).pc + 1 < |fns[M.Top(s).fn].code|
    requires fns[M.Top(s).fn].code[M.Top(s).pc + 1] == Return && M.Top(s).start == 0
    requires t.status == M.Running && t.frames == M.Goto(s, M.Top(s).pc + 1).frames && t.slots != []
    ensures M.Step(fns, t).status == M.Finished(M.LastValue(t))
  {
  }
}

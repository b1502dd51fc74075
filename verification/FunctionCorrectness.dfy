/** Programs of functions within functions, compiled, do on the machine what they mean. */
module FunctionCorrectness {
  import opened Wrappers
  import opened FunctionSyntax
  import opened Functions
  import opened Outlines
  import opened FunctionMeaning
  import opened FunctionSimulation
  import M = FunctionMachine
  import S = FunctionSafety

  /** These functions are what the program is compiled into: its own is the last. */
  ghost predicate Compiled(fns: seq<Function>, body: seq<Definition>) {
    && fns != [] && ProgramOk(fns) && fns[|fns| - 1].upvalues == []
    && OutlinesOf(fns) == OfFunction([], body, 0, [])
  }

  function Begin(fns: seq<Function>): M.State
    requires fns != []
  {
    M.Start(|fns| - 1)
  }

  // ----- What a program comes to ----------------------------------------------------------------------------

  ghost predicate Returns(body: seq<Definition>, v: Value) {
    exists fuel: nat :: Meaning(body, fuel).Val? && Meaning(body, fuel).v == v
  }

  ghost predicate Aborts(body: seq<Definition>) {
    exists fuel: nat :: Meaning(body, fuel).Err?
  }

  /** The program calls a function that has locals with too many arguments. */
  ghost predicate Overloads(body: seq<Definition>) {
    exists fuel: nat :: Meaning(body, fuel).Surplus?
  }

  ghost predicate NeverEnds(body: seq<Definition>) {
    forall fuel: nat :: Meaning(body, fuel).OutOfFuel?
  }

  // ----- What a run comes to --------------------------------------------------------------------------------

  ghost predicate EndsWith(fns: seq<Function>, s: M.State, status: M.Status) {
    exists n: nat :: M.Clean(fns, s, n) && M.Run(fns, s, n).status == status
  }

  ghost predicate ComesToShift(fns: seq<Function>, s: M.State) {
    exists n: nat :: M.Clean(fns, s, n) && M.Shifts(fns, M.Run(fns, s, n))
  }

  ghost predicate RunsOn(fns: seq<Function>, s: M.State) {
    forall n: nat :: M.Run(fns, s, n).status == M.Running && !M.Shifts(fns, M.Run(fns, s, n))
  }

  /** What the machine shows of an answer. */
  ghost predicate Shows(fns: seq<Function>, a: Answer, t: M.State) {
    match a
    case Val(v, _) => t.status == M.Finished(v)
    case Err => t.status == M.Failed
    case Surplus => M.Shifts(fns, t)
    case OutOfFuel => !M.Halted(fns, t)
  }

  // ----- From the meaning to the run ------------------------------------------------------------------------

  /** The program's function begins as it should. */
  lemma {:induction false} Beginning(fns: seq<Function>, body: seq<Definition>)
    requires Compiled(fns, body)
    ensures var s, env := Begin(fns), [Parameters([], 0)];
            && fns[|fns| - 1].arity == 0 && fns[|fns| - 1].outer == []
            && Going(fns, [0], s, env, World([Null], []), Entry([], [])) && Exact(s, env)
            && IsFunction(fns, |fns| - 1, [], body)
  {
    hide OfDefs, VarNames, FunctionOk;
    var g := |fns| - 1;
    var code := OfFunction([], body, 0, []);
    assert OutlinesOf(fns)[g] == OutlineOf(fns[g]) == code[|code| - 1];
    assert ShapesOf(fns[g].outer) == [];
    assert fns[g].outer == [];
    assert FunctionOk(fns, fns[g]);
    assert OutlinesOf(fns)[0..g + 1] == code;
    assert CompiledFrom(fns, g, [], body, 0);
    var env := [Parameters([], 0)];
    assert NamesOf(env[0]) == [""] == [""] + [];
    FirstFits(fns, g, env);
  }

  lemma {:induction false} FirstFits(fns: seq<Function>, g: nat, env: Env)
    requires g < |fns| && FunctionOk(fns, fns[g]) && fns[g].outer == [] && fns[g].upvalues == []
    requires env == [Parameters([], 0)]
    ensures FrameFits(fns, [0], env, M.Frame(g, 0, 0, [], 0), [0])
    ensures Related(fns, [0], World([Null], []), M.Start(g))
  {
    assert |fns[g].denotes| == 0;
    hide FunctionOk;
    assert env[..0] == [];
  }

  /** The machine comes to what the program means, without a shift before; and while there is fuel it has made as many
      steps. */
  lemma {:induction false} MeaningReached(fns: seq<Function>, body: seq<Definition>, fuel: nat) returns (n: nat)
    requires Compiled(fns, body)
    ensures M.Clean(fns, Begin(fns), n) && Shows(fns, Meaning(body, fuel), M.Run(fns, Begin(fns), n))
    ensures Meaning(body, fuel).OutOfFuel? ==> n >= fuel
  {
    hide Going, Exact, IsFunction, ProgramOk, OfFunction, ExecDefs, M.Shifts, M.Clean, M.Run, M.Follow;
    Beginning(fns, body);
    var s, env := Begin(fns), [Parameters([], 0)];
    var n0, places, x := SimBody(fns, [0], s, [], body, env, World([Null], []), fuel, Entry([], []));
    n := M.FollowRun(fns, s, n0);
  }

  /** The answers of a program, however much fuel there is, and the ends of its run. */
  lemma {:induction false} AnswersAgree(fns: seq<Function>, body: seq<Definition>, fuel: nat, n: nat)
    requires Compiled(fns, body) && M.Clean(fns, Begin(fns), n) && M.Halted(fns, M.Run(fns, Begin(fns), n))
    requires fuel > n || !Meaning(body, fuel).OutOfFuel?
    ensures !Meaning(body, fuel).OutOfFuel? && Shows(fns, Meaning(body, fuel), M.Run(fns, Begin(fns), n))
  {
    hide ProgramOk, OfFunction, OutlinesOf, Meaning, M.Shifts, M.Clean, M.Run;
    var m := MeaningReached(fns, body, fuel);
    if Meaning(body, fuel).OutOfFuel? {
      M.EndedBy(fns, Begin(fns), n, m);
      assert false;
    } else {
      NotBoth(fns, Meaning(body, fuel), M.Run(fns, Begin(fns), m));
      M.OneEnd(fns, Begin(fns), m, n);
    }
  }

  lemma {:induction false} NotBoth(fns: seq<Function>, a: Answer, t: M.State)
    requires Shows(fns, a, t)
    ensures M.Halted(fns, t) <==> !a.OutOfFuel?
  {
  }

  /** What a state shows is one thing. */
  lemma {:induction false} ShowsOne(fns: seq<Function>, a: Answer, t: M.State)
    requires Shows(fns, a, t) && !a.OutOfFuel?
    ensures forall v :: t.status == M.Finished(v) <==> a.Val? && a.v == v
    ensures t.status == M.Failed <==> a.Err?
    ensures M.Shifts(fns, t) <==> a.Surplus?
  {
  }

  // ----- Compiled programs ----------------------------------------------------------------------------------

  /** A compiled program returns what it means, fails when its meaning does, calls a function that has locals with too
      many arguments when its meaning does, and otherwise runs forever. */
  lemma {:induction false} CompiledMeansSource(fns: seq<Function>, body: seq<Definition>)
    requires Compiled(fns, body)
    ensures forall v :: Returns(body, v) <==> EndsWith(fns, Begin(fns), M.Finished(v))
    ensures Aborts(body) <==> EndsWith(fns, Begin(fns), M.Failed)
    ensures Overloads(body) <==> ComesToShift(fns, Begin(fns))
    ensures NeverEnds(body) <==> RunsOn(fns, Begin(fns))
  {
    hide ProgramOk, OfFunction, OutlinesOf, Meaning, M.Shifts, M.Clean, M.Run;
    forall v | Returns(body, v) ensures EndsWith(fns, Begin(fns), M.Finished(v)) {
      var fuel: nat :| Meaning(body, fuel).Val? && Meaning(body, fuel).v == v;
      var n := MeaningReached(fns, body, fuel);
    }
    forall v | EndsWith(fns, Begin(fns), M.Finished(v)) ensures Returns(body, v) {
      var n: nat :| M.Clean(fns, Begin(fns), n) && M.Run(fns, Begin(fns), n).status == M.Finished(v);
      AnswersAgree(fns, body, n + 1, n);
      ShowsOne(fns, Meaning(body, n + 1), M.Run(fns, Begin(fns), n));
    }
    FailsAlike(fns, body);
    ShiftsAlike(fns, body);
    EndlessAlike(fns, body);
  }

  lemma {:induction false} FailsAlike(fns: seq<Function>, body: seq<Definition>)
    requires Compiled(fns, body)
    ensures Aborts(body) <==> EndsWith(fns, Begin(fns), M.Failed)
  {
    hide ProgramOk, OfFunction, OutlinesOf, Meaning, M.Shifts, M.Clean, M.Run;
    if Aborts(body) {
      var fuel: nat :| Meaning(body, fuel).Err?;
      var n := MeaningReached(fns, body, fuel);
    }
    if EndsWith(fns, Begin(fns), M.Failed) {
      var n: nat :| M.Clean(fns, Begin(fns), n) && M.Run(fns, Begin(fns), n).status == M.Failed;
      AnswersAgree(fns, body, n + 1, n);
      ShowsOne(fns, Meaning(body, n + 1), M.Run(fns, Begin(fns), n));
    }
  }

  lemma {:induction false} ShiftsAlike(fns: seq<Function>, body: seq<Definition>)
    requires Compiled(fns, body)
    ensures Overloads(body) <==> ComesToShift(fns, Begin(fns))
  {
    hide ProgramOk, OfFunction, OutlinesOf, Meaning, M.Shifts, M.Clean, M.Run;
    if Overloads(body) {
      var fuel: nat :| Meaning(body, fuel).Surplus?;
      var n := MeaningReached(fns, body, fuel);
    }
    if ComesToShift(fns, Begin(fns)) {
      var n: nat :| M.Clean(fns, Begin(fns), n) && M.Shifts(fns, M.Run(fns, Begin(fns), n));
      AnswersAgree(fns, body, n + 1, n);
      ShowsOne(fns, Meaning(body, n + 1), M.Run(fns, Begin(fns), n));
    }
  }

  lemma {:induction false} EndlessAlike(fns: seq<Function>, body: seq<Definition>)
    requires Compiled(fns, body)
    ensures NeverEnds(body) <==> RunsOn(fns, Begin(fns))
  {
    hide ProgramOk, OfFunction, OutlinesOf, Meaning, M.Shifts, M.Run;
    var s := Begin(fns);
    if NeverEnds(body) {
      forall n: nat ensures M.Run(fns, s, n).status == M.Running && !M.Shifts(fns, M.Run(fns, s, n)) {
        var m := MeaningReached(fns, body, n);
        M.RunningBefore(fns, s, n, m);
      }
    }
    if RunsOn(fns, s) {
      forall fuel: nat ensures Meaning(body, fuel).OutOfFuel? {
        var n := MeaningReached(fns, body, fuel);
        NotBoth(fns, Meaning(body, fuel), M.Run(fns, s, n));
      }
    }
  }

  /** In every state of a clean run of a compiled program every instruction finds what it needs, and no plain pop gives
      up a variable that a closure has. */
  lemma {:induction false} AlwaysSafe(fns: seq<Function>, body: seq<Definition>, n: nat)
    requires Compiled(fns, body) && M.Clean(fns, Begin(fns), n)
    ensures var t := M.Run(fns, Begin(fns), n);
            && S.Safe(fns, t) && t.status != M.Stuck
            && (M.Ready(fns, t) && (M.Next(fns, t).Pop? || M.Next(fns, t).JumpIf?) ==>
                  t.slots != [] && t.slots[|t.slots| - 1] !in t.captured)
  {
    hide OfFunction, ProgramOk, Going, Exact, IsFunction, M.Shifts, M.Clean, M.Run;
    Beginning(fns, body);
    S.StartSafe(fns, |fns| - 1);
    S.RunSafe(fns, Begin(fns), n);
    var t := M.Run(fns, Begin(fns), n);
    if M.Ready(fns, t) && (M.Next(fns, t).Pop? || M.Next(fns, t).JumpIf?) {
      S.PopIsSafe(fns, t);
    }
  }
}

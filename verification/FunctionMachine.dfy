/** The machine that runs functions within functions, on variables: every slot of its stack is one, and a closure shares
    those it captures. */
module FunctionMachine {
  import opened Wrappers
  import opened Closures
  import opened FunctionSyntax
  import opened Functions

  /** A call in progress: its function and instruction, where its slots begin, the variables of its closure's upvalues,
      and how many arguments it got beyond its parameters. */
  datatype Frame = Frame(fn: nat, pc: nat, start: nat, upvalues: seq<nat>, extra: nat)

  datatype ClosureObject = ClosureObject(fn: nat, upvalues: seq<nat>)

  datatype Status = Running | Finished(v: Value) | Failed | Stuck

  /** The variables that the slots stand for, the values of all variables, and the closures made. `captured` is
      auxiliary: the variables that closures have captured. */
  datatype State = State(frames: seq<Frame>, slots: seq<nat>, cells: seq<Value>, closures: seq<ClosureObject>,
                         captured: set<nat>, status: Status)

  function Top(s: State): Frame
    requires s.frames != []
  {
    s.frames[|s.frames| - 1]
  }

  function Goto(s: State, q: nat): State
    requires s.frames != []
  {
    s.(frames := s.frames[|s.frames| - 1 := Top(s).(pc := q)])
  }

  /** A value is pushed, in a new variable. */
  function Pushed(s: State, v: Value): State
    requires s.frames != []
  {
    Goto(s, Top(s).pc + 1).(slots := s.slots + [|s.cells|], cells := s.cells + [v])
  }

  /** The last slot is given up. */
  function Dropped(s: State, q: nat): State
    requires s.frames != [] && s.slots != []
  {
    Goto(s, q).(slots := s.slots[..|s.slots| - 1])
  }

  function ValueOf(s: State, x: nat): Value {
    if x < |s.cells| then s.cells[x] else Null
  }

  function LastValue(s: State): Value
    requires s.slots != []
  {
    ValueOf(s, s.slots[|s.slots| - 1])
  }

  function SlotVar(s: State, i: nat): Option<nat>
    requires s.frames != []
  {
    if Top(s).start + i < |s.slots| then Some(s.slots[Top(s).start + i]) else None
  }

  function UpvalueVar(s: State, u: nat): Option<nat>
    requires s.frames != []
  {
    if u < |Top(s).upvalues| then Some(Top(s).upvalues[u]) else None
  }

  function Read(s: State, x: Option<nat>): State
    requires s.frames != []
  {
    if x.None? then s.(status := Stuck) else Pushed(s, ValueOf(s, x.value))
  }

  /** The variable gets the last value, which stays. */
  function Written(s: State, x: Option<nat>): State
    requires s.frames != []
  {
    if x.None? || s.slots == [] || x.value >= |s.cells| then s.(status := Stuck)
    else Goto(s, Top(s).pc + 1).(cells := s.cells[x.value := LastValue(s)])
  }

  /** The variable that a closure captures: that of a slot, or one the running function's closure has. */
  function Captured(s: State, e: CompilerUpvalue): nat
    requires s.frames != []
  {
    var x := if e.isLocal then SlotVar(s, e.index) else UpvalueVar(s, e.index);
    if x.None? then 0 else x.value
  }

  function CapturedAll(s: State, es: seq<CompilerUpvalue>): (xs: seq<nat>)
    requires s.frames != []
    ensures |xs| == |es|
  {
    seq(|es|, u requires 0 <= u < |es| => Captured(s, es[u]))
  }

  function Elements(xs: seq<nat>): set<nat> {
    set x | x in xs
  }

  function Made(fns: seq<Function>, s: State, f: nat): State
    requires s.frames != []
  {
    if f >= |fns| then s.(status := Stuck)
    else
      var xs := CapturedAll(s, fns[f].upvalues);
      Pushed(s, Closure(|s.closures|)).(closures := s.closures + [ClosureObject(f, xs)],
                                        captured := s.captured + Elements(xs))
  }

  /** What is called with `m` arguments, if that is a closure of a function that has no more parameters. */
  function Callee(fns: seq<Function>, s: State, m: nat): Option<ClosureObject> {
    if m >= |s.slots| then None
    else
      match ValueOf(s, s.slots[|s.slots| - m - 1])
      case Closure(id) =>
        if id < |s.closures| && s.closures[id].fn < |fns| && fns[s.closures[id].fn].arity <= m then
          Some(s.closures[id])
        else
          None
      case _ => None
  }

  /** The slots of the function called begin with itself and all its arguments. */
  function Called(fns: seq<Function>, s: State, m: nat): State
    requires s.frames != []
  {
    match Callee(fns, s, m)
    case None => s.(status := Failed)
    case Some(c) =>
      if m >= |s.slots| || c.fn >= |fns| || fns[c.fn].arity > m then s.(status := Stuck)
      else
        var t := Goto(s, Top(s).pc + 1);
        t.(frames := t.frames + [Frame(c.fn, 0, |s.slots| - m - 1, c.upvalues, m - fns[c.fn].arity)])
  }

  /** The last value, in a new variable, takes the place of the function's slots. */
  function Returned(s: State): State
    requires s.frames != []
  {
    if s.slots == [] || Top(s).start > |s.slots| then s.(status := Stuck)
    else
      var v := LastValue(s);
      s.(frames := s.frames[..|s.frames| - 1], slots := s.slots[..Top(s).start] + [|s.cells|], cells := s.cells + [v],
         status := if |s.frames| == 1 then Finished(v) else Running)
  }

  predicate Ready(fns: seq<Function>, s: State) {
    s.status == Running && s.frames != [] && Top(s).fn < |fns| && Top(s).pc < |fns[Top(s).fn].code|
  }

  function Next(fns: seq<Function>, s: State): Instr
    requires Ready(fns, s)
  {
    fns[Top(s).fn].code[Top(s).pc]
  }

  /** One turn of the interpreter. */
  function Step(fns: seq<Function>, s: State): State {
    if s.status != Running then s else if !Ready(fns, s) then s.(status := Stuck) else Act(fns, s, Next(fns, s))
  }

  function Act(fns: seq<Function>, s: State, i: Instr): State
    requires s.frames != []
  {
    match i
    case Constant(v) => Pushed(s, v)
    case LoadLocal(k) => Read(s, SlotVar(s, k))
    case StoreLocal(k) => Written(s, SlotVar(s, k))
    case LoadUpvalue(u) => Read(s, UpvalueVar(s, u))
    case StoreUpvalue(u) => Written(s, UpvalueVar(s, u))
    case MakeClosure(f) => Made(fns, s, f)
    case Pop => if s.slots == [] then s.(status := Stuck) else Dropped(s, Top(s).pc + 1)
    case CloseUpvalue => if s.slots == [] then s.(status := Stuck) else Dropped(s, Top(s).pc + 1)
    case Jump(t) => Goto(s, t)
    case JumpIf(t) =>
      if s.slots == [] then s.(status := Stuck) else Dropped(s, if Falsy(LastValue(s)) then t else Top(s).pc + 1)
    case Loop(t) => Goto(s, t)
    case Call(m) => Called(fns, s, m)
    case Return => Returned(s)
  }

  function Run(fns: seq<Function>, s: State, n: nat): State
    decreases n
  {
    if n == 0 then s else Run(fns, Step(fns, s), n - 1)
  }

  /** A program begins with its main function, which has no upvalues and no parameters. */
  function Start(main: nat): State {
    State([Frame(main, 0, 0, [], 0)], [0], [Null], [], {}, Running)
  }

  // ----- Surplus arguments ----------------------------------------------------------------------------------

  /** A function without locals of its own: beyond its parameters it has temporaries only. */
  predicate NoLocals(f: Function) {
    forall p :: 0 <= p < |f.kinds| ==> OnlyParameters(f.kinds[p], f.arity)
  }

  predicate OnlyParameters(k: Kinds, arity: nat) {
    |k| > arity && forall i :: 0 <= i < |k| ==> (k[i].Named? <==> i <= arity)
  }

  /** The next step calls a function that has locals with more arguments than it has parameters. The others are then
      where the function's code expects its locals. */
  predicate Shifts(fns: seq<Function>, s: State) {
    && Ready(fns, s) && Next(fns, s).Call?
    && var c := Callee(fns, s, Next(fns, s).numArgs);
       c.Some? && c.value.fn < |fns| && fns[c.value.fn].arity < Next(fns, s).numArgs && !NoLocals(fns[c.value.fn])
  }

  // ----- Runs -----------------------------------------------------------------------------------------------

  lemma {:induction false} RunAppend(fns: seq<Function>, s: State, a: nat, b: nat)
    ensures Run(fns, s, a + b) == Run(fns, Run(fns, s, a), b)
    decreases a
  {
    if a > 0 {
      RunAppend(fns, Step(fns, s), a - 1, b);
    }
  }

  lemma {:induction false} RunStopped(fns: seq<Function>, s: State, n: nat)
    requires s.status != Running
    ensures Run(fns, s, n) == s
    decreases n
  {
    if n > 0 {
      RunStopped(fns, s, n - 1);
    }
  }

  lemma {:induction false} OneMore(fns: seq<Function>, s: State, n: nat)
    ensures Run(fns, s, n + 1) == Step(fns, Run(fns, s, n))
  {
    RunAppend(fns, s, n, 1);
    assert Run(fns, Run(fns, s, n), 1) == Run(fns, Step(fns, Run(fns, s, n)), 0);
  }

  /** A run that has not stopped after some steps has not stopped before. */
  lemma {:induction false} RunningBefore(fns: seq<Function>, s: State, k: nat, n: nat)
    requires k <= n && Run(fns, s, n).status == Running
    ensures Run(fns, s, k).status == Running
  {
    RunAppend(fns, s, k, n - k);
    if Run(fns, s, k).status != Running {
      RunStopped(fns, Run(fns, s, k), n - k);
    }
  }

  /** None of the first `n` steps calls a function that has locals with too many arguments. */
  ghost predicate Clean(fns: seq<Function>, s: State, n: nat) {
    forall k :: 0 <= k < n ==> !Shifts(fns, Run(fns, s, k))
  }

  // ----- Runs up to a surplus argument ----------------------------------------------------------------------

  /** A step, but for a call that shifts. */
  function Guarded(fns: seq<Function>, s: State): State {
    if Shifts(fns, s) then s else Step(fns, s)
  }

  function Follow(fns: seq<Function>, s: State, n: nat): State
    decreases n
  {
    if n == 0 then s else Follow(fns, Guarded(fns, s), n - 1)
  }

  predicate Halted(fns: seq<Function>, s: State) {
    s.status != Running || Shifts(fns, s)
  }

  lemma {:induction false} FollowAppend(fns: seq<Function>, s: State, a: nat, b: nat)
    ensures Follow(fns, s, a + b) == Follow(fns, Follow(fns, s, a), b)
    decreases a
  {
    if a > 0 {
      FollowAppend(fns, Guarded(fns, s), a - 1, b);
    }
  }

  lemma {:induction false} FollowOne(fns: seq<Function>, s: State)
    ensures Follow(fns, s, 1) == Guarded(fns, s)
  {
    assert Follow(fns, Guarded(fns, s), 0) == Guarded(fns, s);
  }

  /** Until a call shifts it is the run itself. */
  lemma {:induction false} FollowRun(fns: seq<Function>, s: State, n: nat) returns (k: nat)
    ensures k <= n && Clean(fns, s, k) && Run(fns, s, k) == Follow(fns, s, n)
    ensures k < n ==> Shifts(fns, Run(fns, s, k))
  {
    hide Shifts;
    k := 0;
    if n > 0 {
      k := FollowRun(fns, s, n - 1);
      FollowAppend(fns, s, n - 1, 1);
      FollowOne(fns, Follow(fns, s, n - 1));
      if !Shifts(fns, Run(fns, s, k)) {
        OneMore(fns, s, k);
        k := n;
      }
    }
  }

  // ----- Where a run ends -----------------------------------------------------------------------------------

  /** A clean run that ends does so in one state. */
  lemma {:induction false} OneEnd(fns: seq<Function>, s: State, m: nat, n: nat)
    requires Clean(fns, s, m) && Halted(fns, Run(fns, s, m)) && Clean(fns, s, n) && Halted(fns, Run(fns, s, n))
    ensures Run(fns, s, m) == Run(fns, s, n)
  {
    hide Shifts;
    var a, b := if m <= n then m else n, if m <= n then n else m;
    if a < b {
      assert Clean(fns, s, b) && !Shifts(fns, Run(fns, s, a));
      RunAppend(fns, s, a, b - a);
      RunStopped(fns, Run(fns, s, a), b - a);
    }
  }

  /** It does not go on after that. */
  lemma {:induction false} EndedBy(fns: seq<Function>, s: State, m: nat, n: nat)
    requires Clean(fns, s, m) && Halted(fns, Run(fns, s, m)) && m <= n && Clean(fns, s, n)
    ensures Halted(fns, Run(fns, s, n))
  {
    hide Shifts;
    if m < n {
      RunAppend(fns, s, m, n - m);
      RunStopped(fns, Run(fns, s, m), n - m);
    }
  }
}

/** The machine on a fiber: its slots are on the fiber's stack, and closures share variables through upvalues. */
module FunctionRuns {
  import opened Wrappers
  import opened Closures
  import opened FunctionSyntax
  import opened Functions
  import opened Upvalues
  import M = FunctionMachine
  import S = FunctionSafety

  /** A frame's function and instruction; the fiber's frame beside it has the rest. */
  datatype Activation = Activation(fn: nat, pc: nat)

  /** A closure in memory. */
  datatype ClosureObject = ClosureObject(fn: nat, upvalues: seq<Upvalue>)

  predicate AllIn(us: seq<Upvalue>, vars: map<Upvalue, nat>) {
    forall i :: 0 <= i < |us| ==> us[i] in vars
  }

  function VarOf(u: Upvalue, vars: map<Upvalue, nat>): nat {
    if u in vars then vars[u] else 0
  }

  /** What upvalues stand for. */
  function VarsOf(us: seq<Upvalue>, vars: map<Upvalue, nat>): (xs: seq<nat>)
    ensures |xs| == |us|
  {
    seq(|us|, i requires 0 <= i < |us| => VarOf(us[i], vars))
  }

  /** What frame `i` is, put together. */
  ghost function FrameOf(activations: seq<Activation>, extras: seq<nat>, frames: seq<CallFrame>,
                         vars: map<Upvalue, nat>, i: nat): M.Frame
    requires i < |activations| == |extras| == |frames|
  {
    M.Frame(activations[i].fn, activations[i].pc, frames[i].start, VarsOf(frames[i].upvalues, vars), extras[i])
  }

  ghost function FramesOf(activations: seq<Activation>, extras: seq<nat>, frames: seq<CallFrame>,
                          vars: map<Upvalue, nat>): (s: seq<M.Frame>)
    requires |activations| == |extras| == |frames|
    ensures |s| == |frames|
  {
    seq(|frames|, i requires 0 <= i < |frames| => FrameOf(activations, extras, frames, vars, i))
  }

  ghost function ClosuresOf(closures: seq<ClosureObject>, vars: map<Upvalue, nat>): (s: seq<M.ClosureObject>)
    ensures |s| == |closures|
  {
    seq(|closures|, i requires 0 <= i < |closures| =>
      M.ClosureObject(closures[i].fn, VarsOf(closures[i].upvalues, vars)))
  }

  /** The stack has room for all slots a function may need. */
  ghost predicate RoomAt(fns: seq<Function>, a: M.Frame, size: nat) {
    a.fn < |fns| && a.start + MaxSlots(S.FnOf(fns, a).kinds) <= size
  }

  ghost predicate Room(fns: seq<Function>, frames: seq<M.Frame>, size: nat) {
    forall i :: 0 <= i < |frames| ==> RoomAt(fns, frames[i], size)
  }

  /** How a closure is made: what it captures first, and then the closure. */
  lemma {:induction false} StepMakes(fns: seq<Function>, s: M.State, f: nat)
    requires s.status == M.Running && M.Ready(fns, s) && M.Next(fns, s) == MakeClosure(f) && f < |fns|
    ensures var xs := M.CapturedAll(s, fns[f].upvalues);
            var s1 := s.(captured := s.captured + M.Elements(xs));
            && M.Step(fns, s) == M.Pushed(s1, Closure(|s.closures|)).(closures := s.closures + [M.ClosureObject(f, xs)])
            && M.Step(fns, s).frames == M.Goto(s, M.Top(s).pc + 1).frames
  {
    hide M.CapturedAll, M.Elements;
  }

  lemma {:induction false} RoomThere(fns: seq<Function>, s: M.State, size: nat)
    requires Room(fns, s.frames, size) && s.frames != [] && M.Top(s).fn < |fns|
    requires |s.slots| < M.Top(s).start + MaxSlots(S.FnOf(fns, M.Top(s)).kinds)
    ensures |s.slots| < size
  {
    hide MaxSlots, S.FnOf;
    assert RoomAt(fns, s.frames[|s.frames| - 1], size);
  }

  class Machine {
    const fns: seq<Function>
    const fiber: Fiber
    var activations: seq<Activation>
    var closures: seq<ClosureObject>
    var status: M.Status
    ghost var extras: seq<nat>

    ghost predicate Aligned()
      reads this, fiber
    {
      && |activations| == |extras| == |fiber.frames|
      && (forall i :: 0 <= i < |fiber.frames| ==> AllIn(fiber.frames[i].upvalues, fiber.vars))
      && forall i :: 0 <= i < |closures| ==> AllIn(closures[i].upvalues, fiber.vars)
    }

    /** What the machine's state means. */
    ghost function Abs(): M.State
      requires Aligned()
      reads this, fiber
    {
      M.State(FramesOf(activations, extras, fiber.frames, fiber.vars), fiber.slots, fiber.cells,
              ClosuresOf(closures, fiber.vars), fiber.vars.Values, status)
    }

    ghost predicate Inv()
      reads this, fiber, fiber.stack, fiber.vars.Keys
    {
      && fiber.Valid() && Aligned() && S.Safe(fns, Abs()) && Room(fns, Abs().frames, fiber.stack.Length)
    }

    /** The machine is about to run function `main`. */
    constructor (fns: seq<Function>, main: nat)
      requires ProgramOk(fns) && main < |fns| && fns[main].arity == 0 && fns[main].upvalues == []
      ensures Inv() && Abs() == M.Start(main) && this.fns == fns
      ensures fresh(fiber) && fresh(fiber.stack) && fiber.vars == map[]
    {
      this.fns := fns;
      fiber := new Fiber(1);
      activations, closures, status, extras := [], [], M.Running, [];
      new;
      Begin(main);
    }

    method Begin(main: nat)
      requires ProgramOk(fns) && main < |fns| && fns[main].arity == 0 && fns[main].upvalues == []
      requires fiber.Valid() && fiber.slots == [] && fiber.cells == [] && fiber.frames == [] && fiber.vars == map[]
      requires fiber.stack.Length == 1 && closures == [] && status == M.Running
      modifies this`activations, this`extras, fiber`cells, fiber`slots, fiber`stackTop, fiber`stack, fiber`frames,
               fiber.stack
      ensures Inv() && Abs() == M.Start(main) && fiber.vars == map[]
      ensures fiber.stack == old(fiber.stack) || fresh(fiber.stack)
    {
      hide Good, Upvalues.FramesOk, ProgramOk, S.Safe, MaxSlots, S.Padded;
      fiber.Push(Null);
      fiber.CallFunction([], 1, MaxSlots(fns[main].kinds));
      activations, extras := [Activation(main, 0)], [0];
      assert Abs().frames == [M.Frame(main, 0, 0, [], 0)];
      assert Abs() == M.Start(main);
      S.StartSafe(fns, main);
      assert S.FnOf(fns, Abs().frames[0]) == fns[main];
    }

    /** The next instruction is `i`. */
    ghost predicate At(i: Instr)
      reads this, fiber, fiber.stack, fiber.vars.Keys
    {
      Inv() && M.Ready(fns, Abs()) && M.Next(fns, Abs()) == i
    }

    lemma {:induction false} Here()
      requires Inv() && M.Ready(fns, Abs())
      ensures var t := |activations| - 1;
              && activations != [] && activations[t].fn < |fns| && activations[t].pc < |fns[activations[t].fn].code|
              && M.Next(fns, Abs()) == fns[activations[t].fn].code[activations[t].pc]
              && fiber.frames != [] && M.Top(Abs()) == FrameOf(activations, extras, fiber.frames, fiber.vars, t)
              && fiber.frames[t].start < |fiber.slots| == fiber.stackTop <= fiber.stack.Length
    {
      hide Good, Upvalues.FramesOk, MaxSlots;
      S.Here(fns, Abs());
      fiber.OpenUpvalue();
    }

    /** From `s` on: the machine has taken a step, and if that was a safe one all is as it should be. */
    ghost predicate Stepped(s: M.State)
      reads this, fiber, fiber.stack, fiber.vars.Keys
    {
      && fiber.Valid() && Aligned() && Abs() == M.Step(fns, s) && (!M.Shifts(fns, s) ==> Inv())
    }

    /** After a step within a function, there is still room. */
    lemma {:induction false} Settled(s: M.State, size: nat, q: nat)
      requires fiber.Valid() && Aligned() && Abs() == M.Step(fns, s) && S.Safe(fns, s) && Room(fns, s.frames, size)
      requires !M.Shifts(fns, s) && s.frames != [] && Abs().frames == M.Goto(s, q).frames && size <= fiber.stack.Length
      ensures Inv()
    {
      hide S.Safe, S.FnOf, M.Shifts, Good, Upvalues.FramesOk, M.Step, MaxSlots;
      S.StepSafe(fns, s);
      forall i | 0 <= i < |Abs().frames| ensures RoomAt(fns, Abs().frames[i], fiber.stack.Length) {
        assert RoomAt(fns, s.frames[i], size);
        SameFunction(s.frames[i], Abs().frames[i]);
      }
    }

    lemma {:induction false} SameFunction(a: M.Frame, b: M.Frame)
      requires a.fn < |fns| && b == a.(pc := b.pc)
      ensures S.FnOf(fns, b) == S.FnOf(fns, a)
    {
    }

    /** Another instruction follows. */
    method Advance(q: nat)
      requires activations != []
      modifies this`activations
      ensures activations == old(activations)[|old(activations)| - 1 :=
                                              old(activations)[|old(activations)| - 1].(pc := q)]
    {
      var t := |activations| - 1;
      activations := activations[t := activations[t].(pc := q)];
    }

    /** A value is pushed, and the next instruction follows. */
    method Push(v: Value)
      requires Inv() && M.Ready(fns, Abs()) && M.Step(fns, Abs()) == M.Pushed(Abs(), v) && !M.Shifts(fns, Abs())
      requires var f := S.FnOf(fns, M.Top(Abs()));
               M.Top(Abs()).pc < |f.kinds| && Flows(f.kinds, f.kinds[M.Top(Abs()).pc] + [Temp], M.Top(Abs()).pc + 1)
      modifies this`activations, fiber`cells, fiber`slots, fiber`stackTop, fiber.stack
      ensures Inv() && Abs() == M.Step(fns, old(Abs()))
    {
      hide S.Safe, S.FnOf, M.Shifts, Good, Upvalues.FramesOk, M.Step, MaxSlots, Flows;
      Here();
      ghost var s, size := Abs(), fiber.stack.Length;
      S.PushSafe(fns, s, v);
      assert RoomAt(fns, s.frames[|s.frames| - 1], size);
      fiber.Push(v);
      Advance(activations[|activations| - 1].pc + 1);
      assert Abs().frames == M.Goto(s, M.Top(s).pc + 1).frames;
      Settled(s, size, M.Top(s).pc + 1);
    }

    method StepConstant(v: Value)
      requires At(Instr.Constant(v))
      modifies this`activations, fiber`cells, fiber`slots, fiber`stackTop, fiber.stack
      ensures Inv() && Abs() == M.Step(fns, old(Abs()))
    {
      hide S.Safe, S.FnOf, Good, Upvalues.FramesOk, MaxSlots, Flows;
      S.Here(fns, Abs());
      Push(v);
    }

    /** What a frame's slot or upvalue stands for is there. */
    lemma {:induction false} There(i: Instr)
      requires At(i) && (i.LoadLocal? || i.StoreLocal? || i.LoadUpvalue? || i.StoreUpvalue?)
      ensures i.LoadLocal? || i.StoreLocal? ==>
                var k := i.slot;
                fiber.HasLocal(k) && M.SlotVar(Abs(), k) == Some(fiber.Local(k))
      ensures i.LoadUpvalue? || i.StoreUpvalue? ==>
                var k := i.index;
                fiber.HasUpvalue(k) && M.UpvalueVar(Abs(), k) == Some(fiber.UpvalueOf(k))
    {
      hide S.Safe, S.FnOf, Good, Upvalues.FramesOk, MaxSlots, Flows;
      Here();
      ghost var s := Abs();
      S.Here(fns, s);
      match i
      case LoadLocal(k) => S.SlotThere(fns, s, k);
      case StoreLocal(k) => S.SlotThere(fns, s, k);
      case LoadUpvalue(u) => S.UpvalueThere(fns, s, u);
      case StoreUpvalue(u) => S.UpvalueThere(fns, s, u);
      case _ =>
    }

    method StepLoad(i: Instr)
      requires At(i) && (i.LoadLocal? || i.LoadUpvalue?)
      modifies this`activations, fiber`cells, fiber`slots, fiber`stackTop, fiber.stack
      ensures Inv() && Abs() == M.Step(fns, old(Abs()))
    {
      hide S.Safe, S.FnOf, Good, Upvalues.FramesOk, MaxSlots, Flows;
      There(i);
      S.Here(fns, Abs());
      var v;
      match i {
        case LoadLocal(slot) => v := fiber.LoadLocal(slot);
        case LoadUpvalue(index) => v := fiber.LoadUpvalue(index);
      }
      Push(v);
    }

    method StepStore(i: Instr)
      requires At(i) && (i.StoreLocal? || i.StoreUpvalue?)
      modifies this`activations, fiber`cells, fiber.stack, fiber.vars.Keys
      ensures Inv() && Abs() == M.Step(fns, old(Abs()))
    {
      hide S.Safe, S.FnOf, Good, Upvalues.FramesOk, MaxSlots, Flows;
      Here();
      ghost var s, size := Abs(), fiber.stack.Length;
      var v := LastValue();
      Store(i, v);
      Advance(activations[|activations| - 1].pc + 1);
      Settled(s, size, M.Top(s).pc + 1);
    }

    method Store(i: Instr, v: Value)
      requires At(i) && (i.StoreLocal? || i.StoreUpvalue?)
      modifies fiber`cells, fiber.stack, fiber.vars.Keys
      ensures fiber.Valid() && Aligned()
      ensures var x := old(if i.StoreLocal? then M.SlotVar(Abs(), i.slot) else M.UpvalueVar(Abs(), i.index));
              x.Some? && x.value < |old(fiber.cells)| && fiber.cells == old(fiber.cells)[x.value := v]
    {
      hide S.Safe, S.FnOf, Good, Upvalues.FramesOk, MaxSlots, Flows;
      There(i);
      match i {
        case StoreLocal(slot) => fiber.StoreLocal(slot, v);
        case StoreUpvalue(index) => fiber.StoreUpvalue(index, v);
      }
    }

    method LastValue() returns (v: Value)
      requires Inv() && M.Ready(fns, Abs())
      ensures Abs().slots != [] && v == M.LastValue(Abs()) && Abs().slots[|Abs().slots| - 1] < |Abs().cells|
    {
      hide S.Safe, S.FnOf, Good, Upvalues.FramesOk, MaxSlots;
      Here();
      ReadSlot(fiber.Abs(), fiber.stackTop - 1);
      v := fiber.stack[fiber.stackTop - 1];
    }

    /** The last slot, which no closure has, is given up. */
    method PopValue() returns (v: Value)
      requires Inv() && M.Ready(fns, Abs()) && (M.Next(fns, Abs()).Pop? || M.Next(fns, Abs()).JumpIf?)
      modifies fiber`slots, fiber`stackTop
      ensures fiber.Valid() && Aligned() && old(Abs()).slots != [] && v == M.LastValue(old(Abs()))
      ensures Abs() == old(Abs()).(slots := old(Abs()).slots[..|old(Abs()).slots| - 1])
    {
      hide S.Safe, S.FnOf, Good, Upvalues.FramesOk, MaxSlots, Flows, M.Step, M.Shifts, Room;
      Here();
      ghost var s := Abs();
      S.Here(fns, s);
      S.PopIsSafe(fns, s);
      S.DropSafe(fns, s, M.Top(s).pc + 1);
      v := fiber.Pop();
    }

    method StepPop()
      requires At(Pop)
      modifies this`activations, fiber`slots, fiber`stackTop
      ensures Inv() && Abs() == M.Step(fns, old(Abs()))
    {
      hide S.Safe, S.FnOf, Good, Upvalues.FramesOk, MaxSlots, Flows;
      Here();
      ghost var s, size := Abs(), fiber.stack.Length;
      var v := PopValue();
      Advance(activations[|activations| - 1].pc + 1);
      Settled(s, size, M.Top(s).pc + 1);
    }

    method StepCloseUpvalue()
      requires At(CloseUpvalue)
      modifies this`activations, fiber`openUpvalues, fiber`open, fiber`slots, fiber`stackTop, fiber.vars.Keys
      ensures Inv() && Abs() == M.Step(fns, old(Abs()))
    {
      hide S.Safe, S.FnOf, Good, Upvalues.FramesOk, MaxSlots, Flows;
      Here();
      ghost var s, size := Abs(), fiber.stack.Length;
      S.Here(fns, s);
      S.DropSafe(fns, s, M.Top(s).pc + 1);
      fiber.CloseUpvalue();
      Advance(activations[|activations| - 1].pc + 1);
      Settled(s, size, M.Top(s).pc + 1);
    }

    /** A temporary decides where the run goes on. */
    method StepJumpIf(target: nat)
      requires At(JumpIf(target))
      modifies this`activations, fiber`slots, fiber`stackTop
      ensures Inv() && Abs() == M.Step(fns, old(Abs()))
    {
      hide S.Safe, S.FnOf, Good, Upvalues.FramesOk, MaxSlots, Flows;
      Here();
      ghost var s, size := Abs(), fiber.stack.Length;
      var v := PopValue();
      var q := if Falsy(v) then target else activations[|activations| - 1].pc + 1;
      Advance(q);
      Settled(s, size, q);
    }

    method StepJump(target: nat)
      requires At(Jump(target)) || At(Loop(target))
      modifies this`activations
      ensures Inv() && Abs() == M.Step(fns, old(Abs()))
    {
      hide S.Safe, S.FnOf, Good, Upvalues.FramesOk, MaxSlots;
      Here();
      ghost var s, size := Abs(), fiber.stack.Length;
      Advance(target);
      Settled(s, size, target);
    }

    /** A closure is made of function `f`, and pushed. */
    method StepMakeClosure(f: nat)
      requires At(MakeClosure(f))
      modifies this`activations, this`closures, fiber`openUpvalues, fiber`open, fiber`vars, fiber`cells, fiber`slots,
               fiber`stackTop, fiber.stack, fiber.vars.Keys
      ensures Inv() && Abs() == M.Step(fns, old(Abs())) && fresh(fiber.vars.Keys - old(fiber.vars.Keys))
    {
      hide S.Safe, S.FnOf, Good, Upvalues.FramesOk, MaxSlots, Flows, M.Shifts, M.CapturedAll, M.Elements, Room, M.Step,
           M.Pushed, M.Next, VarsOf;
      Here();
      ghost var s, size := Abs(), fiber.stack.Length;
      S.RoomToMake(fns, s);
      RoomThere(fns, s, size);
      StepMakes(fns, s, f);
      var upvalues := CaptureAll(f);
      PushClosure(f, upvalues);
      Settled(s, size, M.Top(s).pc + 1);
    }

    method PushClosure(f: nat, upvalues: seq<Upvalue>)
      requires fiber.Valid() && Aligned() && AllIn(upvalues, fiber.vars) && activations != []
      requires fiber.stackTop < fiber.stack.Length
      modifies this`activations, this`closures, fiber`cells, fiber`slots, fiber`stackTop, fiber.stack
      ensures fiber.Valid() && Aligned()
      ensures Abs() == M.Pushed(old(Abs()), Closure(|old(closures)|)).(
                         closures := old(Abs()).closures + [M.ClosureObject(f, VarsOf(upvalues, fiber.vars))])
    {
      hide Good, Upvalues.FramesOk;
      ghost var s := Abs();
      fiber.Push(Closure(|closures|));
      closures := closures + [ClosureObject(f, upvalues)];
      Advance(activations[|activations| - 1].pc + 1);
      assert Abs().closures == s.closures + [M.ClosureObject(f, VarsOf(upvalues, fiber.vars))];
      assert Abs().frames == M.Goto(s, M.Top(s).pc + 1).frames;
    }

    /** The upvalues of a closure to be: what they stand for has been captured now. */
    method CaptureAll(f: nat) returns (upvalues: seq<Upvalue>)
      requires At(MakeClosure(f)) && f < |fns|
      modifies fiber`openUpvalues, fiber`open, fiber`vars, fiber.vars.Keys
      ensures fiber.Valid() && Aligned() && AllIn(upvalues, fiber.vars) && fresh(fiber.vars.Keys - old(fiber.vars.Keys))
      ensures var xs := M.CapturedAll(old(Abs()), fns[f].upvalues);
              && VarsOf(upvalues, fiber.vars) == xs
              && Abs() == old(Abs()).(captured := old(Abs()).captured + M.Elements(xs))
    {
      hide S.Safe, S.FnOf, Good, Upvalues.FramesOk, MaxSlots, Flows, M.Next, M.Step, Captured, M.Captured, M.Top;
      ghost var s, was := Abs(), fiber.vars;
      upvalues := CloseOver(f);
      ValuesAre(was, fiber.vars, upvalues, M.CapturedAll(s, fns[f].upvalues));
      SameVars(was);
    }

    method CloseOver(f: nat) returns (upvalues: seq<Upvalue>)
      requires At(MakeClosure(f)) && f < |fns|
      modifies fiber`openUpvalues, fiber`open, fiber`vars, fiber.vars.Keys
      ensures fiber.Valid() && AllIn(upvalues, fiber.vars) && fresh(fiber.vars.Keys - old(fiber.vars.Keys))
      ensures VarsOf(upvalues, fiber.vars) == M.CapturedAll(old(Abs()), fns[f].upvalues)
      ensures Upvalues.Kept(old(fiber.vars), fiber.vars) && OnlyAdded(old(fiber.vars), fiber.vars, upvalues)
    {
      hide S.Safe, S.FnOf, Good, Upvalues.FramesOk, MaxSlots, Flows, M.Next, M.Step, Captured, M.Captured, M.Top;
      CapturedAsAll(f);
      ghost var s := Abs();
      hide Inv, At;
      upvalues := fiber.Closure(fns[f].upvalues);
      assert VarsOf(upvalues, fiber.vars) == M.CapturedAll(s, fns[f].upvalues);
    }

    lemma {:induction false} CapturedAsAll(f: nat)
      requires At(MakeClosure(f)) && f < |fns|
      ensures fiber.frames != [] && |M.CapturedAll(Abs(), fns[f].upvalues)| == |fns[f].upvalues|
      ensures forall u :: 0 <= u < |fns[f].upvalues| ==>
                Captured(fiber.slots, fiber.vars, fiber.frames[|fiber.frames| - 1], fns[f].upvalues[u])
                  == Some(M.CapturedAll(Abs(), fns[f].upvalues)[u])
    {
      hide S.Safe, S.FnOf, Good, Upvalues.FramesOk, MaxSlots, Flows;
      Here();
      ghost var s, es := Abs(), fns[f].upvalues;
      S.CaptureFits(fns, s, fns[f], S.FnOf(fns, M.Top(s)));
      forall u | 0 <= u < |es|
        ensures Captured(fiber.slots, fiber.vars, fiber.frames[|fiber.frames| - 1], es[u]) == Some(M.Captured(s, es[u]))
      {
        CapturedAs(es[u]);
      }
    }

    /** What the fiber captures is what the machine on variables does. */
    lemma {:induction false} CapturedAs(e: CompilerUpvalue)
      requires Inv() && M.Ready(fns, Abs())
      requires (if e.isLocal then M.SlotVar(Abs(), e.index) else M.UpvalueVar(Abs(), e.index)).Some?
      ensures fiber.frames != []
      ensures Captured(fiber.slots, fiber.vars, fiber.frames[|fiber.frames| - 1], e) == Some(M.Captured(Abs(), e))
    {
      hide S.Safe, S.FnOf, Good, Upvalues.FramesOk;
      Here();
      var t := |fiber.frames| - 1;
      assert AllIn(fiber.frames[t].upvalues, fiber.vars);
    }

    /** Frames and closures stand for what they stood for. */
    twostate lemma {:induction false} SameVars(was: map<Upvalue, nat>)
      requires old(Aligned()) && was == old(fiber.vars) && Upvalues.Kept(was, fiber.vars)
      requires activations == old(activations) && extras == old(extras) && fiber.frames == old(fiber.frames)
      requires closures == old(closures)
      ensures Aligned() && Abs().frames == old(Abs()).frames && Abs().closures == old(Abs()).closures
    {
      forall i | 0 <= i < |fiber.frames|
        ensures AllIn(fiber.frames[i].upvalues, fiber.vars)
        ensures FrameOf(activations, extras, fiber.frames, fiber.vars, i)
             == old(FrameOf(activations, extras, fiber.frames, fiber.vars, i))
      {
        VarsKept(fiber.frames[i].upvalues, was, fiber.vars);
      }
      forall i | 0 <= i < |closures|
        ensures AllIn(closures[i].upvalues, fiber.vars)
        ensures VarsOf(closures[i].upvalues, fiber.vars) == VarsOf(closures[i].upvalues, was)
      {
        VarsKept(closures[i].upvalues, was, fiber.vars);
      }
    }

    /** A call. The fiber's new frame begins with the closure called. */
    method StepCall(m: nat)
      requires At(Call(m))
      modifies this`activations, this`extras, this`status, fiber`stack, fiber`frames, fiber.vars.Keys
      ensures Stepped(old(Abs())) && (fiber.stack == old(fiber.stack) || fresh(fiber.stack))
    {
      hide S.Safe, S.FnOf, Good, Upvalues.FramesOk, MaxSlots, Flows, M.Shifts;
      Here();
      ghost var s := Abs();
      S.Here(fns, s);
      var callee := fiber.stack[fiber.stackTop - m - 1];
      assert callee == M.ValueOf(s, s.slots[|s.slots| - m - 1]) by {
        ReadSlot(fiber.Abs(), fiber.stackTop - m - 1);
      }
      if !callee.Closure? || callee.id >= |closures|
          || (ClosureThere(callee.id); fns[closures[callee.id].fn].arity > m) {
        status := M.Failed;
        assert Abs() == s.(status := M.Failed);
        S.FailSafe(fns, s);
        return;
      }
      ClosureThere(callee.id);
      Enter(closures[callee.id], m);
    }

    lemma {:induction false} ClosureThere(i: nat)
      requires Inv() && i < |closures|
      ensures closures[i].fn < |fns| && AllIn(closures[i].upvalues, fiber.vars)
    {
      assert S.ClosureOk(fns, Abs(), Abs().closures[i]);
    }

    method Enter(c: ClosureObject, m: nat)
      requires At(Call(m)) && c.fn < |fns| && fns[c.fn].arity <= m < |fiber.slots| && AllIn(c.upvalues, fiber.vars)
      requires M.Callee(fns, Abs(), m) == Some(M.ClosureObject(c.fn, VarsOf(c.upvalues, fiber.vars)))
      modifies this`activations, this`extras, fiber`stack, fiber`frames, fiber.vars.Keys
      ensures Stepped(old(Abs())) && (fiber.stack == old(fiber.stack) || fresh(fiber.stack))
    {
      hide S.Safe, S.FnOf, Good, Upvalues.FramesOk, MaxSlots, Flows, M.Shifts;
      Here();
      ghost var s := Abs();
      S.Here(fns, s);
      ghost var size := fiber.stack.Length;
      PushFrame(c, m);
      if !M.Shifts(fns, s) {
        S.StepSafe(fns, s);
        assert Room(fns, Abs().frames, fiber.stack.Length) by {
          RoomAfter(fns, s, m, size, fiber.stack.Length, c.fn);
        }
      }
    }

    method PushFrame(c: ClosureObject, m: nat)
      requires At(Call(m)) && c.fn < |fns| && fns[c.fn].arity <= m < |fiber.slots| && AllIn(c.upvalues, fiber.vars)
      requires M.Callee(fns, Abs(), m) == Some(M.ClosureObject(c.fn, VarsOf(c.upvalues, fiber.vars)))
      modifies this`activations, this`extras, fiber`stack, fiber`frames, fiber.vars.Keys
      ensures fiber.Valid() && Aligned() && Abs() == M.Called(fns, old(Abs()), m)
      ensures fiber.stack == old(fiber.stack) || fresh(fiber.stack)
      ensures fiber.stack.Length >= old(fiber.stack.Length)
              && fiber.stack.Length >= |fiber.slots| + MaxSlots(fns[c.fn].kinds)
    {
      hide S.Safe, S.FnOf, Good, Upvalues.FramesOk, MaxSlots, Flows, M.Shifts, M.Step, M.Callee, M.Next, M.Act, Room,
           FramesOf, FrameOf, ClosuresOf, VarsOf;
      Here();
      ghost var s := Abs();
      S.CallHasSlots(fns, s);
      NewFrame(activations, extras, fiber.frames, fiber.vars, |activations| - 1);
      CallFiber(c, m);
      Advance(activations[|activations| - 1].pc + 1);
      activations, extras := activations + [Activation(c.fn, 0)], extras + [m - fns[c.fn].arity];
      FramesCalled(old(activations), activations, old(extras), extras, old(fiber.frames), fiber.frames, fiber.vars);
      NewFrame(activations, extras, fiber.frames, fiber.vars, |activations| - 1);
    }

    method CallFiber(c: ClosureObject, m: nat)
      requires fiber.Valid() && m < fiber.stackTop && AllIn(c.upvalues, fiber.vars) && c.fn < |fns|
      requires fiber.frames != [] ==> fiber.frames[|fiber.frames| - 1].start < fiber.stackTop - m - 1
      modifies fiber`stack, fiber`frames, fiber.vars.Keys
      ensures fiber.Valid() && (fiber.stack == old(fiber.stack) || fresh(fiber.stack))
      ensures fiber.stack.Length >= old(fiber.stack.Length)
              && fiber.stack.Length >= |fiber.slots| + MaxSlots(fns[c.fn].kinds)
      ensures |fiber.frames| == |old(fiber.frames)| + 1
      ensures forall i :: 0 <= i < |old(fiber.frames)| ==>
                fiber.frames[i].upvalues == old(fiber.frames)[i].upvalues
                && fiber.frames[i].start == old(fiber.frames)[i].start
      ensures fiber.frames[|old(fiber.frames)|] == CallFrame(fiber.stack, |fiber.slots| - m - 1, c.upvalues)
    {
      hide Good, Upvalues.FramesOk, MaxSlots;
      fiber.CallFunction(c.upvalues, m + 1, MaxSlots(fns[c.fn].kinds));
    }

    method StepReturn()
      requires At(Return)
      modifies this`activations, this`extras, this`status, fiber`openUpvalues, fiber`open, fiber`slots, fiber`stackTop,
               fiber`frames, fiber`cells, fiber.vars.Keys, fiber.stack
      ensures Inv() && Abs() == M.Step(fns, old(Abs()))
    {
      hide S.Safe, S.FnOf, Good, Upvalues.FramesOk, MaxSlots, Flows, M.Shifts, M.Returned;
      ghost var s, size := Abs(), fiber.stack.Length;
      assert !M.Shifts(fns, s) by {
        NoCall(s);
      }
      S.ReturnSafe(fns, s);
      LeaveFrame();
      forall i | 0 <= i < |Abs().frames| ensures RoomAt(fns, Abs().frames[i], fiber.stack.Length) {
        assert RoomAt(fns, s.frames[i], size);
      }
    }

    /** The result takes the place of the function's slots. */
    method LeaveFrame()
      requires At(Return)
      modifies this`activations, this`extras, this`status, fiber`openUpvalues, fiber`open, fiber`slots, fiber`stackTop,
               fiber`frames, fiber`cells, fiber.vars.Keys, fiber.stack
      ensures fiber.Valid() && Aligned() && Abs() == M.Returned(old(Abs()))
      ensures Abs().frames == old(Abs().frames)[..|old(Abs().frames)| - 1]
    {
      hide S.Safe, S.FnOf, Good, Upvalues.FramesOk, MaxSlots, Flows, M.Shifts, M.Step, Room;
      Here();
      ghost var s := Abs();
      var v := LastValue();
      fiber.Return();
      activations, extras := activations[..|activations| - 1], extras[..|extras| - 1];
      status := if activations == [] then M.Finished(v) else M.Running;
      assert Abs().frames == s.frames[..|s.frames| - 1];
    }

    lemma {:induction false} NoCall(s: M.State)
      requires M.Ready(fns, s) && !M.Next(fns, s).Call?
      ensures !M.Shifts(fns, s)
    {
    }

    /** One step. After a call of a function that has locals with too many arguments, all is not as it should be. */
    method Step()
      requires Inv() && status == M.Running
      modifies this, fiber, fiber.stack, fiber.vars.Keys
      ensures Stepped(old(Abs()))
      ensures fresh(fiber.vars.Keys - old(fiber.vars.Keys)) && (fiber.stack == old(fiber.stack) || fresh(fiber.stack))
    {
      hide S.Safe, S.FnOf, Good, Upvalues.FramesOk, MaxSlots, Flows, M.Shifts;
      S.Here(fns, Abs());
      Here();
      var a := activations[|activations| - 1];
      var i := fns[a.fn].code[a.pc];
      match i {
        case Constant(value) => StepConstant(value);
        case LoadLocal(_) => StepLoad(i);
        case StoreLocal(_) => StepStore(i);
        case LoadUpvalue(_) => StepLoad(i);
        case StoreUpvalue(_) => StepStore(i);
        case MakeClosure(f) => StepMakeClosure(f);
        case Pop => StepPop();
        case CloseUpvalue => StepCloseUpvalue();
        case Jump(target) => StepJump(target);
        case JumpIf(target) => StepJumpIf(target);
        case Loop(target) => StepJump(target);
        case Call(m) => StepCall(m);
        case Return => StepReturn();
      }
    }

    /** The next step calls a function that has locals with more arguments than it has parameters. */
    method WillShift() returns (b: bool)
      requires Inv() && status == M.Running
      ensures b == M.Shifts(fns, Abs())
    {
      hide S.Safe, S.FnOf, Good, Upvalues.FramesOk, MaxSlots, Flows;
      S.Here(fns, Abs());
      Here();
      var a := activations[|activations| - 1];
      var i := fns[a.fn].code[a.pc];
      if !i.Call? {
        return false;
      }
      var k := fiber.stackTop - i.numArgs - 1;
      ReadSlot(fiber.Abs(), k);
      var callee := fiber.stack[k];
      if !callee.Closure? || callee.id >= |closures| {
        return false;
      }
      ClosureThere(callee.id);
      var f := fns[closures[callee.id].fn];
      b := f.arity < i.numArgs && !M.NoLocals(f);
    }

    /** A run of `n` steps, or up to a call of a function that has locals with too many arguments. */
    method Run(n: nat) returns (steps: nat)
      requires Inv()
      modifies this, fiber, fiber.stack, fiber.vars.Keys
      ensures Inv() && steps <= n && Abs() == M.Run(fns, old(Abs()), steps) && M.Clean(fns, old(Abs()), steps)
      ensures steps < n ==> status != M.Running || M.Shifts(fns, Abs())
    {
      hide S.Safe, S.FnOf, Good, Upvalues.FramesOk, M.Shifts, M.Step;
      steps := 0;
      while steps < n
        invariant steps <= n && Inv() && Abs() == M.Run(fns, old(Abs()), steps) && M.Clean(fns, old(Abs()), steps)
        invariant fresh(fiber.vars.Keys - old(fiber.vars.Keys))
                  && (fiber.stack == old(fiber.stack) || fresh(fiber.stack))
      {
        if status != M.Running {
          return;
        }
        var shifts := WillShift();
        if shifts {
          return;
        }
        M.OneMore(fns, old(Abs()), steps);
        Step();
        steps := steps + 1;
      }
    }
  }

  lemma {:induction false} NewFrame(activations: seq<Activation>, extras: seq<nat>, frames: seq<CallFrame>,
                                    vars: map<Upvalue, nat>, i: nat)
    requires i < |activations| == |extras| == |frames|
    ensures FrameOf(activations, extras, frames, vars, i)
         == M.Frame(activations[i].fn, activations[i].pc, frames[i].start, VarsOf(frames[i].upvalues, vars), extras[i])
  {
  }

  lemma {:induction false} FramesCalled(was: seq<Activation>, now: seq<Activation>, extras: seq<nat>, extras': seq<nat>,
                                        frames: seq<CallFrame>, frames': seq<CallFrame>, vars: map<Upvalue, nat>)
    requires |was| == |extras| == |frames| > 0 && |now| == |extras'| == |frames'| == |was| + 1
    requires now[..|was|] == was[|was| - 1 := was[|was| - 1].(pc := was[|was| - 1].pc + 1)]
             && extras'[..|was|] == extras
    requires forall i :: 0 <= i < |was| ==>
               frames'[i].upvalues == frames[i].upvalues && frames'[i].start == frames[i].start
    ensures var s, t := FramesOf(was, extras, frames, vars), |was| - 1;
            FramesOf(now, extras', frames', vars)
              == s[t := s[t].(pc := s[t].pc + 1)] + [FrameOf(now, extras', frames', vars, |was|)]
  {
    forall i | 0 <= i < |was|
      ensures FrameOf(now, extras', frames', vars, i)
           == FrameOf(was, extras, frames, vars, i).(pc := now[i].pc) && now[i].fn == was[i].fn
    {
      assert now[i] == now[..|was|][i] && extras'[i] == extras'[..|was|][i];
    }
  }

  lemma {:induction false} MostSlots(kinds: seq<Kinds>, n: nat)
    requires forall p :: 0 <= p < |kinds| ==> |kinds[p]| <= n
    ensures MaxSlots(kinds) <= n
  {
    if kinds != [] {
      MostSlots(kinds[..|kinds| - 1], n);
    }
  }

  /** The new frame has room, the surplus arguments included. */
  lemma {:induction false} RoomAfter(fns: seq<Function>, s: M.State, m: nat, size: nat, size': nat, g: nat)
    requires Room(fns, s.frames, size) && size <= size' && M.Ready(fns, s) && M.Callee(fns, s, m).Some?
    requires M.Callee(fns, s, m).value.fn == g && g < |fns| && fns[g].arity <= m < |s.slots|
    requires |s.slots| + MaxSlots(fns[g].kinds) <= size'
    ensures Room(fns, M.Called(fns, s, m).frames, size')
  {
    var s' := M.Called(fns, s, m);
    var e := m - fns[g].arity;
    hide MaxSlots;
    forall p | 0 <= p < |fns[g].kinds| ensures |S.Padded(fns[g], e).kinds[p]| <= MaxSlots(fns[g].kinds) + e {
    }
    MostSlots(S.Padded(fns[g], e).kinds, MaxSlots(fns[g].kinds) + e);
    hide S.Padded;
    forall i | 0 <= i < |s'.frames| ensures RoomAt(fns, s'.frames[i], size') {
      if i < |s.frames| {
        assert RoomAt(fns, s.frames[i], size);
        assert S.FnOf(fns, s'.frames[i]) == S.FnOf(fns, s.frames[i]);
      }
    }
  }

  /** Upvalues stand for what they stood for when there are more. */
  lemma {:induction false} VarsKept(us: seq<Upvalue>, was: map<Upvalue, nat>, now: map<Upvalue, nat>)
    requires AllIn(us, was) && Upvalues.Kept(was, now)
    ensures AllIn(us, now) && VarsOf(us, now) == VarsOf(us, was)
  {
  }

  lemma {:induction false} ValuesAre(was: map<Upvalue, nat>, now: map<Upvalue, nat>, added: seq<Upvalue>, xs: seq<nat>)
    requires Upvalues.Kept(was, now) && OnlyAdded(was, now, added) && AllIn(added, now) && VarsOf(added, now) == xs
    ensures now.Values == was.Values + M.Elements(xs)
  {
    forall x | x in now.Values ensures x in was.Values + M.Elements(xs) {
      var u :| u in now && now[u] == x;
      if u !in was {
        var i :| 0 <= i < |added| && added[i] == u;
        assert xs[i] == x;
      }
    }
    forall x | x in was.Values + M.Elements(xs) ensures x in now.Values {
      if x in was.Values {
        var u :| u in was && was[u] == x;
        assert now[u] == x;
      } else {
        var i :| 0 <= i < |xs| && xs[i] == x;
        assert now[added[i]] == x;
      }
    }
  }
}

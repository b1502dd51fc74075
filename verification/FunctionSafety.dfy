/** What holds of every state of a run: frames have the slots their code expects, and no variable that a closure has
    captured is given up by a plain pop. */
module FunctionSafety {
  import opened Wrappers
  import opened Closures
  import opened FunctionSyntax
  import opened Functions
  import opened FunctionMachine

  // ----- Functions called with more arguments ---------------------------------------------------------------

  function PaddedKinds(k: Kinds, arity: nat, e: nat): (k': Kinds)
    ensures e == 0 ==> k' == k
  {
    if |k| <= arity then k
    else
      assert e == 0 ==> k[..arity + 1] + seq(0, _ => Temp) + k[arity + 1..] == k;
      k[..arity + 1] + seq(e, _ => Temp) + k[arity + 1..]
  }

  /** A function without locals, as it runs with `e` arguments more: they are temporaries no code looks at. */
  function Padded(f: Function, e: nat): (g: Function)
    ensures g.code == f.code && g.upvalues == f.upvalues && |g.kinds| == |f.kinds| && g.arity == f.arity + e
    ensures e == 0 ==> g == f
  {
    var kinds := seq(|f.kinds|, p requires 0 <= p < |f.kinds| => PaddedKinds(f.kinds[p], f.arity, e));
    assert e == 0 ==> kinds == f.kinds;
    f.(arity := f.arity + e, kinds := kinds)
  }

  lemma {:induction false} PaddedAt(k: Kinds, arity: nat, e: nat)
    requires OnlyParameters(k, arity)
    ensures var k' := PaddedKinds(k, arity, e);
            && |k'| == |k| + e && OnlyParameters(k', arity)
            && (forall i :: 0 <= i <= arity ==> k'[i] == k[i])
            && forall i :: arity < i < |k'| ==> k'[i] == Temp
  {
  }

  /** Slots that flow on do so with more arguments among them. */
  lemma {:induction false} PaddedFlows(kinds: seq<Kinds>, padded: seq<Kinds>, k: Kinds, k': Kinds, q: nat, arity: nat,
                                       e: nat)
    requires Flows(kinds, k, q) && |padded| == |kinds| && padded[q] == PaddedKinds(kinds[q], arity, e)
    requires OnlyParameters(kinds[q], arity)
    requires |k'| == |k| + e && forall i :: 0 <= i <= arity ==> k'[i] == k[i]
    requires forall i :: arity < i < |k'| ==> k'[i] == Temp
    ensures Flows(padded, k', q)
  {
    PaddedAt(kinds[q], arity, e);
    forall i | 0 <= i < |k'| ensures padded[q][i] == k'[i] || (k'[i].Temp? && padded[q][i].Named?) {
      if i <= arity {
        assert kinds[q][i] == k[i] || (k[i].Temp? && kinds[q][i].Named?);
      }
    }
  }

  /** As `PaddedFlows`, for a function. */
  lemma {:induction false} FlowsOn(f: Function, e: nat, k: Kinds, k': Kinds, q: nat)
    requires NoLocals(f) && Flows(f.kinds, k, q) && |k'| == |k| + e
    requires forall i :: 0 <= i <= f.arity && i < |k| ==> k'[i] == k[i]
    requires forall i :: f.arity < i < |k'| ==> k'[i] == Temp
    ensures Flows(Padded(f, e).kinds, k', q)
  {
    assert OnlyParameters(f.kinds[q], f.arity);
    PaddedFlows(f.kinds, Padded(f, e).kinds, k, k', q, f.arity, e);
  }

  lemma {:induction false} PaddedHere(f: Function, e: nat, p: nat)
    requires NoLocals(f) && p < |f.kinds|
    ensures var k, k' := f.kinds[p], Padded(f, e).kinds[p];
            && OnlyParameters(k, f.arity) && |k'| == |k| + e && OnlyParameters(k', f.arity)
            && (forall i :: 0 <= i <= f.arity ==> k'[i] == k[i])
            && forall i :: f.arity < i < |k'| ==> k'[i] == Temp
  {
    PaddedAt(f.kinds[p], f.arity, e);
  }

  lemma {:induction false} PaddedStep(fns: seq<Function>, f: Function, e: nat, p: nat)
    requires NoLocals(f) && |f.kinds| == |f.code| && p < |f.code| && StepOk(fns, |f.upvalues|, f.code, f.kinds, p)
    ensures StepOk(fns, |f.upvalues|, f.code, Padded(f, e).kinds, p)
  {
    hide Padded, Flows, NoLocals, Takes;
    PaddedHere(f, e, p);
    match f.code[p]
    case Constant(_) => PaddedPush(f, e, p);
    case LoadLocal(_) => PaddedPush(f, e, p);
    case LoadUpvalue(_) => PaddedPush(f, e, p);
    case MakeClosure(g) =>
      PaddedPush(f, e, p);
      PaddedTakes(fns[g], f, e, p);
    case StoreLocal(_) => PaddedSame(f, e, p, p + 1);
    case StoreUpvalue(_) => PaddedSame(f, e, p, p + 1);
    case Pop => PaddedDrop(f, e, p, p + 1);
    case CloseUpvalue => PaddedDrop(f, e, p, p + 1);
    case Jump(t) => PaddedSame(f, e, p, t);
    case JumpIf(t) =>
      PaddedDrop(f, e, p, t);
      PaddedDrop(f, e, p, p + 1);
    case Loop(t) => PaddedSame(f, e, p, t);
    case Call(m) => PaddedCall(f, e, p, m);
    case Return =>
  }

  lemma {:induction false} PaddedPush(f: Function, e: nat, p: nat)
    requires NoLocals(f) && p < |f.kinds| && Flows(f.kinds, f.kinds[p] + [Temp], p + 1)
    ensures Flows(Padded(f, e).kinds, Padded(f, e).kinds[p] + [Temp], p + 1)
  {
    hide Padded, Flows, NoLocals;
    PaddedHere(f, e, p);
    FlowsOn(f, e, f.kinds[p] + [Temp], Padded(f, e).kinds[p] + [Temp], p + 1);
  }

  lemma {:induction false} PaddedSame(f: Function, e: nat, p: nat, q: nat)
    requires NoLocals(f) && p < |f.kinds| && Flows(f.kinds, f.kinds[p], q)
    ensures Flows(Padded(f, e).kinds, Padded(f, e).kinds[p], q)
  {
    hide Padded, Flows, NoLocals;
    PaddedHere(f, e, p);
    FlowsOn(f, e, f.kinds[p], Padded(f, e).kinds[p], q);
  }

  lemma {:induction false} PaddedTakes(g: Function, f: Function, e: nat, p: nat)
    requires NoLocals(f) && p < |f.kinds| && Takes(g, |f.upvalues|, f.kinds[p])
    ensures Takes(g, |f.upvalues|, Padded(f, e).kinds[p])
  {
    PaddedHere(f, e, p);
  }

  lemma {:induction false} PaddedCall(f: Function, e: nat, p: nat, m: nat)
    requires NoLocals(f) && p < |f.kinds| && |f.kinds[p]| >= m + 2 && AllTemps(f.kinds[p], m + 1)
    requires Flows(f.kinds, f.kinds[p][..|f.kinds[p]| - m - 1] + [Temp], p + 1)
    ensures var k' := Padded(f, e).kinds[p];
            && |k'| >= m + 2 && AllTemps(k', m + 1)
            && Flows(Padded(f, e).kinds, k'[..|k'| - m - 1] + [Temp], p + 1)
  {
    var k, k' := f.kinds[p], Padded(f, e).kinds[p];
    hide Padded, Flows, NoLocals;
    PaddedHere(f, e, p);
    var n := |k| - m - 1;
    assert n > f.arity by {
      assert AllTemps(k, m + 1);
      assert k[f.arity].Named?;
    }
    FlowsOn(f, e, k[..n] + [Temp], k'[..n + e] + [Temp], p + 1);
  }

  /** What flows on has the parameters still. */
  lemma {:induction false} StillLong(f: Function, k: Kinds, q: nat)
    requires NoLocals(f) && Flows(f.kinds, k, q)
    ensures |k| > f.arity
  {
    assert OnlyParameters(f.kinds[q], f.arity);
  }

  lemma {:induction false} PaddedDrop(f: Function, e: nat, p: nat, q: nat)
    requires NoLocals(f) && p < |f.kinds| && |f.kinds[p]| >= 2 && Flows(f.kinds, f.kinds[p][..|f.kinds[p]| - 1], q)
    ensures var k' := Padded(f, e).kinds[p];
            && |k'| >= 2 && Flows(Padded(f, e).kinds, k'[..|k'| - 1], q)
            && (f.kinds[p][|f.kinds[p]| - 1].Temp? ==> k'[|k'| - 1].Temp?)
  {
    var k, k' := f.kinds[p], Padded(f, e).kinds[p];
    hide Padded, Flows, NoLocals;
    PaddedHere(f, e, p);
    StillLong(f, k[..|k| - 1], q);
    FlowsOn(f, e, k[..|k| - 1], k'[..|k'| - 1], q);
  }

  lemma {:induction false} PaddedOk(fns: seq<Function>, f: Function, e: nat)
    requires CodeOk(fns, f) && (e > 0 ==> NoLocals(f))
    ensures CodeOk(fns, Padded(f, e))
  {
    if e == 0 {
      return;
    }
    var g := Padded(f, e);
    forall p | 0 <= p < |g.code| ensures StepOk(fns, |g.upvalues|, g.code, g.kinds, p) {
      PaddedStep(fns, f, e, p);
    }
    assert OnlyParameters(f.kinds[0], f.arity);
    PaddedAt(f.kinds[0], f.arity, e);
    forall p, id | 0 <= p < |g.code| ensures !Pops(g.code, g.kinds, p, id) {
      assert OnlyParameters(f.kinds[p], f.arity);
      PaddedAt(f.kinds[p], f.arity, e);
    }
  }

  // ----- The invariant --------------------------------------------------------------------------------------

  /** The function of a frame, as it runs there. */
  function FnOf(fns: seq<Function>, a: Frame): Function
    requires a.fn < |fns|
  {
    Padded(fns[a.fn], a.extra)
  }

  function EndOf(s: State, i: nat): nat
    requires i < |s.frames|
  {
    if i + 1 < |s.frames| then s.frames[i + 1].start else |s.slots|
  }

  function Window(s: State, i: nat): (w: seq<nat>)
    requires i < |s.frames| && s.frames[i].start <= EndOf(s, i) <= |s.slots|
  {
    s.slots[s.frames[i].start..EndOf(s, i)]
  }

  /** A frame is where its function's code allows it to be. */
  ghost predicate FrameOk(fns: seq<Function>, s: State, i: nat)
    requires i < |s.frames|
  {
    var a := s.frames[i];
    && a.fn < |fns| && CodeOk(fns, fns[a.fn]) && (a.extra > 0 ==> NoLocals(fns[a.fn]))
    && a.start < EndOf(s, i) <= |s.slots|
    && |FnOf(fns, a).code| == |FnOf(fns, a).kinds|
    && WindowOk(FnOf(fns, a), a.pc, Window(s, i), s.captured, i + 1 < |s.frames|)
    && |a.upvalues| == |fns[a.fn].upvalues| && Taken(s, a.upvalues)
  }

  ghost predicate InCells(s: State, xs: seq<nat>) {
    forall i :: 0 <= i < |xs| ==> xs[i] < |s.cells|
  }

  /** The variables of upvalues are captured. */
  predicate Taken(s: State, xs: seq<nat>) {
    forall i :: 0 <= i < |xs| ==> xs[i] in s.captured
  }

  ghost predicate FramesOk(fns: seq<Function>, s: State) {
    forall i :: 0 <= i < |s.frames| ==> FrameOk(fns, s, i)
  }

  ghost predicate Different(slots: seq<nat>) {
    forall i, j :: 0 <= i < j < |slots| ==> slots[i] != slots[j]
  }

  ghost predicate ClosureOk(fns: seq<Function>, s: State, c: ClosureObject) {
    c.fn < |fns| && |c.upvalues| == |fns[c.fn].upvalues| && Taken(s, c.upvalues)
  }

  /** Slots are different variables; frames and closures have what they need. */
  ghost predicate Safe(fns: seq<Function>, s: State) {
    && (forall g :: 0 <= g < |fns| ==> CodeOk(fns, fns[g]))
    && s.status != Stuck && (s.status == Running ==> s.frames != [])
    && InCells(s, s.slots) && Different(s.slots) && (forall x :: x in s.captured ==> x < |s.cells|)
    && FramesOk(fns, s) && forall c :: 0 <= c < |s.closures| ==> ClosureOk(fns, s, s.closures[c])
  }

  // ----- The frame that runs --------------------------------------------------------------------------------

  lemma {:induction false} Here(fns: seq<Function>, s: State)
    requires Safe(fns, s) && s.status == Running
    ensures Ready(fns, s)
    ensures var a := Top(s);
            var f := FnOf(fns, a);
            && a.fn < |fns| && CodeOk(fns, f) && a.start < |s.slots| && |f.code| == |f.kinds|
            && f.code == fns[a.fn].code && f.upvalues == fns[a.fn].upvalues && a.pc < |f.code|
            && (a.extra > 0 ==> NoLocals(fns[a.fn]))
            && WindowOk(f, a.pc, s.slots[a.start..], s.captured, false)
            && |a.upvalues| == |f.upvalues| && Taken(s, a.upvalues)
            && StepOk(fns, |f.upvalues|, f.code, f.kinds, a.pc)
  {
    assert FrameOk(fns, s, |s.frames| - 1);
    PaddedOk(fns, fns[Top(s).fn], Top(s).extra);
  }

  lemma {:induction false} StartsRise(fns: seq<Function>, s: State, i: nat, j: nat)
    requires FramesOk(fns, s) && i <= j < |s.frames|
    ensures s.frames[i].start <= s.frames[j].start < |s.slots|
  {
    hide CodeOk, WindowOk, FnOf, Taken, NoLocals;
    assert FrameOk(fns, s, j);
    if i < j {
      StartsRise(fns, s, i, j - 1);
      assert FrameOk(fns, s, j - 1);
    }
  }

  /** The frames below the last stay as they are: their slots do, and no slot of theirs is captured. */
  lemma {:induction false} Lower(fns: seq<Function>, s: State, s': State, i: nat)
    requires FramesOk(fns, s) && s.captured <= s'.captured
    requires i + 1 < |s.frames| && i + 1 < |s'.frames| && s'.frames[i] == s.frames[i]
    requires s'.frames[i + 1].start == s.frames[i + 1].start <= |s'.slots| && s.frames[i + 1].start <= |s.slots|
    requires s'.slots[..s.frames[i + 1].start] == s.slots[..s.frames[i + 1].start]
    requires forall j :: 0 <= j < s.frames[i + 1].start && s.slots[j] in s'.captured ==> s.slots[j] in s.captured
    ensures FrameOk(fns, s', i)
  {
    hide CodeOk, FnOf, NoLocals;
    assert FrameOk(fns, s, i);
    var a, e := s.frames[i], s.frames[i + 1].start;
    var w := Window(s, i);
    assert s'.slots[a.start..e] == s'.slots[..e][a.start..e] == s.slots[..e][a.start..e] == w;
    var f := FnOf(fns, a);
    forall j | 0 <= j < |w| ensures SlotSafe(f, a.pc, w[j], f.kinds[a.pc][j], s'.captured) {
      assert SlotSafe(f, a.pc, w[j], f.kinds[a.pc][j], s.captured);
      assert w[j] == s.slots[a.start + j];
    }
  }

  /** The last frame goes on; the slots of the others stay. */
  lemma {:induction false} TopMoves(fns: seq<Function>, s: State, s': State)
    requires Safe(fns, s) && s.status == Running && |s'.frames| == |s.frames| && s.captured <= s'.captured
    requires s' == Goto(s, s'.frames[|s.frames| - 1].pc).(slots := s'.slots, cells := s'.cells, closures := s'.closures,
                                                         captured := s'.captured)
    requires var a := Top(s);
             && a.start < |s'.slots| && a.start <= |s.slots| && s'.slots[..a.start] == s.slots[..a.start]
             && (forall j :: 0 <= j < a.start && s.slots[j] in s'.captured ==> s.slots[j] in s.captured)
             && a.fn < |fns| && |FnOf(fns, a).code| == |FnOf(fns, a).kinds|
             && WindowOk(FnOf(fns, a), Top(s').pc, s'.slots[a.start..], s'.captured, false)
    ensures FramesOk(fns, s')
  {
    hide CodeOk, WindowOk, Padded, NoLocals;
    var t := |s.frames| - 1;
    var e := s.frames[t].start;
    forall i | 0 <= i < |s'.frames| ensures FrameOk(fns, s', i) {
      assert FrameOk(fns, s, i);
      if i < t {
        StartsRise(fns, s, i + 1, t);
        assert s'.slots[..s.frames[i + 1].start] == s'.slots[..e][..s.frames[i + 1].start];
        assert s.slots[..s.frames[i + 1].start] == s.slots[..e][..s.frames[i + 1].start];
        Lower(fns, s, s', i);
      } else {
        assert Window(s', t) == s'.slots[e..];
        assert FnOf(fns, s'.frames[t]) == FnOf(fns, s.frames[t]);
      }
    }
  }

  lemma {:induction false} ClosuresKept(fns: seq<Function>, s: State, s': State)
    requires Safe(fns, s) && s'.closures == s.closures && s.captured <= s'.captured
    ensures forall c :: 0 <= c < |s'.closures| ==> ClosureOk(fns, s', s'.closures[c])
  {
    forall c | 0 <= c < |s'.closures| ensures ClosureOk(fns, s', s'.closures[c]) {
      assert ClosureOk(fns, s, s.closures[c]);
    }
  }

  // ----- Steps ----------------------------------------------------------------------------------------------

  /** A temporary is pushed. */
  lemma {:induction false} PushSafe(fns: seq<Function>, s: State, v: Value)
    requires Safe(fns, s) && s.status == Running
    requires Top(s).fn < |fns|
    requires var f := FnOf(fns, Top(s));
             Top(s).pc < |f.kinds| && Flows(f.kinds, f.kinds[Top(s).pc] + [Temp], Top(s).pc + 1)
    ensures Safe(fns, Pushed(s, v))
    ensures |s.slots| < Top(s).start + MaxSlots(FnOf(fns, Top(s)).kinds)
  {
    hide CodeOk, WindowOk, StepOk, MaxSlots, Flows, FramesOk, ClosureOk, Padded, NoLocals;
    Here(fns, s);
    var a := Top(s);
    var s' := Pushed(s, v);
    var w := s.slots[a.start..];
    PushWindow(FnOf(fns, a), a.pc, w, s.captured, |s.cells|);
    assert s'.slots[a.start..] == w + [|s.cells|];
    assert s'.slots[..a.start] == s.slots[..a.start];
    TopMoves(fns, s, s');
    ClosuresKept(fns, s, s');
  }

  lemma {:induction false} PushWindow(f: Function, pc: nat, w: seq<nat>, captured: set<nat>, x: nat)
    requires |f.code| == |f.kinds| && WindowOk(f, pc, w, captured, false) && x !in captured
    requires Flows(f.kinds, f.kinds[pc] + [Temp], pc + 1)
    ensures WindowOk(f, pc + 1, w + [x], captured, false) && |w| < MaxSlots(f.kinds)
  {
    var w', k := w + [x], f.kinds[pc] + [Temp];
    forall i | 0 <= i < |w'| ensures SlotSafe(f, pc, w'[i], k[i], captured) {
      assert i < |w| ==> SlotSafe(f, pc, w[i], f.kinds[pc][i], captured);
    }
    Forward(f, pc, k, pc + 1, w', captured);
  }

  /** A variable gets a value; the slots stay. */
  lemma {:induction false} WriteSafe(fns: seq<Function>, s: State, s': State, q: nat)
    requires Safe(fns, s) && s.status == Running && |s'.cells| == |s.cells| && s' == Goto(s, q).(cells := s'.cells)
    requires Top(s).fn < |fns|
    requires var f := FnOf(fns, Top(s));
             Top(s).pc < |f.kinds| && Top(s).pc < q && Flows(f.kinds, f.kinds[Top(s).pc], q)
    ensures Safe(fns, s')
  {
    hide CodeOk, StepOk, MaxSlots, FramesOk, ClosureOk, Padded, NoLocals;
    Here(fns, s);
    var a := Top(s);
    var f, w := FnOf(fns, a), s.slots[a.start..];
    Forward(f, a.pc, f.kinds[a.pc], q, w, s.captured);
    TopMoves(fns, s, s');
    ClosuresKept(fns, s, s');
  }

  /** The last slot is given up. */
  lemma {:induction false} DropSafe(fns: seq<Function>, s: State, q: nat)
    requires Safe(fns, s) && s.status == Running && s.slots != []
    requires Top(s).fn < |fns|
    requires var f := FnOf(fns, Top(s));
             && Top(s).pc < |f.kinds| && Top(s).pc < q && |f.kinds[Top(s).pc]| >= 2
             && Flows(f.kinds, f.kinds[Top(s).pc][..|f.kinds[Top(s).pc]| - 1], q)
    ensures Safe(fns, Dropped(s, q)) && Top(s).start + 1 < |s.slots|
  {
    hide CodeOk, StepOk, MaxSlots, FramesOk, ClosureOk, Padded, NoLocals;
    Here(fns, s);
    var a := Top(s);
    var f, w := FnOf(fns, a), s.slots[a.start..];
    var k := f.kinds[a.pc];
    var w' := w[..|w| - 1];
    forall i | 0 <= i < |w'| ensures SlotSafe(f, a.pc, w'[i], k[..|k| - 1][i], s.captured) {
      assert SlotSafe(f, a.pc, w[i], k[i], s.captured);
    }
    Forward(f, a.pc, k[..|k| - 1], q, w', s.captured);
    var s' := Dropped(s, q);
    assert s'.slots[a.start..] == w';
    assert s'.slots[..a.start] == s.slots[..a.start];
    TopMoves(fns, s, s');
    ClosuresKept(fns, s, s');
  }

  lemma {:induction false} LoopSafe(fns: seq<Function>, s: State)
    requires Safe(fns, s) && s.status == Running && Ready(fns, s) && Next(fns, s).Loop?
    ensures Safe(fns, Goto(s, Next(fns, s).target))
  {
    hide CodeOk, MaxSlots, FramesOk, ClosureOk, Padded, NoLocals, WindowOk, Flows, LoopsOk;
    Here(fns, s);
    var a := Top(s);
    var f := FnOf(fns, a);
    assert LoopsOk(f.code, f.kinds) by {
      LoopsAre(fns, f);
    }
    Backward(f, a.pc, s.slots[a.start..], s.captured);
    var s' := Goto(s, Next(fns, s).target);
    TopMoves(fns, s, s');
    ClosuresKept(fns, s, s');
  }

  lemma {:induction false} LoopsAre(fns: seq<Function>, f: Function)
    requires CodeOk(fns, f)
    ensures LoopsOk(f.code, f.kinds)
  {
  }

  /** A plain pop, and a jump's test, give up a variable that no closure has. */
  lemma {:induction false} PopIsSafe(fns: seq<Function>, s: State)
    requires Safe(fns, s) && s.status == Running && Ready(fns, s) && (Next(fns, s).Pop? || Next(fns, s).JumpIf?)
    ensures s.slots != [] && s.slots[|s.slots| - 1] !in s.captured
  {
    hide CodeOk, MaxSlots, FramesOk, ClosureOk, Padded, NoLocals;
    Here(fns, s);
    var a := Top(s);
    var f, w := FnOf(fns, a), s.slots[a.start..];
    if Next(fns, s).Pop? {
      PopSafe(f, a.pc, w, s.captured);
    } else {
      assert SlotSafe(f, a.pc, w[|w| - 1], f.kinds[a.pc][|w| - 1], s.captured);
    }
  }

  // ----- Closures are made ----------------------------------------------------------------------------------

  /** The variables of slots that a closure captures have been captured. */
  lemma {:induction false} CapturesSafe(fns: seq<Function>, s: State)
    requires Safe(fns, s) && s.status == Running && Ready(fns, s) && Next(fns, s).MakeClosure?
    requires Next(fns, s).fn < |fns|
    ensures var xs := CapturedAll(s, fns[Next(fns, s).fn].upvalues);
            Safe(fns, s.(captured := s.captured + Elements(xs)))
  {
    hide CodeOk, MaxSlots, FramesOk, ClosureOk, Padded, NoLocals, WindowOk, Flows;
    Here(fns, s);
    var a := Top(s);
    var f, w := FnOf(fns, a), s.slots[a.start..];
    var g := fns[Next(fns, s).fn];
    var xs := CapturedAll(s, g.upvalues);
    var s' := s.(captured := s.captured + Elements(xs));
    CaptureFits(fns, s, g, f);
    forall i, j | 0 <= i < j < |w| ensures w[i] != w[j] {
      assert s.slots[a.start + i] != s.slots[a.start + j];
    }
    CaptureSafe(fns, f, a.pc, w, s.captured, s'.captured);
    forall j | 0 <= j < a.start && s.slots[j] in s'.captured ensures s.slots[j] in s.captured {
      forall i | 0 <= i < |w| ensures w[i] != s.slots[j] {
        assert s.slots[a.start + i] != s.slots[j];
      }
    }
    assert Goto(s, a.pc) == s;
    TopMoves(fns, s, s');
    ClosuresKept(fns, s, s');
  }

  /** What a closure of `g` captures is there. */
  lemma {:induction false} CaptureFits(fns: seq<Function>, s: State, g: Function, f: Function)
    requires Safe(fns, s) && s.status == Running && Ready(fns, s) && Next(fns, s).MakeClosure?
    requires Next(fns, s).fn < |fns| && g == fns[Next(fns, s).fn] && f == FnOf(fns, Top(s))
    ensures forall u :: 0 <= u < |g.upvalues| ==>
              (if g.upvalues[u].isLocal then SlotVar(s, g.upvalues[u].index)
               else UpvalueVar(s, g.upvalues[u].index)).Some?
    ensures InCells(s, CapturedAll(s, g.upvalues)) && Top(s).start <= |s.slots|
    ensures forall x :: x in CapturedAll(s, g.upvalues) && x !in s.captured ==>
              CapturedBy(g.upvalues, s.slots[Top(s).start..], x)
  {
    hide Safe, Padded, CodeOk;
    Here(fns, s);
    assert InCells(s, s.slots) && forall x :: x in s.captured ==> x < |s.cells| by {
      InCellsHere(fns, s);
    }
    var es := g.upvalues;
    var w := s.slots[Top(s).start..];
    forall u | 0 <= u < |es|
      ensures (if es[u].isLocal then SlotVar(s, es[u].index) else UpvalueVar(s, es[u].index)).Some?
      ensures Captured(s, es[u]) < |s.cells|
      ensures Captured(s, es[u]) !in s.captured ==> CapturedNow(es[u], w, Captured(s, es[u]))
    {
      if es[u].isLocal {
        assert w[es[u].index] == s.slots[Top(s).start + es[u].index];
      } else {
        assert Top(s).upvalues[es[u].index] in s.captured;
      }
    }
  }

  lemma {:induction false} InCellsHere(fns: seq<Function>, s: State)
    requires Safe(fns, s)
    ensures InCells(s, s.slots) && forall x :: x in s.captured ==> x < |s.cells|
  {
  }

  /** There is room for the closure. */
  lemma {:induction false} RoomToMake(fns: seq<Function>, s: State)
    requires Safe(fns, s) && s.status == Running && Ready(fns, s) && Next(fns, s).MakeClosure?
    ensures Next(fns, s).fn < |fns| && Top(s).fn < |fns| && !Shifts(fns, s)
    ensures |s.slots| < Top(s).start + MaxSlots(FnOf(fns, Top(s)).kinds)
  {
    hide CodeOk, MaxSlots, Flows, WindowOk, Padded, Safe;
    Here(fns, s);
    PushSafe(fns, s, Null);
  }

  /** A call's function has some slots besides those of the call. */
  lemma {:induction false} CallHasSlots(fns: seq<Function>, s: State)
    requires Safe(fns, s) && s.status == Running && Ready(fns, s) && Next(fns, s).Call?
    ensures Top(s).start + Next(fns, s).numArgs + 1 < |s.slots|
  {
    hide CodeOk, Padded, Safe;
    Here(fns, s);
  }

  lemma {:induction false} MadeSafe(fns: seq<Function>, s: State)
    requires Safe(fns, s) && s.status == Running && Ready(fns, s) && Next(fns, s).MakeClosure?
    ensures Safe(fns, Made(fns, s, Next(fns, s).fn))
  {
    hide CodeOk, MaxSlots, FramesOk, ClosureOk, Padded, NoLocals, WindowOk, Flows;
    Here(fns, s);
    var f := Next(fns, s).fn;
    var xs := CapturedAll(s, fns[f].upvalues);
    var s1 := s.(captured := s.captured + Elements(xs));
    CapturesSafe(fns, s);
    PushSafe(fns, s1, Closure(|s.closures|));
    var s2 := Pushed(s1, Closure(|s.closures|));
    var c := ClosureObject(f, xs);
    var s3 := s2.(closures := s.closures + [c]);
    assert ClosureOk(fns, s3, c) by {
      MadeFits(fns, s3, f, xs);
    }
    OneMoreClosure(fns, s2, c);
    assert s3 == Made(fns, s, f);
  }

  lemma {:induction false} MadeFits(fns: seq<Function>, s: State, f: nat, xs: seq<nat>)
    requires f < |fns| && |xs| == |fns[f].upvalues| && Elements(xs) <= s.captured
    ensures ClosureOk(fns, s, ClosureObject(f, xs))
  {
  }

  lemma {:induction false} OneMoreClosure(fns: seq<Function>, s: State, c: ClosureObject)
    requires Safe(fns, s) && ClosureOk(fns, s.(closures := s.closures + [c]), c)
    ensures Safe(fns, s.(closures := s.closures + [c]))
  {
    hide CodeOk, NoLocals, Padded, WindowOk;
    var s' := s.(closures := s.closures + [c]);
    forall i | 0 <= i < |s'.frames| ensures FrameOk(fns, s', i) {
      assert FrameOk(fns, s, i);
      assert EndOf(s', i) == EndOf(s, i) && Window(s', i) == Window(s, i);
    }
    forall i | 0 <= i < |s'.closures| ensures ClosureOk(fns, s', s'.closures[i]) {
      if i < |s.closures| {
        assert ClosureOk(fns, s, s.closures[i]);
      }
    }
  }

  // ----- Calls and returns ----------------------------------------------------------------------------------

  /** A function is called that has as many parameters as there are arguments, or no locals. */
  lemma {:induction false} CallSafe(fns: seq<Function>, s: State)
    requires Safe(fns, s) && s.status == Running && Ready(fns, s) && Next(fns, s).Call? && !Shifts(fns, s)
    ensures Safe(fns, Called(fns, s, Next(fns, s).numArgs))
  {
    hide CodeOk, MaxSlots, FramesOk, ClosureOk, Padded, NoLocals, WindowOk, Flows, Taken;
    Here(fns, s);
    var m := Next(fns, s).numArgs;
    var c := Callee(fns, s, m);
    if c.None? {
      FailSafe(fns, s);
      return;
    }
    var s' := Called(fns, s, m);
    var t := |s.frames| - 1;
    var b := s'.frames[t + 1];
    CalleeOk(fns, s, m);
    CallFrames(fns, s, m);
  }

  lemma {:induction false} FailSafe(fns: seq<Function>, s: State)
    requires Safe(fns, s) && s.status == Running
    ensures Safe(fns, s.(status := Failed))
  {
    hide CodeOk, NoLocals, Padded, WindowOk;
    var s' := s.(status := Failed);
    forall i | 0 <= i < |s'.frames| ensures FrameOk(fns, s', i) {
      assert FrameOk(fns, s, i);
      assert EndOf(s', i) == EndOf(s, i) && Window(s', i) == Window(s, i);
    }
    ClosuresKept(fns, s, s');
  }

  lemma {:induction false} CalleeOk(fns: seq<Function>, s: State, m: nat)
    requires Safe(fns, s) && Callee(fns, s, m).Some?
    ensures var c := Callee(fns, s, m).value;
            c.fn < |fns| && ClosureOk(fns, s, c) && fns[c.fn].arity <= m < |s.slots| && CodeOk(fns, fns[c.fn])
  {
  }

  lemma {:induction false} CallFrames(fns: seq<Function>, s: State, m: nat)
    requires Safe(fns, s) && s.status == Running && Ready(fns, s) && Next(fns, s) == Call(m) && !Shifts(fns, s)
    requires Callee(fns, s, m).Some?
    ensures Safe(fns, Called(fns, s, m))
  {
    hide CodeOk, MaxSlots, Padded, NoLocals, WindowOk, Flows, StepOk, Safe, FrameOk, Shifts;
    Here(fns, s);
    CalleeOk(fns, s, m);
    FramesHere(fns, s);
    var s' := Called(fns, s, m);
    var t := |s.frames| - 1;
    assert |s'.frames| == t + 2;
    TopFrames(fns, s, m);
    forall i | 0 <= i < |s'.frames| ensures FrameOk(fns, s', i) {
      if i < t {
        StartsRise(fns, s, i + 1, t);
        CallBelow(fns, s, m, i);
      }
    }
    CalledSafe(fns, s, m);
  }

  /** The frames below the caller's. */
  lemma {:induction false} CallBelow(fns: seq<Function>, s: State, m: nat, i: nat)
    requires FramesOk(fns, s) && s.frames != [] && Callee(fns, s, m).Some? && i + 1 < |s.frames|
    requires Callee(fns, s, m).value.fn < |fns| && fns[Callee(fns, s, m).value.fn].arity <= m < |s.slots|
    requires s.frames[i + 1].start < |s.slots|
    ensures FrameOk(fns, Called(fns, s, m), i)
  {
    hide CodeOk, Padded, NoLocals, WindowOk, FrameOk, FramesOk, Callee;
    Lower(fns, s, Called(fns, s, m), i);
  }

  /** The caller's frame waits; the new one begins. */
  lemma {:induction false} TopFrames(fns: seq<Function>, s: State, m: nat)
    requires Safe(fns, s) && s.status == Running && Ready(fns, s) && Next(fns, s) == Call(m) && !Shifts(fns, s)
    requires Callee(fns, s, m).Some?
    ensures var s', t := Called(fns, s, m), |s.frames| - 1;
            t + 2 == |s'.frames| && FrameOk(fns, s', t) && FrameOk(fns, s', t + 1)
  {
    hide CodeOk, MaxSlots, Padded, NoLocals, WindowOk, Flows, StepOk, Safe;
    Here(fns, s);
    CalleeOk(fns, s, m);
    var c := Callee(fns, s, m).value;
    var s' := Called(fns, s, m);
    var t := |s.frames| - 1;
    var a, b := s.frames[t], s'.frames[t + 1];
    var w := s.slots[a.start..];
    PaddedOk(fns, fns[c.fn], b.extra);
    CallWindows(fns, FnOf(fns, a), FnOf(fns, b), a.pc, m, w, s.captured);
    assert Window(s', t) == w[..|w| - m - 1] && Window(s', t + 1) == w[|w| - m - 1..];
    assert FnOf(fns, s'.frames[t]) == FnOf(fns, a);
    assert FrameOk(fns, s, t) by {
      FramesHere(fns, s);
    }
  }

  lemma {:induction false} FramesHere(fns: seq<Function>, s: State)
    requires Safe(fns, s)
    ensures FramesOk(fns, s)
  {
  }

  lemma {:induction false} CalledSafe(fns: seq<Function>, s: State, m: nat)
    requires Safe(fns, s) && s.status == Running && Ready(fns, s) && Callee(fns, s, m).Some?
    requires FramesOk(fns, Called(fns, s, m))
    ensures Safe(fns, Called(fns, s, m))
  {
    hide FramesOk, CodeOk;
    ClosuresKept(fns, s, Called(fns, s, m));
  }

  /** The slots of a call: those of the caller, which waits for the result, and those of the function called. */
  lemma {:induction false} CallWindows(fns: seq<Function>, f: Function, g: Function, pc: nat, m: nat, w: seq<nat>,
                                       captured: set<nat>)
    requires |f.code| == |f.kinds| && CodeOk(fns, g) && g.arity == m && WindowOk(f, pc, w, captured, false)
    requires f.code[pc] == Call(m) && StepOk(fns, |f.upvalues|, f.code, f.kinds, pc)
    ensures |w| > m + 1
    ensures WindowOk(f, pc + 1, w[..|w| - m - 1], captured, true)
    ensures WindowOk(g, 0, w[|w| - m - 1..], captured, false)
  {
    var k := f.kinds[pc];
    var n := |w| - m - 1;
    var low, high := w[..n], w[n..];
    forall j | 0 <= j < |low| ensures SlotSafe(f, pc + 1, low[j], f.kinds[pc + 1][j], captured) {
      assert SlotSafe(f, pc, w[j], k[j], captured);
      assert k[j] == (k[..n] + [Temp])[j];
    }
    forall j | 0 <= j < |high| ensures SlotSafe(g, 0, high[j], g.kinds[0][j], captured) {
      assert high[j] == w[n + j];
      assert SlotSafe(f, pc, w[n + j], k[n + j], captured);
    }
  }

  /** A function returns: the result takes the place of its slots. */
  lemma {:induction false} ReturnSafe(fns: seq<Function>, s: State)
    requires Safe(fns, s) && s.status == Running
    ensures s.slots != [] && Top(s).start < |s.slots| && Safe(fns, Returned(s))
  {
    hide CodeOk, MaxSlots, StepOk, WindowOk, Padded, NoLocals, ClosureOk, FrameOk;
    Here(fns, s);
    var t := |s.frames| - 1;
    var s' := Returned(s);
    forall i | 0 <= i < t ensures FrameOk(fns, s', i) {
      StartsRise(fns, s, i + 1, t);
      if i + 1 < t {
        ReturnBelow(fns, s, i);
      } else {
        ReturnTo(fns, s);
      }
    }
    ClosuresKept(fns, s, s');
  }

  /** The frames below the caller's. */
  lemma {:induction false} ReturnBelow(fns: seq<Function>, s: State, i: nat)
    requires FramesOk(fns, s) && i + 2 < |s.frames| && s.slots != []
    requires s.frames[i + 1].start <= Top(s).start < |s.slots|
    ensures FrameOk(fns, Returned(s), i)
  {
    hide CodeOk, Padded, NoLocals, WindowOk, FrameOk, FramesOk;
    var s' := Returned(s);
    var b, e := s.frames[i + 1].start, Top(s).start;
    assert s'.slots[..b] == s.slots[..b];
    Lower(fns, s, s', i);
  }

  /** The caller's frame gets the result. */
  lemma {:induction false} ReturnTo(fns: seq<Function>, s: State)
    requires FramesOk(fns, s) && |s.frames| >= 2 && s.slots != [] && Top(s).start < |s.slots|
    requires forall x :: x in s.captured ==> x < |s.cells|
    ensures FrameOk(fns, Returned(s), |s.frames| - 2)
  {
    hide CodeOk, Padded, NoLocals, WindowOk;
    var s', i := Returned(s), |s.frames| - 2;
    assert FrameOk(fns, s, i);
    var w := Window(s, i);
    ResultArrives(FnOf(fns, s.frames[i]), s.frames[i].pc, w, s.captured, |s.cells|);
    assert Window(s', i) == w + [|s.cells|];
    assert s'.frames[i] == s.frames[i] && EndOf(s', i) == |s'.slots|;
  }

  lemma {:induction false} ResultArrives(f: Function, pc: nat, w: seq<nat>, captured: set<nat>, x: nat)
    requires |f.code| == |f.kinds| && WindowOk(f, pc, w, captured, true) && x !in captured
    ensures WindowOk(f, pc, w + [x], captured, false)
  {
    var w' := w + [x];
    forall j | 0 <= j < |w'| ensures SlotSafe(f, pc, w'[j], f.kinds[pc][j], captured) {
      assert j < |w| ==> SlotSafe(f, pc, w[j], f.kinds[pc][j], captured);
    }
  }

  // ----- Runs -----------------------------------------------------------------------------------------------

  /** Every step keeps a safe state safe, unless it calls a function that has locals with too many arguments. */
  lemma {:induction false} StepSafe(fns: seq<Function>, s: State)
    requires Safe(fns, s) && !Shifts(fns, s)
    ensures Safe(fns, Step(fns, s))
  {
    hide CodeOk, MaxSlots, FramesOk, ClosureOk, Padded, NoLocals, WindowOk, Flows, Safe, Shifts, Taken, Pushed,
         Dropped, Written, Goto, Made, Called, Returned, FnOf;
    if s.status != Running {
      return;
    }
    Here(fns, s);
    var a := Top(s);
    match Next(fns, s)
    case Constant(v) => PushSafe(fns, s, v);
    case LoadLocal(i) =>
      SlotThere(fns, s, i);
      PushSafe(fns, s, ValueOf(s, SlotVar(s, i).value));
    case StoreLocal(i) =>
      SlotThere(fns, s, i);
      StoreSafe(fns, s, SlotVar(s, i).value);
    case LoadUpvalue(u) =>
      PushSafe(fns, s, ValueOf(s, UpvalueVar(s, u).value));
    case StoreUpvalue(u) =>
      UpvalueThere(fns, s, u);
      StoreSafe(fns, s, UpvalueVar(s, u).value);
    case MakeClosure(_) => MadeSafe(fns, s);
    case Pop => DropSafe(fns, s, a.pc + 1);
    case CloseUpvalue => DropSafe(fns, s, a.pc + 1);
    case Jump(t) => JumpSafe(fns, s, t);
    case JumpIf(t) => DropSafe(fns, s, if Falsy(LastValue(s)) then t else a.pc + 1);
    case Loop(_) => LoopSafe(fns, s);
    case Call(_) => CallSafe(fns, s);
    case Return => ReturnSafe(fns, s);
  }

  lemma {:induction false} StoreSafe(fns: seq<Function>, s: State, x: nat)
    requires Safe(fns, s) && s.status == Running && Ready(fns, s)
             && (Next(fns, s).StoreLocal? || Next(fns, s).StoreUpvalue?)
    requires x < |s.cells|
    ensures Safe(fns, Written(s, Some(x)))
  {
    hide CodeOk, MaxSlots, Flows, WindowOk, Padded, Safe;
    Here(fns, s);
    WriteSafe(fns, s, Written(s, Some(x)), Top(s).pc + 1);
  }

  lemma {:induction false} JumpSafe(fns: seq<Function>, s: State, t: nat)
    requires Safe(fns, s) && s.status == Running && Ready(fns, s) && Next(fns, s) == Jump(t)
    ensures Safe(fns, Goto(s, t))
  {
    hide CodeOk, MaxSlots, Flows, WindowOk, Padded, Safe;
    Here(fns, s);
    WriteSafe(fns, s, Goto(s, t), t);
  }

  lemma {:induction false} SlotThere(fns: seq<Function>, s: State, i: nat)
    requires Safe(fns, s) && s.status == Running && Ready(fns, s)
    requires Next(fns, s) == LoadLocal(i) || Next(fns, s) == StoreLocal(i)
    ensures SlotVar(s, i).Some? && SlotVar(s, i).value < |s.cells|
  {
    hide CodeOk, Padded;
    Here(fns, s);
  }

  lemma {:induction false} UpvalueThere(fns: seq<Function>, s: State, u: nat)
    requires Safe(fns, s) && s.status == Running && Ready(fns, s)
    requires Next(fns, s) == LoadUpvalue(u) || Next(fns, s) == StoreUpvalue(u)
    ensures UpvalueVar(s, u).Some? && UpvalueVar(s, u).value < |s.cells|
  {
    hide CodeOk, Padded;
    Here(fns, s);
  }

  /** The beginning of a program. */
  lemma {:induction false} StartSafe(fns: seq<Function>, main: nat)
    requires ProgramOk(fns) && main < |fns| && fns[main].arity == 0 && fns[main].upvalues == []
    ensures Safe(fns, Start(main))
  {
    forall g | 0 <= g < |fns| ensures CodeOk(fns, fns[g]) {
      CanRun(fns, fns[g]);
    }
    hide FunctionOk, NoLocals, ProgramOk;
    var s := Start(main);
    assert Window(s, 0) == [0];
    assert FrameOk(fns, s, 0);
  }

  /** Every state of every run, up to the first call of a function that has locals with too many arguments. */
  lemma {:induction false} RunSafe(fns: seq<Function>, s: State, n: nat)
    requires Safe(fns, s) && Clean(fns, s, n)
    ensures Safe(fns, Run(fns, s, n))
  {
    hide Safe, Shifts;
    if n > 0 {
      RunSafe(fns, s, n - 1);
      OneMore(fns, s, n - 1);
      StepSafe(fns, Run(fns, s, n - 1));
    }
  }
}

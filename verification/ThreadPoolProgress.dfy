/** The thread pool does not run for ever on its own, and so finishes every request. */
module ThreadPoolProgress {
  import opened Wrappers
  import opened ThreadPool
  import opened ThreadPoolInvariant
  import opened ThreadPoolSafety

  // ----- A measure --------------------------------------------------------------------------------------------

  /** How many steps a loop may still take for one readable descriptor: seven for each handle. */
  function Scan(loop: Loop): nat {
    7 * (|loop.handles| + |Todo(loop.stage)|) + 3
  }

  /** What a step's cost depends on and no step changes: the scans of the loops, and the loops of the
      requests. */
  datatype Costs = Costs(scans: seq<nat>, loops: seq<nat>)

  function CostsOf(s: State): Costs {
    Costs(seq(|s.loops|, l requires 0 <= l < |s.loops| => Scan(s.loops[l])),
          seq(|s.reqs|, r requires 0 <= r < |s.reqs| => s.reqs[r].loop))
  }

  function ScanOf(c: Costs, l: nat): nat {
    if l < |c.scans| then c.scans[l] else 0
  }

  function ScanFor(c: Costs, r: nat): nat {
    if r < |c.loops| then ScanOf(c, c.loops[r]) else 0
  }

  function SeekWeight(step: SeekStep): nat {
    match step
    case Enter => 12 case Test => 11 case Waiting => 10 case Woken => 12 case Take => 10 case Exit => 1 case Exited => 0
  }

  function WorkWeight(step: WorkStep): nat {
    match step
    case Leave => 24 case Start => 23 case Running => 22 case TakeQueue => 21 case Clear => 20 case Deliver => 19
    case GiveQueue => 13
  }

  function CancelWeight(step: CancelStep): nat {
    match step
    case TakePool => 14 case TakeLoop => 13 case Decide => 12 case GiveLoop => 11 case GivePool => 10 case Mark => 9
    case Retake => 8 case Complete => 7 case Return => 1
  }

  function ItemWeight(c: Costs, item: Item): nat {
    if item.Job? then ScanFor(c, item.r) + 15 else 0
  }

  /** The steps a thread may still cause, counting what it wakes up. */
  function Weight(c: Costs, pc: Pc): nat {
    match pc
    case Resting => 0
    case Sending(step, l, _, k) =>
      ScanOf(c, l) + (if step.Check? then 3 else if step.Swap? then 2 else 1) + AfterWeight(c, k)
    case Posting(step, item) =>
      if step.UnlockPool? then 1 else if step.Signal? then 4
      else ItemWeight(c, item) + if step.Append? then 5 else 6
    case Cancelling(step, r, _) => (if step.Return? then 0 else ScanFor(c, r)) + CancelWeight(step)
    case Seeking(step) => SeekWeight(step)
    case Working(step, r) => (if step.GiveQueue? then 0 else ScanFor(c, r)) + WorkWeight(step)
  }

  function AfterWeight(c: Costs, k: After): nat {
    match k
    case ThenUnlock(_) => 13
    case ThenReturn(_) => 1
    case ThenRun(r) => ScanFor(c, r) + 22
    case ThenRest => 0
  }

  function StageWeight(stage: Stage): nat {
    match stage
    case Polling => 0
    case Reading => 0
    case Scanning(todo) => 7 * |todo| + 1
    case InCallback(todo) => 7 * |todo| + 2
    case DrainLock(todo) => 7 * |todo| + 7
    case DrainMove(todo) => 7 * |todo| + 6
    case DrainUnlock(todo) => 7 * |todo| + 5
    case Draining(todo) => 7 * |todo| + 4
    case InDone(todo) => 7 * |todo| + 5
  }

  function LoopWeight(loop: Loop): nat {
    (if loop.stage.Reading? then Scan(loop) - 1 else if loop.readable then Scan(loop) else 0)
    + StageWeight(loop.stage) + 2 * (|loop.wq| + |loop.local|)
  }

  function Threads(c: Costs, q: seq<Thread>): nat {
    if q == [] then 0 else Threads(c, q[..|q| - 1]) + Weight(c, q[|q| - 1].pc)
  }

  function Loops(q: seq<Loop>): nat {
    if q == [] then 0 else Loops(q[..|q| - 1]) + LoopWeight(q[|q| - 1])
  }

  function Items(c: Costs, q: seq<Item>): nat {
    if q == [] then 0 else ItemWeight(c, q[0]) + Items(c, q[1..])
  }

  /** The steps the whole pool may still take on its own. */
  function Remaining(s: State): nat {
    Threads(CostsOf(s), s.threads) + Loops(s.loops) + Items(CostsOf(s), s.wq)
  }

  // ----- Sums ---------------------------------------------------------------------------------------------------

  lemma {:induction false} ThreadsUpdate(c: Costs, q: seq<Thread>, t: nat, th: Thread)
    requires t < |q|
    ensures Threads(c, q[t := th]) == Threads(c, q) - Weight(c, q[t].pc) + Weight(c, th.pc)
    decreases |q|
  {
    hide Weight;
    var q' := q[t := th];
    if t == |q| - 1 {
      assert q'[..|q| - 1] == q[..|q| - 1];
    } else {
      assert q'[..|q| - 1] == q[..|q| - 1][t := th];
      ThreadsUpdate(c, q[..|q| - 1], t, th);
    }
  }

  lemma {:induction false} LoopsUpdate(q: seq<Loop>, l: nat, loop: Loop)
    requires l < |q|
    ensures Loops(q[l := loop]) == Loops(q) - LoopWeight(q[l]) + LoopWeight(loop)
    decreases |q|
  {
    hide LoopWeight;
    var q' := q[l := loop];
    if l == |q| - 1 {
      assert q'[..|q| - 1] == q[..|q| - 1];
    } else {
      assert q'[..|q| - 1] == q[..|q| - 1][l := loop];
      LoopsUpdate(q[..|q| - 1], l, loop);
    }
  }

  lemma {:induction false} ItemsAppend(c: Costs, q: seq<Item>, item: Item)
    ensures Items(c, q + [item]) == Items(c, q) + ItemWeight(c, item)
  {
    hide ItemWeight;
    if q == [] {
      assert [item][1..] == [];
    } else {
      assert (q + [item])[1..] == q[1..] + [item];
      ItemsAppend(c, q[1..], item);
    }
  }

  lemma {:induction false} ItemsWithout(c: Costs, q: seq<Item>, item: Item)
    ensures Items(c, Without(q, item)) <= Items(c, q)
  {
    hide ItemWeight;
    if q != [] {
      ItemsWithout(c, q[1..], item);
      var rest := Without(q[1..], item);
      assert ([q[0]] + rest)[1..] == rest;
    }
  }

  lemma {:induction false} WithoutShorter<T>(q: seq<T>, x: T)
    ensures |Without(q, x)| <= |q|
  {
    if q != [] {
      WithoutShorter(q[1..], x);
    }
  }

  /** What a step that changes one thread, one loop and the queue does to the measure. */
  lemma {:induction false} OneChange(s: State, s': State, t: nat, l: nat)
    requires t < |s.threads| && l < |s.loops| && CostsOf(s') == CostsOf(s)
    requires |s'.threads| == |s.threads| && s'.threads == s.threads[t := s'.threads[t]]
    requires |s'.loops| == |s.loops| && s'.loops == s.loops[l := s'.loops[l]]
    ensures var c := CostsOf(s);
            Remaining(s') == Remaining(s) - Weight(c, s.threads[t].pc) + Weight(c, s'.threads[t].pc)
                             - LoopWeight(s.loops[l]) + LoopWeight(s'.loops[l]) - Items(c, s.wq) + Items(c, s'.wq)
  {
    hide Weight, LoopWeight, CostsOf, Items;
    ThreadsUpdate(CostsOf(s), s.threads, t, s'.threads[t]);
    LoopsUpdate(s.loops, l, s'.loops[l]);
  }

  lemma {:induction false} NoLoopChange(s: State, s': State, t: nat)
    requires t < |s.threads| && CostsOf(s') == CostsOf(s) && s'.loops == s.loops
    requires |s'.threads| == |s.threads| && s'.threads == s.threads[t := s'.threads[t]]
    ensures var c := CostsOf(s);
            Remaining(s') == Remaining(s) - Weight(c, s.threads[t].pc) + Weight(c, s'.threads[t].pc)
                             - Items(c, s.wq) + Items(c, s'.wq)
  {
    hide Weight, CostsOf, Items;
    ThreadsUpdate(CostsOf(s), s.threads, t, s'.threads[t]);
  }

  lemma {:induction false} CostsAt(s: State)
    ensures forall l :: 0 <= l < |s.loops| ==> ScanOf(CostsOf(s), l) == Scan(s.loops[l])
    ensures forall r :: 0 <= r < |s.reqs| ==> ScanFor(CostsOf(s), r) == ScanOf(CostsOf(s), s.reqs[r].loop)
  {
  }

  /** Steps do not change how long a scan is, nor the loops of requests. */
  lemma {:induction false} SameCosts(s: State, s': State)
    requires |s'.loops| == |s.loops| && |s'.reqs| == |s.reqs|
    requires forall l :: 0 <= l < |s.loops| ==> Scan(s'.loops[l]) == Scan(s.loops[l])
    requires forall r :: 0 <= r < |s.reqs| ==> s'.reqs[r].loop == s.reqs[r].loop
    ensures CostsOf(s') == CostsOf(s)
  {
    hide Scan;
  }

  // ----- Every step uses the measure up -------------------------------------------------------------------------

  lemma {:induction false} SendLess(s: State, t: nat)
    requires Sends(s, t)
    ensures Remaining(StepSend(s, t)) < Remaining(s)
  {
    hide Remaining, Scan, ScanFor, CostsOf;
    var s', l := StepSend(s, t), s.threads[t].pc.l;
    assert forall l' :: 0 <= l' < |s.loops| ==>
             Todo(s'.loops[l'].stage) == Todo(s.loops[l'].stage) && s'.loops[l'].handles == s.loops[l'].handles;
    SendScan(s, t);
    SameCosts(s, s');
    CostsAt(s);
    OneChange(s, s', t, l);
  }

  lemma {:induction false} SendScan(s: State, t: nat)
    requires Sends(s, t)
    ensures var s' := StepSend(s, t);
            |s'.loops| == |s.loops| && forall l' :: 0 <= l' < |s.loops| ==> Scan(s'.loops[l']) == Scan(s.loops[l'])
  {
  }

  lemma {:induction false} WakeLess(s: State, w: nat)
    ensures Remaining(Wake(s, w)) <= Remaining(s) + 2
  {
    hide Scan, ScanFor, CostsOf, Remaining;
    var s' := Wake(s, w);
    if s' != s {
      SameCosts(s, s');
      NoLoopChange(s, s', w);
    }
  }

  lemma {:induction false} PostLess(s: State, t: nat, w: nat)
    requires Posts(s, t)
    ensures Remaining(StepPost(s, t, w)) < Remaining(s)
  {
    hide Scan, ScanFor, CostsOf, Remaining;
    var s1 := if s.threads[t].pc.post.Signal? then Signalled(s, w) else s;
    var s' := StepPost(s, t, w);
    SamePost(s, s1, t, w);
    WakeLess(s, w);
    SameCosts(s1, s');
    NoLoopChange(s1, s', t);
    ItemsAppend(CostsOf(s1), s1.wq, s1.threads[t].pc.item);
  }

  lemma {:induction false} SeekLess(s: State, t: nat, w: nat)
    requires Seeks(s, t)
    ensures Remaining(StepSeek(s, t, w)) < Remaining(s)
  {
    hide Scan, ScanFor, CostsOf, Remaining;
    var s1 := if s.threads[t].pc.seek.Take? && s.wq[0] == ExitMessage then Wake(s, w) else s;
    var s' := StepSeek(s, t, w);
    SameSeek(s, s1, t, w);
    WakeLess(s, w);
    SameCosts(s1, s');
    NoLoopChange(s1, s', t);
  }

  lemma {:induction false} WorkLess(s: State, t: nat)
    requires Works(s, t)
    ensures Remaining(StepWork(s, t)) < Remaining(s)
  {
    hide Scan, CostsOf, Remaining, Weight, LoopWeight, Items, StepWork, ScanOf, ScanFor;
    var s', l := StepWork(s, t), s.reqs[s.threads[t].pc.r].loop;
    WorkScan(s, t);
    WorkShapes(s, t);
    SameCosts(s, s');
    CostsAt(s);
    OneChange(s, s', t, l);
    WorkWeighs(s, t, CostsOf(s));
  }

  /** A step of a worker changes its thread and the loop of its request. */
  lemma {:induction false} WorkShapes(s: State, t: nat)
    requires Works(s, t)
    ensures var s', l := StepWork(s, t), s.reqs[s.threads[t].pc.r].loop;
            && l < |s.loops| && |s'.threads| == |s.threads| && s'.threads == s.threads[t := s'.threads[t]]
            && |s'.loops| == |s.loops| && s'.loops == s.loops[l := s'.loops[l]] && s'.wq == s.wq
            && |s'.reqs| == |s.reqs| && forall r :: 0 <= r < |s.reqs| ==> s'.reqs[r].loop == s.reqs[r].loop
  {
  }

  /** Together they become lighter. */
  lemma {:induction false} WorkWeighs(s: State, t: nat, c: Costs)
    requires Works(s, t)
    requires var r := s.threads[t].pc.r; ScanFor(c, r) == ScanOf(c, s.reqs[r].loop)
    ensures var s', l := StepWork(s, t), s.reqs[s.threads[t].pc.r].loop;
            && l < |s.loops| && l < |s'.loops| && t < |s'.threads|
            && Weight(c, s'.threads[t].pc) + LoopWeight(s'.loops[l]) < Weight(c,
                                                                              s.threads[t].pc) + LoopWeight(s.loops[l])
  {
    hide Scan, ScanOf, ScanFor;
    WorkShapes(s, t);
    SameStage(s, t);
  }

  /** Only a delivery changes what a loop weighs. */
  lemma {:induction false} SameStage(s: State, t: nat)
    requires Works(s, t)
    ensures var s', l := StepWork(s, t), s.reqs[s.threads[t].pc.r].loop;
            && l < |s.loops| && l < |s'.loops|
            && LoopWeight(s'.loops[l]) == LoopWeight(s.loops[l]) + if s.threads[t].pc.work.Deliver? then 2 else 0
  {
  }

  lemma {:induction false} WorkScan(s: State, t: nat)
    requires Works(s, t)
    ensures var s', l := StepWork(s, t), s.reqs[s.threads[t].pc.r].loop;
            && |s'.loops| == |s.loops| && (forall l' :: 0 <= l' < |s.loops| ==> Scan(s'.loops[l']) == Scan(s.loops[l']))
  {
  }

  lemma {:induction false} TryLess(s: State, t: nat)
    requires Tries(s, t)
    ensures Remaining(StepTry(s, t)) < Remaining(s)
  {
    hide Scan, CostsOf, Remaining, Without;
    var r := s.threads[t].pc.r;
    var s', l := StepTry(s, t), s.reqs[r].loop;
    CancelScan(s, t);
    SameCosts(s, s');
    CostsAt(s);
    OneChange(s, s', t, l);
    ItemsWithout(CostsOf(s), s.wq, Job(r));
    WithoutShorter(s.loops[l].wq, r);
    WithoutShorter(s.loops[l].local, r);
  }

  lemma {:induction false} GrantLess(s: State, t: nat)
    requires Grants(s, t)
    ensures Remaining(StepGrant(s, t)) < Remaining(s)
  {
    hide Scan, CostsOf, Remaining;
    var s', l := StepGrant(s, t), s.reqs[s.threads[t].pc.r].loop;
    CancelScan(s, t);
    SameCosts(s, s');
    CostsAt(s);
    OneChange(s, s', t, l);
  }

  lemma {:induction false} CancelScan(s: State, t: nat)
    requires t < |s.threads| && ThreadOk(s, t) && s.threads[t].pc.Cancelling?
    ensures var s' := if Trying(s.threads[t].pc.cancel) then StepTry(s, t) else StepGrant(s, t);
            && |s'.loops| == |s.loops| && |s'.reqs| == |s.reqs|
            && (forall l' :: 0 <= l' < |s.loops| ==> Scan(s'.loops[l']) == Scan(s.loops[l']))
            && (forall r :: 0 <= r < |s.reqs| ==> s'.reqs[r].loop == s.reqs[r].loop)
  {
    hide Without;
  }

  lemma {:induction false} TurnLess(s: State, l: nat)
    requires Turns(s, l) && StageCanStep(s.loops[l])
    ensures Remaining(StepLoop(s, l)) < Remaining(s)
  {
    hide CostsOf, Remaining, LoopWeight, Weight, Items, Scan, StepLoop;
    var s' := StepLoop(s, l);
    TurnScan(s, l);
    TurnWeight(s, l);
    SameCosts(s, s');
    OneChange(s, s', s.loops[l].thread, l);
  }

  lemma {:induction false} TurnWeight(s: State, l: nat)
    requires Turns(s, l) && StageCanStep(s.loops[l])
    ensures var s' := StepLoop(s, l);
            && s'.threads == s.threads && s'.wq == s.wq && |s'.loops| == |s.loops|
               && s'.loops == s.loops[l := s'.loops[l]]
            && LoopWeight(s'.loops[l]) < LoopWeight(s.loops[l])
  {
  }

  lemma {:induction false} TurnScan(s: State, l: nat)
    requires Turns(s, l)
    ensures var s' := StepLoop(s, l);
            && |s'.loops| == |s.loops| && |s'.reqs| == |s.reqs|
            && (forall l' :: 0 <= l' < |s.loops| ==> Scan(s'.loops[l']) == Scan(s.loops[l']))
            && (forall r :: 0 <= r < |s.reqs| ==> s'.reqs[r].loop == s.reqs[r].loop)
  {
  }

  /** Every step of the pool's own uses up the measure; only calls from outside, and workers that wake up
      for no reason, add to it. */
  lemma {:induction false} RunLess(s: State, t: nat, w: nat)
    requires Enabled(s, Run(t, w))
    ensures Remaining(Next(s, Run(t, w))) < Remaining(s)
  {
    hide Remaining;
    match s.threads[t].pc
    case Resting => TurnLess(s, s.threads[t].role.l);
    case Sending(_, _, _, _) => SendLess(s, t);
    case Posting(_, _) => PostLess(s, t, w);
    case Cancelling(step, _, _) => if Trying(step) { TryLess(s, t); } else { GrantLess(s, t); }
    case Seeking(_) => SeekLess(s, t, w);
    case Working(_, _) => WorkLess(s, t);
  }

  /** Left to itself from any point of a run, the pool takes no more steps than the measure says, whatever
      the order in which its threads move. */
  lemma {:induction false} ComesToRest(states: seq<State>, acts: seq<Action>, i: nat)
    requires IsRun(states, acts) && i < |states|
    requires forall j :: i <= j < |acts| ==> acts[j].Run?
    ensures |acts| - i + Remaining(states[|acts|]) <= Remaining(states[i])
    decreases |states| - i
  {
    hide Remaining;
    if i < |acts| {
      RunLess(states[i], acts[i].t, acts[i].w);
      ComesToRest(states, acts, i + 1);
    }
  }

  /** So every request is finished in the end: a run that the outside leaves alone is short, and when it
      cannot go on no request is left. */
  lemma {:induction false} AllFinish(states: seq<State>, acts: seq<Action>, i: nat)
    requires IsRun(states, acts) && i < |states|
    requires forall j :: i <= j < |acts| ==> acts[j].Run?
    requires exists t :: 0 <= t < |states[|acts|].threads| && states[|acts|].threads[t].role.Worker?
    requires ExitMessage !in states[|acts|].wq
    ensures |acts| - i <= Remaining(states[i])
    ensures Stopped(states[|acts|]) ==> forall r :: 0 <= r < |states[|acts|].reqs| ==> states[|acts|].reqs[r].calls == 1
  {
    ComesToRest(states, acts, i);
    if Stopped(states[|acts|]) {
      forall r | 0 <= r < |states[|acts|].reqs| ensures states[|acts|].reqs[r].calls == 1 {
        NothingLeft(states, acts, |acts|, r);
      }
    }
  }
}

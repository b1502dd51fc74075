/** What holds in every state of every run of the thread pool. */
module ThreadPoolSafety {
  import opened Wrappers
  import opened ThreadPool
  import opened ThreadPoolInvariant

  // ----- Runs -----------------------------------------------------------------------------------------------

  /** Workers are about to look for work, nobody else is doing anything, and nothing is pending. */
  ghost predicate Init(s: State) {
    && s.mutex.None? && s.wq == [] && s.idle == 0 && s.reqs == []
    && (forall t :: 0 <= t < |s.threads| ==> InitThread(s, t))
    && (forall l :: 0 <= l < |s.loops| ==> InitLoop(s, l))
  }

  predicate InitThread(s: State, t: nat)
    requires t < |s.threads|
  {
    var th := s.threads[t];
    && th.pc == (if th.role.Worker? then Seeking(Enter) else Resting)
    && (th.role.LoopThread? ==> th.role.l < |s.loops| && s.loops[th.role.l].thread == t)
  }

  ghost predicate InitLoop(s: State, l: nat)
    requires l < |s.loops|
  {
    var loop := s.loops[l];
    && loop.thread < |s.threads| && s.threads[loop.thread].role == LoopThread(l)
    && loop.lock.None? && loop.wq == [] && loop.local == [] && loop.stage == Polling && !loop.readable
    && |loop.pending| >= 1 && |loop.casBy| == |loop.pending|
    && (forall h: nat :: h in loop.handles <==> h < |loop.pending|)
    && (forall h :: 0 <= h < |loop.pending| ==> !loop.pending[h])
  }

  /** `states` is a run: it starts initially, and each state follows from the one before by an action. */
  ghost predicate IsRun(states: seq<State>, acts: seq<Action>) {
    && |states| == |acts| + 1 && Init(states[0])
    && (forall i :: 0 <= i < |acts| ==> Enabled(states[i], acts[i]) && states[i + 1] == Next(states[i], acts[i]))
  }

  lemma {:induction false} InitInv(s: State)
    requires Init(s)
    ensures Inv(s)
  {
    forall t | 0 <= t < |s.threads|
      ensures ThreadOk(s, t) && MutexOk(s, t) && ClaimOk(s, t) && SoleExit(s, t) && CancelOk(s, t) && SeekOk(s, t)
    {
      assert InitThread(s, t);
    }
    forall l | 0 <= l < |s.loops| ensures LoopOk(s, l) && LoopQueueOk(s, l) && s.loops[l].lock.None? && Drains(s, l) {
      assert InitLoop(s, l);
    }
    forall l, t | 0 <= l < |s.loops| && 0 <= t < |s.threads| ensures LockOk(s, l, t) {
      assert InitLoop(s, l) && InitThread(s, t);
    }
    forall l, h | 0 <= l < |s.loops| && 0 <= h < |s.loops[l].pending| && HandleOk(s, l, h) ensures Noticed(s, l, h) {
      assert InitLoop(s, l);
    }
    forall t | 0 <= t < |s.threads| ensures !Sleeps(s.threads[t].pc) {
      assert InitThread(s, t);
    }
    assert Sleepers(s) == {};
  }

  lemma {:induction false} RunInv(states: seq<State>, acts: seq<Action>, i: nat)
    requires IsRun(states, acts) && i < |states|
    ensures Inv(states[i])
  {
    hide Inv, Init, Enabled, Next;
    if i == 0 {
      InitInv(states[0]);
    } else {
      RunInv(states, acts, i - 1);
      assert Enabled(states[i - 1], acts[i - 1]) && states[i] == Next(states[i - 1], acts[i - 1]);
      NextKeeps(states[i - 1], acts[i - 1]);
    }
  }

  /** A step that a thread can take is well defined: no index is out of range, a worker that wakes up is
      counted as idle, and one that takes an item finds the queue not empty. */
  lemma {:induction false} StepsDefined(s: State, t: nat)
    requires Inv(s) && t < |s.threads|
    ensures ThreadOk(s, t) && (CanStep(s, t) ==> StepReady(s, t))
  {
    assert ThreadOk(s, t);
    if CanStep(s, t) {
      if s.threads[t].pc.Seeking? {
        SeekReady(s, t);
      } else if s.threads[t].pc.Resting? {
        TurnReady(s, t);
      }
    }
  }

  // ----- Requests ---------------------------------------------------------------------------------------------

  ghost predicate InHands(s: State, r: nat) {
    exists t :: 0 <= t < |s.threads| && Claim(s.threads[t].pc) == Some(r)
  }

  ghost predicate InCompletion(s: State, r: nat) {
    exists l :: 0 <= l < |s.loops| && r in s.loops[l].wq
  }

  ghost predicate InDrain(s: State, r: nat) {
    exists l :: 0 <= l < |s.loops| && r in s.loops[l].local
  }

  function One(b: bool): nat { if b then 1 else 0 }

  /** Every request is in exactly one place: in a thread's hands, in the pool's queue, in the completion
      queue of its loop, in the list that loop is draining, or finished. */
  lemma {:induction false} ExactlyOnePlace(states: seq<State>, acts: seq<Action>, i: nat, r: nat)
    requires IsRun(states, acts) && i < |states| && r < |states[i].reqs|
    ensures var s := states[i];
            One(InHands(s, r)) + One(Job(r) in s.wq) + One(InCompletion(s, r)) + One(InDrain(s, r))
            + One(s.reqs[r].calls == 1) == 1
  {
    hide InHands, InCompletion, InDrain;
    RunInv(states, acts, i);
    assert HistoryOk(states[i], r);
    OnePlace(states[i], r);
  }

  /** And it is there once: in the hands of one thread only, and at one index of the queue it is in. */
  lemma {:induction false} PlacedOnce(states: seq<State>, acts: seq<Action>, i: nat, t: nat, t': nat, l: nat)
    requires IsRun(states, acts) && i < |states|
    requires t < |states[i].threads| && t' < |states[i].threads| && t != t' && l < |states[i].loops|
    ensures var s := states[i];
            && (Claim(s.threads[t].pc).Some? ==> Claim(s.threads[t].pc) != Claim(s.threads[t'].pc))
            && Once(s.wq) && Once(s.loops[l].wq) && Once(s.loops[l].local)
            && (forall r :: r in s.loops[l].wq || r in s.loops[l].local ==> r < |s.reqs| && s.reqs[r].loop == l)
  {
    var s := states[i];
    RunInv(states, acts, i);
    assert ClaimOk(s, t) && ClaimOk(s, t') && LoopQueueOk(s, l);
  }

  lemma {:induction false} OnePlace(s: State, r: nat)
    requires Inv(s) && r < |s.reqs|
    ensures InHands(s, r) <==> Holder(s.reqs[r].place).Some?
    ensures Job(r) in s.wq <==> s.reqs[r].place.Queued?
    ensures InCompletion(s, r) || InDrain(s, r) <==> s.reqs[r].place.Completed?
    ensures !(InCompletion(s, r) && InDrain(s, r))
  {
    assert PlaceOk(s, r) && ReqOk(s, r);
    var p := s.reqs[r].place;
    if InHands(s, r) {
      var t :| 0 <= t < |s.threads| && Claim(s.threads[t].pc) == Some(r);
      assert ClaimOk(s, t);
    }
    if InCompletion(s, r) {
      var l :| 0 <= l < |s.loops| && r in s.loops[l].wq;
      assert LoopQueueOk(s, l);
    }
    if InDrain(s, r) {
      var l :| 0 <= l < |s.loops| && r in s.loops[l].local;
      assert LoopQueueOk(s, l);
    }
    if p.Completed? {
      assert LoopQueueOk(s, s.reqs[r].loop);
      assert r in s.loops[s.reqs[r].loop].wq || r in s.loops[s.reqs[r].loop].local;
    }
  }

  /** The callback runs at most once. When it has run, it got UV_ECANCELED exactly if a cancel of the
      request returned 0, and the function ran exactly if none did. A request whose cancel returned 0
      never starts. */
  lemma {:induction false} DoneOnce(states: seq<State>, acts: seq<Action>, i: nat, r: nat)
    requires IsRun(states, acts) && i < |states| && r < |states[i].reqs|
    ensures var req := states[i].reqs[r];
            && req.calls <= 1
            && (req.calls == 1 ==> req.status == req.granted && req.started == !req.granted)
            && (req.granted ==> !req.started)
  {
    RunInv(states, acts, i);
    assert HistoryOk(states[i], r);
  }

  /** What a request records is never taken back. */
  predicate Later(req: Req, req': Req) {
    && (req.started ==> req'.started) && (req.granted ==> req'.granted) && req.calls <= req'.calls
    && (req.calls == 1 ==> req' == req)
  }

  lemma {:induction false} NextLater(s: State, a: Action, r: nat)
    requires Inv(s) && Enabled(s, a) && r < |s.reqs|
    ensures r < |Next(s, a).reqs| && Later(s.reqs[r], Next(s, a).reqs[r])
  {
    hide Inv;
    match a
    case Call(t, c) =>
    case WakeUp(t) =>
    case Run(t, w) =>
      match s.threads[t].pc
      case Resting => TurnLater(s, s.threads[t].role.l, r);
      case Sending(_, _, _, _) =>
      case Posting(_, _) => PostLater(s, t, w, r);
      case Cancelling(_, _, _) => CancelLater(s, t, r);
      case Seeking(_) => SeekLater(s, t, w, r);
      case Working(_, _) => WorkLater(s, t, r);
  }

  lemma {:induction false} TurnLater(s: State, l: nat, r: nat)
    requires Inv(s) && Turns(s, l) && r < |s.reqs|
    ensures r < |StepLoop(s, l).reqs| && Later(s.reqs[r], StepLoop(s, l).reqs[r])
  {
    assert LoopQueueOk(s, l);
    if DrainsOne(s.loops[l]) {
      assert s.loops[l].local[0] in s.loops[l].local;
      assert HistoryOk(s, s.loops[l].local[0]);
    }
  }

  lemma {:induction false} PostLater(s: State, t: nat, w: nat, r: nat)
    requires Inv(s) && Posts(s, t) && r < |s.reqs|
    ensures r < |StepPost(s, t, w).reqs| && Later(s.reqs[r], StepPost(s, t, w).reqs[r])
  {
    assert ClaimOk(s, t) && HistoryOk(s, r);
  }

  lemma {:induction false} CancelLater(s: State, t: nat, r: nat)
    requires Inv(s) && t < |s.threads| && ThreadOk(s, t) && s.threads[t].pc.Cancelling? && r < |s.reqs|
    ensures var s' := if Trying(s.threads[t].pc.cancel) then StepTry(s, t) else StepGrant(s, t);
            r < |s'.reqs| && Later(s.reqs[r], s'.reqs[r])
  {
    hide Without, Shape, Locks, Sleep, Wakeups;
    assert ClaimOk(s, t) && CancelOk(s, t) && HistoryOk(s, r);
  }

  lemma {:induction false} SeekLater(s: State, t: nat, w: nat, r: nat)
    requires Inv(s) && Seeks(s, t) && r < |s.reqs|
    ensures r < |StepSeek(s, t, w).reqs| && Later(s.reqs[r], StepSeek(s, t, w).reqs[r])
  {
    assert HistoryOk(s, r);
    if s.threads[t].pc.seek.Take? {
      assert s.wq[0] in s.wq;
    }
  }

  lemma {:induction false} WorkLater(s: State, t: nat, r: nat)
    requires Inv(s) && Works(s, t) && r < |s.reqs|
    ensures r < |StepWork(s, t).reqs| && Later(s.reqs[r], StepWork(s, t).reqs[r])
  {
    assert ClaimOk(s, t) && HistoryOk(s, r);
  }

  /** A cancel succeeds exactly when no worker has taken the request: neither is one busy with it nor has
      its function run. */
  lemma {:induction false} CancelSucceeds(s: State, t: nat)
    requires Inv(s) && t < |s.threads| && s.threads[t].pc.Cancelling? && s.threads[t].pc.cancel.Decide?
             && ThreadOk(s, t)
    ensures var r := s.threads[t].pc.r;
            StepTry(s, t).threads[t].pc == Cancelling(GiveLoop, r, !s.reqs[r].place.Held? && !s.reqs[r].started)
  {
    assert CancelOk(s, t) && HistoryOk(s, s.threads[t].pc.r);
  }

  // ----- Wakeups ----------------------------------------------------------------------------------------------

  /** No wakeup is lost: a pending handle has a readable descriptor, a sender between its compare-and-swap
      and its write, or the current scan still to come to it. */
  lemma {:induction false} NoLostWakeup(states: seq<State>, acts: seq<Action>, i: nat, l: nat, h: nat)
    requires IsRun(states, acts) && i < |states| && l < |states[i].loops| && h < |states[i].loops[l].pending|
    requires states[i].loops[l].pending[h]
    ensures var s := states[i];
            || s.loops[l].readable || h in Todo(s.loops[l].stage)
            || exists t :: 0 <= t < |s.threads| && s.threads[t].pc.Sending? && s.threads[t].pc.send.Write?
                           && s.threads[t].pc.l == l && s.threads[t].pc.h == h
  {
    var s := states[i];
    RunInv(states, acts, i);
    assert LoopOk(s, l);
    assert HandleOk(s, l, h) && Noticed(s, l, h);
  }

  /** A completion queue that is not empty and whose lock is free will be drained: its handle is pending,
      so that the loop comes to it, or it has just come to it. */
  lemma {:induction false} DrainToCome(states: seq<State>, acts: seq<Action>, i: nat, l: nat)
    requires IsRun(states, acts) && i < |states| && l < |states[i].loops|
    requires states[i].loops[l].wq != [] && states[i].loops[l].lock.None?
    ensures |states[i].loops[l].pending| >= 1 && (states[i].loops[l].pending[0] || states[i].loops[l].stage.DrainLock?)
  {
    var s := states[i];
    RunInv(states, acts, i);
    assert LoopOk(s, l) && Drains(s, l);
    assert LockOk(s, l, s.loops[l].thread);
  }

  /** When a loop reads its descriptor, the descriptor is readable: it holds what some sender wrote. */
  lemma {:induction false} ReadsReadable(states: seq<State>, acts: seq<Action>, i: nat, l: nat)
    requires IsRun(states, acts) && i < |states| && l < |states[i].loops| && states[i].loops[l].stage.Reading?
    ensures states[i].loops[l].readable
  {
    RunInv(states, acts, i);
    assert LoopOk(states[i], l);
  }

  // ----- Locks ------------------------------------------------------------------------------------------------

  /** Only a cancel holds both locks, and it takes the pool's lock first: a worker never holds both. */
  lemma {:induction false} WorkerHoldsOne(s: State, t: nat, l: nat)
    requires Inv(s) && t < |s.threads| && l < |s.loops| && s.threads[t].role.Worker?
    ensures !(s.mutex == Some(t) && s.loops[l].lock == Some(t))
  {
    assert ThreadOk(s, t) && MutexOk(s, t) && LockOk(s, l, t) && LoopOk(s, l);
  }

  /** The owner of a loop's lock is never blocked. */
  lemma {:induction false} LoopOwnerMoves(s: State, l: nat)
    requires Inv(s) && l < |s.loops| && s.loops[l].lock.Some?
    ensures var t := s.loops[l].lock.value; t < |s.threads| && ThreadOk(s, t) && CanStep(s, t)
  {
    var t := s.loops[l].lock.value;
    assert LockOk(s, l, t) && ThreadOk(s, t) && LoopOk(s, l);
  }

  /** If the pool's lock is taken, its owner can move, or whoever it waits for can. */
  lemma {:induction false} PoolOwnerMoves(s: State) returns (t: nat)
    requires Inv(s) && s.mutex.Some?
    ensures t < |s.threads| && ThreadOk(s, t) && CanStep(s, t)
  {
    t := s.mutex.value;
    assert MutexOk(s, t) && ThreadOk(s, t);
    if !CanStep(s, t) {
      var l := s.reqs[s.threads[t].pc.r].loop;
      LoopOwnerMoves(s, l);
      t := s.loops[l].lock.value;
    }
  }

  /** A thread that is where it wants a lock. */
  predicate WantsLock(s: State, t: nat)
    requires t < |s.threads|
  {
    match s.threads[t].pc
    case Posting(step, _) => step.LockPool?
    case Cancelling(step, _, _) => step.TakePool? || step.TakeLoop? || step.Retake?
    case Seeking(step) => step.Enter? || step.Woken?
    case Working(step, _) => step.TakeQueue?
    case Resting => s.threads[t].role.LoopThread? && s.threads[t].role.l < |s.loops|
        && s.loops[s.threads[t].role.l].stage.DrainLock?
    case _ => false
  }

  /** No deadlock: if a thread is waiting for a lock, some thread can take its next step. */
  lemma {:induction false} NoDeadlock(s: State, t: nat) returns (t': nat)
    requires Inv(s) && t < |s.threads| && WantsLock(s, t)
    ensures t' < |s.threads| && ThreadOk(s, t') && CanStep(s, t')
  {
    t' := t;
    assert ThreadOk(s, t);
    if !CanStep(s, t) {
      if s.mutex.Some? {
        t' := PoolOwnerMoves(s);
      } else {
        var th := s.threads[t];
        var l := if th.pc.Resting? then th.role.l else s.reqs[th.pc.r].loop;
        LoopOwnerMoves(s, l);
        t' := s.loops[l].lock.value;
      }
    }
  }

  // ----- Nothing is left behind -------------------------------------------------------------------------------

  ghost predicate Stopped(s: State) {
    forall t :: 0 <= t < |s.threads| && ThreadOk(s, t) ==> !CanStep(s, t)
  }

  /** In a state where no thread can move, workers wait or have exited, loops poll with nothing to read, and
      all other threads rest. */
  lemma {:induction false} StoppedThread(s: State, t: nat)
    requires Inv(s) && Stopped(s) && t < |s.threads|
    ensures var th := s.threads[t];
            if th.role.Worker? then th.pc == Seeking(Waiting) || th.pc == Seeking(Exited)
            else th.pc == Resting
                 && (th.role.LoopThread? ==>
                      th.role.l < |s.loops| && s.loops[th.role.l].stage.Polling? && !s.loops[th.role.l].readable)
  {
    assert ThreadOk(s, t);
    if WantsLock(s, t) {
      var t' := NoDeadlock(s, t);
      assert false;
    }
  }

  /** The pool never comes to rest with work undone: where no thread can move, and the pool has workers and
      is not being shut down, every request that was ever submitted is finished. */
  lemma {:induction false} NothingLeft(states: seq<State>, acts: seq<Action>, i: nat, r: nat)
    requires IsRun(states, acts) && i < |states| && r < |states[i].reqs|
    requires Stopped(states[i]) && ExitMessage !in states[i].wq
    requires exists t :: 0 <= t < |states[i].threads| && states[i].threads[t].role.Worker?
    ensures states[i].reqs[r].calls == 1
  {
    var s := states[i];
    RunInv(states, acts, i);
    forall t | 0 <= t < |s.threads| ensures Claim(s.threads[t].pc).None? && !Rouses(s.threads[t])
      && s.threads[t].pc != Seeking(Exited) {
      StoppedThread(s, t);
      assert SeekOk(s, t);
    }
    assert PlaceOk(s, r) && HistoryOk(s, r) && ReqOk(s, r);
    var l := s.reqs[r].loop;
    assert LoopOk(s, l);
    StoppedThread(s, s.loops[l].thread);
    StoppedLoop(s, l);
  }

  lemma {:induction false} StoppedLoop(s: State, l: nat)
    requires Inv(s) && Stopped(s) && l < |s.loops|
    ensures s.loops[l].wq == [] && s.loops[l].local == []
  {
    assert LoopOk(s, l) && Drains(s, l);
    StoppedThread(s, s.loops[l].thread);
    if s.loops[l].wq != [] {
      if s.loops[l].lock.Some? {
        LoopOwnerMoves(s, l);
        assert false;
      }
      assert HandleOk(s, l, 0) && Noticed(s, l, 0);
      StoppedThread(s, s.loops[l].casBy[0]);
    }
  }
}

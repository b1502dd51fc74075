/** What every step of the thread pool keeps. */
module ThreadPoolInvariant {
  import opened Wrappers
  import opened ThreadPool

  // ----- Shape -----------------------------------------------------------------------------------------

  function Todo(stage: Stage): seq<nat> {
    if stage.Polling? || stage.Reading? then [] else stage.todo
  }

  /** A thread's indices are in range, and a loop thread is the thread of its loop. */
  predicate ThreadOk(s: State, t: nat)
    requires t < |s.threads|
  {
    var th := s.threads[t];
    PcOk(s, th) && (th.role.LoopThread? ==> th.role.l < |s.loops| && s.loops[th.role.l].thread == t)
  }

  /** A loop's handles are in its list or in the current scan; while its thread is in a call, it is at a
      point where user code runs; it reads its descriptor only when that is readable. */
  ghost predicate LoopOk(s: State, l: nat)
    requires l < |s.loops|
  {
    var loop := s.loops[l];
    && loop.thread < |s.threads| && s.threads[loop.thread].role == LoopThread(l)
    && |loop.pending| >= 1 && |loop.casBy| == |loop.pending|
    && (forall h: nat :: h in loop.handles || h in Todo(loop.stage) <==> h < |loop.pending|)
    && (s.threads[loop.thread].pc != Resting ==> UserStage(loop.stage))
    && (loop.stage.Reading? ==> loop.readable)
    && (loop.stage.DrainUnlock? || loop.stage.Draining? || loop.stage.InDone? || loop.local == [])
  }

  ghost predicate Shape(s: State) {
    && (forall t :: 0 <= t < |s.threads| ==> ThreadOk(s, t))
    && (forall l :: 0 <= l < |s.loops| ==> LoopOk(s, l))
    && (forall r :: 0 <= r < |s.reqs| ==> ReqOk(s, r))
  }

  // ----- Locks -----------------------------------------------------------------------------------------

  predicate HoldsMutex(pc: Pc) {
    match pc
    case Posting(step, _) => !step.LockPool?
    case Cancelling(step, _, _) => step.TakeLoop? || step.Decide? || step.GiveLoop? || step.GivePool?
    case Seeking(step) => step.Test? || step.Take? || step.Exit?
    case Working(step, _) => step.Leave?
    case _ => false
  }

  /** Whether a thread holds, for the request it is busy with, the lock of that request's loop. */
  predicate HoldsQueue(pc: Pc) {
    match pc
    case Cancelling(step, _, _) => step.Decide? || step.GiveLoop? || step.Complete? || step.Return?
    case Working(step, _) => step.Clear? || step.Deliver? || step.GiveQueue?
    case Sending(_, _, _, k) => k.ThenUnlock? || k.ThenReturn?
    case _ => false
  }

  function Busy(pc: Pc): nat
    requires HoldsQueue(pc)
  {
    match pc
    case Cancelling(_, r, _) => r
    case Working(_, r) => r
    case Sending(_, _, _, k) => k.r
  }

  /** Whether thread `t` holds the lock of loop `l`. */
  predicate HoldsLoop(s: State, t: nat, l: nat)
    requires t < |s.threads| && l < |s.loops|
  {
    var pc := s.threads[t].pc;
    || (HoldsQueue(pc) && ReqOk(s, Busy(pc)) && s.reqs[Busy(pc)].loop == l)
    || (s.loops[l].thread == t && (s.loops[l].stage.DrainMove? || s.loops[l].stage.DrainUnlock?))
  }

  predicate MutexOk(s: State, t: nat)
    requires t < |s.threads|
  {
    s.mutex == Some(t) <==> HoldsMutex(s.threads[t].pc)
  }

  predicate LockOk(s: State, l: nat, t: nat)
    requires t < |s.threads| && l < |s.loops|
  {
    s.loops[l].lock == Some(t) <==> HoldsLoop(s, t, l)
  }

  /** A lock is held by exactly the thread that is in its critical section. */
  ghost predicate Locks(s: State) {
    && (s.mutex.Some? ==> s.mutex.value < |s.threads|)
    && (forall l :: 0 <= l < |s.loops| && s.loops[l].lock.Some? ==> s.loops[l].lock.value < |s.threads|)
    && (forall t :: 0 <= t < |s.threads| ==> MutexOk(s, t))
    && (forall l, t :: 0 <= l < |s.loops| && 0 <= t < |s.threads| ==> LockOk(s, l, t))
  }

  // ----- Places ------------------------------------------------------------------------------------------

  /** The request a thread has in its hands, and no queue holds. */
  function Claim(pc: Pc): Option<nat> {
    match pc
    case Posting(step, item) => if (step.LockPool? || step.Append?) && item.Job? then Some(item.r) else None
    case Cancelling(step, r, ok) =>
      if ok && (step.GiveLoop? || step.GivePool? || step.Mark? || step.Retake? || step.Complete?) then Some(r) else None
    case Working(step, r) => if step.GiveQueue? then None else Some(r)
    case Sending(_, _, _, k) => if k.ThenRun? then Some(k.r) else None
    case _ => None
  }

  function ClaimPlace(pc: Pc, t: nat): Place {
    if pc.Posting? then Submitting(t) else if pc.Cancelling? then BeingCancelled(t) else Held(t)
  }

  /** The thread that has the request in its hands. */
  function Holder(p: Place): Option<nat> {
    match p
    case Submitting(t) => Some(t)
    case Held(t) => Some(t)
    case BeingCancelled(t) => Some(t)
    case _ => None
  }

  predicate ClaimOk(s: State, t: nat)
    requires t < |s.threads|
  {
    var c := Claim(s.threads[t].pc);
    c.Some? ==> c.value < |s.reqs| && s.reqs[c.value].place == ClaimPlace(s.threads[t].pc, t)
  }

  /** A request is where its `place` says. */
  predicate PlaceOk(s: State, r: nat)
    requires r < |s.reqs|
  {
    var req := s.reqs[r];
    match req.place
    case Queued => Job(r) in s.wq
    case Completed => req.loop < |s.loops| && (r in s.loops[req.loop].wq || r in s.loops[req.loop].local)
    case Finished => true
    case p => Holder(p).value < |s.threads| && Claim(s.threads[Holder(p).value].pc) == Some(r)
  }

  predicate Once<T(==)>(q: seq<T>) {
    forall i, j :: 0 <= i < j < |q| ==> q[i] != q[j]
  }

  /** The global queue holds each queued request once, and the exit message at most once. */
  ghost predicate PoolQueueOk(s: State) {
    Once(s.wq) && forall r: nat :: Job(r) in s.wq ==> r < |s.reqs| && s.reqs[r].place.Queued?
  }

  /** The completion queue of a loop and the list it is draining hold its completed requests, each once. */
  ghost predicate LoopQueueOk(s: State, l: nat)
    requires l < |s.loops|
  {
    var loop := s.loops[l];
    && Once(loop.wq) && Once(loop.local) && (forall r: nat :: r in loop.wq ==> r !in loop.local)
    && (forall r: nat :: r in loop.wq || r in loop.local ==>
         r < |s.reqs| && s.reqs[r].loop == l && s.reqs[r].place.Completed?)
  }

  /** Only one thread posts the exit message, and only when it is not there yet. */
  ghost predicate SoleExit(s: State, t: nat)
    requires t < |s.threads|
  {
    PostsExit(s.threads[t].pc) ==>
      ExitMessage !in s.wq && forall t' :: 0 <= t' < |s.threads| && t' != t ==> !PostsExit(s.threads[t'].pc)
  }

  ghost predicate Places(s: State) {
    && (forall t :: 0 <= t < |s.threads| ==> ClaimOk(s, t))
    && (forall t :: 0 <= t < |s.threads| ==> SoleExit(s, t))
    && (forall r :: 0 <= r < |s.reqs| ==> PlaceOk(s, r))
    && PoolQueueOk(s)
    && (forall l :: 0 <= l < |s.loops| ==> LoopQueueOk(s, l))
  }

  // ----- What has happened to a request ---------------------------------------------------------------

  /** The cancel of `r` has put it on the completion queue and is about to return 0. */
  predicate Granting(pc: Pc, r: nat) {
    pc == Cancelling(Return, r, true) || (pc.Sending? && pc.k == ThenReturn(r))
  }

  predicate HistoryOk(s: State, r: nat)
    requires r < |s.reqs|
  {
    var req := s.reqs[r];
    match req.place
    case Submitting(t) => !req.started && !req.granted && req.calls == 0 && req.work == Func
    case Queued => !req.started && !req.granted && req.calls == 0 && req.work == Func && req.linked
    case Held(t) =>
      && !req.granted && req.calls == 0 && !req.linked && t < |s.threads|
      && var pc := s.threads[t].pc;
         && (pc.Working? || pc.Sending?)
         && (req.started <==> pc.Sending? || !(pc.work.Leave? || pc.work.Start?))
         && req.work == if pc.Working? && pc.work.Deliver? then Cleared else Func
    case BeingCancelled(t) =>
      && !req.started && req.calls == 0 && req.work != Cleared && (req.granted ==> req.work == Cancelled)
      && t < |s.threads|
      && var pc := s.threads[t].pc;
         pc.Cancelling? && (pc.cancel.Retake? || pc.cancel.Complete? ==> req.work == Cancelled)
    case Completed =>
      && req.calls == 0 && req.linked && (req.work == Cleared || req.work == Cancelled)
      && (req.work == Cleared ==> req.started && !req.granted)
      && (req.work == Cancelled ==> !req.started && (req.granted || GrantingIn(s, r)))
    case Finished => req.calls == 1 && req.status == req.granted && req.started == !req.granted
  }

  /** The thread of its loop is about to return 0 from a cancel of the request. */
  predicate GrantingIn(s: State, r: nat)
    requires r < |s.reqs|
  {
    var l := s.reqs[r].loop;
    l < |s.loops| && s.loops[l].thread < |s.threads| && Granting(s.threads[s.loops[l].thread].pc, r)
  }

  predicate Settled(p: Place) { p.Queued? || p.Held? || p.Completed? }

  /** A cancel that has not decided yet is of a request that is not finished, and one that is returning 0
      has marked it. */
  predicate CancelOk(s: State, t: nat)
    requires t < |s.threads|
  {
    var pc := s.threads[t].pc;
    && (pc.Cancelling? && (pc.cancel.TakePool? || pc.cancel.TakeLoop? || pc.cancel.Decide?) ==>
          pc.r < |s.reqs| && Settled(s.reqs[pc.r].place))
    && (pc.Cancelling? && (pc.cancel.Mark? || pc.cancel.Retake? || pc.cancel.Complete? || pc.cancel.Return?) ==> pc.ok)
    && (pc.Cancelling? && pc.cancel.Return? ==> pc.r < |s.reqs| && CancelDone(s.reqs[pc.r]))
    && (pc.Sending? && pc.k.ThenReturn? ==> pc.k.r < |s.reqs| && CancelDone(s.reqs[pc.k.r]))
  }

  predicate CancelDone(req: Req) { req.work == Cancelled && req.place.Completed? }

  ghost predicate History(s: State) {
    && (forall r :: 0 <= r < |s.reqs| ==> HistoryOk(s, r))
    && (forall t :: 0 <= t < |s.threads| ==> CancelOk(s, t))
  }

  // ----- Sleeping and waking ------------------------------------------------------------------------------

  predicate Sleeps(pc: Pc) { pc == Seeking(Waiting) || pc == Seeking(Woken) }

  function Sleepers(s: State): set<nat> {
    set t | 0 <= t < |s.threads| && Sleeps(s.threads[t].pc)
  }

  /** A worker that is on its way to the queue, or the signal that will wake one. */
  predicate Rouses(th: Thread) {
    (th.role.Worker? && th.pc != Seeking(Waiting) && th.pc != Seeking(Exited)) || (th.pc.Posting? && th.pc.post.Signal?)
  }

  predicate Gone(th: Thread) { th.role.Worker? ==> th.pc == Seeking(Exited) }

  ghost predicate Roused(s: State) {
    || s.wq == []
    || (exists t :: 0 <= t < |s.threads| && Rouses(s.threads[t]))
    || (forall t :: 0 <= t < |s.threads| ==> Gone(s.threads[t]))
  }

  /** The same without counting `t`. */
  ghost predicate RousedBut(s: State, t: nat) {
    || (exists t' :: 0 <= t' < |s.threads| && t' != t && Rouses(s.threads[t']))
    || (forall t' :: 0 <= t' < |s.threads| && t' != t ==> Gone(s.threads[t']))
  }

  predicate SeekOk(s: State, t: nat)
    requires t < |s.threads|
  {
    var pc := s.threads[t].pc;
    && (pc == Seeking(Exit) || pc == Seeking(Exited) ==> ExitMessage in s.wq)
    && (pc == Seeking(Take) ==> s.wq != [])
  }

  /** While there is something in the queue, a worker is on its way, or a signal is, or all workers have
      exited. */
  ghost predicate Sleep(s: State) {
    && s.idle == |Sleepers(s)|
    && Roused(s)
    && (forall t :: 0 <= t < |s.threads| ==> SeekOk(s, t))
    && (forall t :: 0 <= t < |s.threads| && s.threads[t].pc == Seeking(Exit) ==> RousedBut(s, t))
  }

  // ----- Wakeups -------------------------------------------------------------------------------------------

  /** A handle that is pending has a readable descriptor, a sender about to write, or the current scan
      still to come to it. */
  predicate Noticed(s: State, l: nat, h: nat)
    requires HandleOk(s, l, h)
  {
    var loop := s.loops[l];
    loop.pending[h] ==> loop.readable || h in Todo(loop.stage) || WriteToCome(s, l, h)
  }

  predicate WriteToCome(s: State, l: nat, h: nat)
    requires HandleOk(s, l, h)
  {
    var t := s.loops[l].casBy[h];
    t < |s.threads| && var pc := s.threads[t].pc; pc.Sending? && pc.send.Write? && pc.l == l && pc.h == h
  }

  /** A completion queue that is not empty has its handle pending, or is about to be drained, or whoever
      filled it still holds its lock and is about to see to it. */
  predicate Drains(s: State, l: nat)
    requires l < |s.loops| && |s.loops[l].pending| >= 1
  {
    var loop := s.loops[l];
    loop.wq != [] ==> loop.pending[0] || loop.stage.DrainLock? || loop.stage.DrainMove? || SendToCome(s, l)
  }

  predicate SendToCome(s: State, l: nat)
    requires l < |s.loops|
  {
    var t := s.loops[l].lock;
    && t.Some? && t.value < |s.threads|
    && var pc := s.threads[t.value].pc; pc.Sending? && !pc.send.Write? && pc.l == l && pc.h == 0
  }

  ghost predicate Wakeups(s: State) {
    && (forall l, h :: 0 <= l < |s.loops| && 0 <= h < |s.loops[l].pending| && HandleOk(s, l, h) ==> Noticed(s, l, h))
    && (forall l :: 0 <= l < |s.loops| && |s.loops[l].pending| >= 1 ==> Drains(s, l))
  }

  ghost predicate Inv(s: State) {
    Shape(s) && Locks(s) && Places(s) && History(s) && Sleep(s) && Wakeups(s)
  }

  // ----- One thread moves ---------------------------------------------------------------------------------

  /** From `s` to `s'` only thread `t` has moved, no thread or loop or handle has come or gone, and
      requests have kept their loops. */
  ghost predicate Moves(s: State, s': State, t: nat) {
    && t < |s.threads| == |s'.threads| && s'.threads[t].role == s.threads[t].role
    && (forall t' :: 0 <= t' < |s.threads| && t' != t ==> s'.threads[t'] == s.threads[t'])
    && |s'.loops| == |s.loops|
    && (forall l :: 0 <= l < |s.loops| ==> SameLoop(s.loops[l], s'.loops[l]))
    && |s.reqs| <= |s'.reqs|
    && (forall r :: 0 <= r < |s.reqs| ==> s'.reqs[r].loop == s.reqs[r].loop)
  }

  predicate SameLoop(loop: Loop, loop': Loop) {
    loop'.thread == loop.thread && |loop'.pending| == |loop.pending| && |loop'.casBy| == |loop.casBy|
  }

  lemma {:induction false} OthersOk(s: State, s': State, t: nat, t': nat)
    requires Moves(s, s', t) && t' < |s.threads| && t' != t && ThreadOk(s, t')
    ensures ThreadOk(s', t')
  {
    var th := s.threads[t'];
    assert s'.threads[t'] == th;
    if th.pc.Sending? {
      assert SameLoop(s.loops[th.pc.l], s'.loops[th.pc.l]);
    }
  }

  lemma {:induction false} ShapeStep(s: State, s': State, t: nat)
    requires Shape(s) && Moves(s, s', t) && ThreadOk(s', t)
    requires forall l :: 0 <= l < |s.loops| ==> LoopOk(s', l) || (s'.loops[l] == s.loops[l] && s.loops[l].thread != t)
    requires forall r :: |s.reqs| <= r < |s'.reqs| ==> ReqOk(s', r)
    ensures Shape(s')
  {
    forall t' | 0 <= t' < |s'.threads| ensures ThreadOk(s', t') {
      if t' != t {
        OthersOk(s, s', t, t');
      }
    }
    forall l | 0 <= l < |s'.loops| ensures LoopOk(s', l) {
      assert LoopOk(s, l);
    }
    forall r | 0 <= r < |s'.reqs| ensures ReqOk(s', r) {
      assert r < |s.reqs| ==> ReqOk(s, r);
    }
  }

  predicate Drainer(loop: Loop) { loop.stage.DrainMove? || loop.stage.DrainUnlock? }

  /** The owner of a lock before and after `t` has moved: it takes only a lock that is free, and leaves
      only its own. */
  predicate Passes(lock: Option<nat>, lock': Option<nat>, t: nat, held: bool, holds: bool) {
    if held == holds then lock' == lock
    else if holds then lock.None? && lock' == Some(t)
    else lock'.None?
  }

  lemma {:induction false} LocksStep(s: State, s': State, t: nat)
    requires Shape(s) && Locks(s) && Moves(s, s', t)
    requires Passes(s.mutex, s'.mutex, t, HoldsMutex(s.threads[t].pc), HoldsMutex(s'.threads[t].pc))
    requires forall l :: 0 <= l < |s.loops| ==>
               && Passes(s.loops[l].lock, s'.loops[l].lock, t, HoldsLoop(s, t, l), HoldsLoop(s', t, l))
               && (s.loops[l].thread == t || Drainer(s'.loops[l]) == Drainer(s.loops[l]))
    ensures Locks(s')
  {
    hide LoopOk, Claim, PcOk;
    forall t' | 0 <= t' < |s'.threads| ensures MutexOk(s', t') {
      assert MutexOk(s, t') && MutexOk(s, t);
    }
    forall l, t' | 0 <= l < |s'.loops| && 0 <= t' < |s'.threads| ensures LockOk(s', l, t') {
      assert LockOk(s, l, t') && LockOk(s, l, t);
      if t' != t {
        SameHolder(s, s', t, t', l);
      }
    }
  }

  /** A step that has to do with the lock of at most one loop. */
  lemma {:induction false} OneLock(s: State, s': State, t: nat, l0: nat)
    requires Shape(s) && Locks(s) && Moves(s, s', t) && l0 < |s.loops|
    requires forall l :: 0 <= l < |s.loops| && l != l0 ==> s'.loops[l] == s.loops[l]
    requires Passes(s.mutex, s'.mutex, t, HoldsMutex(s.threads[t].pc), HoldsMutex(s'.threads[t].pc))
    requires Passes(s.loops[l0].lock, s'.loops[l0].lock, t, HoldsLoop(s, t, l0), HoldsLoop(s', t, l0))
    requires s.loops[l0].thread == t || Drainer(s'.loops[l0]) == Drainer(s.loops[l0])
    requires var pc, pc' := s.threads[t].pc, s'.threads[t].pc;
             && (HoldsQueue(pc) ==> ReqOk(s, Busy(pc)) && s.reqs[Busy(pc)].loop == l0)
             && (HoldsQueue(pc') ==> ReqOk(s', Busy(pc')) && s'.reqs[Busy(pc')].loop == l0)
    ensures Locks(s')
  {
    hide LoopOk, HoldsMutex, HoldsQueue, Busy;
    LocksStep(s, s', t);
  }

  lemma {:induction false} SameHolder(s: State, s': State, t: nat, t': nat, l: nat)
    requires Shape(s) && Moves(s, s', t) && t' < |s.threads| && t' != t && l < |s.loops|
    requires s.loops[l].thread == t || Drainer(s'.loops[l]) == Drainer(s.loops[l])
    ensures HoldsLoop(s', t', l) == HoldsLoop(s, t', l)
  {
    assert ThreadOk(s, t') && s'.threads[t'] == s.threads[t'] && SameLoop(s.loops[l], s'.loops[l]);
    var pc := s.threads[t'].pc;
    if HoldsQueue(pc) {
      assert ReqOk(s, Busy(pc)) && s'.reqs[Busy(pc)].loop == s.reqs[Busy(pc)].loop;
    }
  }

  lemma {:induction false} ExitStep(s: State, s': State, t: nat, t': nat)
    requires Places(s) && Moves(s, s', t) && t' < |s.threads|
    requires PostsExit(s'.threads[t].pc) ==> PostsExit(s.threads[t].pc)
    requires ExitMessage in s'.wq ==>
               ExitMessage in s.wq || (PostsExit(s.threads[t].pc) && !PostsExit(s'.threads[t].pc))
    ensures SoleExit(s', t')
  {
    assert SoleExit(s, t') && SoleExit(s, t);
  }

  /** No request moves. */
  lemma {:induction false} PlacesStep(s: State, s': State, t: nat)
    requires Places(s) && Moves(s, s', t) && |s'.reqs| == |s.reqs| && s'.wq == s.wq
    requires Claim(s'.threads[t].pc) == Claim(s.threads[t].pc)
    requires PostsExit(s'.threads[t].pc) ==> PostsExit(s.threads[t].pc)
    requires Claim(s.threads[t].pc).Some? ==> ClaimPlace(s'.threads[t].pc, t) == ClaimPlace(s.threads[t].pc, t)
    requires forall r :: 0 <= r < |s.reqs| ==> s'.reqs[r].place == s.reqs[r].place
    requires forall l :: 0 <= l < |s.loops| ==> s'.loops[l].wq == s.loops[l].wq && s'.loops[l].local == s.loops[l].local
    ensures Places(s')
  {
    forall t' | 0 <= t' < |s'.threads| ensures ClaimOk(s', t') {
      assert ClaimOk(s, t');
    }
    forall t' | 0 <= t' < |s'.threads| ensures SoleExit(s', t') {
      ExitStep(s, s', t, t');
    }
    forall r | 0 <= r < |s'.reqs| ensures PlaceOk(s', r) {
      assert PlaceOk(s, r);
    }
    forall l | 0 <= l < |s'.loops| ensures LoopQueueOk(s', l) {
      assert LoopQueueOk(s, l);
    }
  }

  /** What a step may do to a request that another thread's loop is cancelling. */
  predicate Settles(req: Req, req': Req) {
    (Settled(req.place) ==> Settled(req'.place)) && (CancelDone(req) ==> CancelDone(req'))
  }

  predicate Untouched(s: State, s': State, t: nat, r: nat)
    requires r < |s.reqs| && r < |s'.reqs| && s.reqs[r].loop < |s.loops|
  {
    s'.reqs[r] == s.reqs[r] && Holder(s.reqs[r].place) != Some(t)
    && (s.loops[s.reqs[r].loop].thread != t || !s.reqs[r].place.Completed?)
  }

  lemma {:induction false} HistoryStep(s: State, s': State, t: nat)
    requires Shape(s) && History(s) && Moves(s, s', t) && CancelOk(s', t)
    requires forall r :: 0 <= r < |s.reqs| && ReqOk(s, r) ==>
               && (HistoryOk(s', r) || Untouched(s, s', t, r))
               && (s.loops[s.reqs[r].loop].thread == t || Settles(s.reqs[r], s'.reqs[r]))
    requires forall r :: |s.reqs| <= r < |s'.reqs| ==> HistoryOk(s', r)
    ensures History(s')
  {
    hide LoopOk, Claim;
    forall r | 0 <= r < |s'.reqs| ensures HistoryOk(s', r) {
      if r < |s.reqs| {
        assert HistoryOk(s, r) && ReqOk(s, r);
        if Untouched(s, s', t, r) {
          assert SameLoop(s.loops[s.reqs[r].loop], s'.loops[s.reqs[r].loop]);
        }
      }
    }
    forall t' | 0 <= t' < |s'.threads| ensures CancelOk(s', t') {
      assert CancelOk(s, t') && ThreadOk(s, t');
    }
  }

  /** Only the request `r0` changes, or was in the hands of `t`. */
  lemma {:induction false} OneHistory(s: State, s': State, t: nat, r0: nat)
    requires Shape(s) && Places(s) && History(s) && Moves(s, s', t) && r0 < |s.reqs| == |s'.reqs| && ReqOk(s, r0)
    requires CancelOk(s', t) && HistoryOk(s', r0)
    requires forall r :: 0 <= r < |s.reqs| && r != r0 ==> s'.reqs[r] == s.reqs[r]
    requires s.loops[s.reqs[r0].loop].thread == t || Settles(s.reqs[r0], s'.reqs[r0])
    requires var c := Claim(s.threads[t].pc); c.Some? ==> c.value == r0
    requires forall r: nat :: r != r0 && Granting(s.threads[t].pc, r) ==> Granting(s'.threads[t].pc, r)
    ensures History(s')
  {
    hide LoopOk;
    forall r | 0 <= r < |s.reqs| && ReqOk(s, r) ensures HistoryOk(s', r) {
      assert HistoryOk(s, r) && PlaceOk(s, r);
      assert SameLoop(s.loops[s.reqs[r].loop], s'.loops[s.reqs[r].loop]);
    }
    HistoryStep(s, s', t);
  }

  /** No request changes, and `t` has none in its hands. */
  lemma {:induction false} SameHistory(s: State, s': State, t: nat)
    requires Shape(s) && Places(s) && History(s) && Moves(s, s', t) && s'.reqs == s.reqs && CancelOk(s', t)
    requires Claim(s.threads[t].pc).None?
    requires forall r: nat :: Granting(s.threads[t].pc, r) ==> Granting(s'.threads[t].pc, r)
    ensures History(s')
  {
    hide LoopOk;
    forall r | 0 <= r < |s.reqs| && ReqOk(s, r) ensures HistoryOk(s', r) {
      assert HistoryOk(s, r) && PlaceOk(s, r);
      assert SameLoop(s.loops[s.reqs[r].loop], s'.loops[s.reqs[r].loop]);
    }
    HistoryStep(s, s', t);
  }

  lemma {:induction false} SleepersMove(s: State, s': State, t: nat)
    requires Moves(s, s', t)
    ensures var was, now := Sleeps(s.threads[t].pc), Sleeps(s'.threads[t].pc);
            |Sleepers(s')| == |Sleepers(s)| + (if now then 1 else 0) - (if was then 1 else 0)
  {
    var rest := Sleepers(s) - {t};
    assert Sleepers(s) == if Sleeps(s.threads[t].pc) then rest + {t} else rest;
    assert Sleepers(s') == if Sleeps(s'.threads[t].pc) then rest + {t} else rest;
  }

  /** Only a thread with the pool's lock stops being on its way, and a worker that has exited stays so. */
  predicate Steady(th: Thread, th': Thread) {
    (Rouses(th) && !Rouses(th') ==> HoldsMutex(th.pc)) && (Gone(th) ==> Gone(th'))
  }

  lemma {:induction false} StillRousedBut(s: State, s': State, t: nat, t': nat)
    requires Locks(s) && Moves(s, s', t) && Steady(s.threads[t], s'.threads[t])
    requires t' < |s.threads| && t' != t && s.threads[t'].pc == Seeking(Exit) && RousedBut(s, t')
    ensures RousedBut(s', t')
  {
    assert MutexOk(s, t') && MutexOk(s, t);
    if w :| 0 <= w < |s.threads| && w != t' && Rouses(s.threads[w]) {
      assert Rouses(s'.threads[w]);
    }
  }

  lemma {:induction false} SleepStep(s: State, s': State, t: nat)
    requires Sleep(s) && Locks(s) && Moves(s, s', t) && SeekOk(s', t)
    requires var was, now := Sleeps(s.threads[t].pc), Sleeps(s'.threads[t].pc);
             s'.idle == s.idle + (if now then 1 else 0) - (if was then 1 else 0)
    requires ExitMessage in s.wq ==> ExitMessage in s'.wq
    requires s.wq != [] && s'.wq == [] ==> HoldsMutex(s.threads[t].pc)
    requires Steady(s.threads[t], s'.threads[t]) && Roused(s')
    requires s'.threads[t].pc == Seeking(Exit) ==> RousedBut(s', t)
    ensures Sleep(s')
  {
    hide Roused, RousedBut, Sleepers;
    SleepersMove(s, s', t);
    forall t' | 0 <= t' < |s'.threads| ensures SeekOk(s', t') {
      assert SeekOk(s, t') && MutexOk(s, t') && MutexOk(s, t);
    }
    forall t' | 0 <= t' < |s'.threads| && s'.threads[t'].pc == Seeking(Exit) ensures RousedBut(s', t') {
      if t' != t {
        StillRousedBut(s, s', t, t');
      }
    }
  }

  /** Someone is still on the way: `t` itself, or whoever was before. */
  lemma {:induction false} StillRoused(s: State, s': State, t: nat)
    requires Sleep(s) && Moves(s, s', t)
    requires s'.wq == [] || Rouses(s'.threads[t]) || (s.wq != [] && !Rouses(s.threads[t]))
    requires Gone(s.threads[t]) ==> Gone(s'.threads[t])
    ensures Roused(s')
  {
    if s'.wq != [] && !Rouses(s'.threads[t]) {
      if w :| 0 <= w < |s.threads| && Rouses(s.threads[w]) {
        assert Rouses(s'.threads[w]);
      }
    } else if s'.wq != [] {
      assert Rouses(s'.threads[t]);
    }
  }

  /** What a step must see to in a loop: the handles it makes pending or takes out of a scan, the writes
      it has done, and the queue it has filled. */
  lemma {:induction false} WakeStep(s: State, s': State, t: nat)
    requires Shape(s) && Locks(s) && Wakeups(s) && Moves(s, s', t)
    requires forall l, h :: 0 <= l < |s.loops| && 0 <= h < |s.loops[l].pending| && HandleOk(s, l, h) ==>
               Noticed(s', l, h) || (Noticed(s, l, h) && SameSight(s.loops[l], s'.loops[l]) && s.loops[l].casBy[h] != t)
    requires forall l :: 0 <= l < |s.loops| && |s.loops[l].pending| >= 1 ==>
               Drains(s', l) || (s'.loops[l] == s.loops[l] && s.loops[l].lock != Some(t))
    ensures Wakeups(s')
  {
    hide LoopOk;
    forall l, h | 0 <= l < |s'.loops| && 0 <= h < |s'.loops[l].pending|
      && HandleOk(s', l, h) ensures Noticed(s', l, h) {
      assert SameLoop(s.loops[l], s'.loops[l]);
      assert HandleOk(s, l, h);
    }
    forall l | 0 <= l < |s'.loops| && |s'.loops[l].pending| >= 1 ensures Drains(s', l) {
      assert SameLoop(s.loops[l], s'.loops[l]);
      assert Drains(s, l);
    }
  }

  predicate SameSight(loop: Loop, loop': Loop) {
    loop'.pending == loop.pending && loop'.casBy == loop.casBy && loop'.readable == loop.readable
      && Todo(loop'.stage) == Todo(loop.stage)
  }

  /** A step of a thread that is not in `uv_async_send`, which changes at most the loop `l0`, and of that
      not what decides whether a pending handle is noticed. */
  lemma {:induction false} QuietWake(s: State, s': State, t: nat, l0: nat)
    requires Shape(s) && Locks(s) && Wakeups(s) && Moves(s, s', t) && !s.threads[t].pc.Sending?
    requires forall l :: 0 <= l < |s.loops| && l != l0 ==> s'.loops[l] == s.loops[l]
    requires l0 < |s.loops| ==> SameSight(s.loops[l0], s'.loops[l0]) && (|s.loops[l0].pending| >= 1 ==> Drains(s', l0))
    ensures Wakeups(s')
  {
    hide LoopOk;
    forall l, h | 0 <= l < |s.loops| && 0 <= h < |s.loops[l].pending| && HandleOk(s, l, h) ensures Noticed(s', l, h) {
      assert Noticed(s, l, h);
    }
    forall l | 0 <= l < |s.loops| && |s.loops[l].pending| >= 1 ensures Drains(s', l) {
      assert Drains(s, l);
    }
    WakeStep(s, s', t);
  }

  // ----- uv_async_send ----------------------------------------------------------------------------------

  predicate Sends(s: State, t: nat) {
    t < |s.threads| && ThreadOk(s, t) && s.threads[t].pc.Sending?
  }

  lemma {:induction false} SendMoves(s: State, t: nat)
    requires Sends(s, t)
    ensures Moves(s, StepSend(s, t), t)
  {
  }

  lemma {:induction false} SendShape(s: State, t: nat)
    requires Shape(s) && Sends(s, t)
    ensures Shape(StepSend(s, t))
  {
    var s' := StepSend(s, t);
    SendMoves(s, t);
    forall l | 0 <= l < |s.loops| ensures LoopOk(s', l) || (s'.loops[l] == s.loops[l] && s.loops[l].thread != t) {
      assert LoopOk(s, l);
    }
    ShapeStep(s, s', t);
  }

  lemma {:induction false} SendLocks(s: State, t: nat)
    requires Shape(s) && Locks(s) && Sends(s, t)
    ensures Locks(StepSend(s, t))
  {
    SendMoves(s, t);
    LocksStep(s, StepSend(s, t), t);
  }

  lemma {:induction false} SendPlaces(s: State, t: nat)
    requires Places(s) && Sends(s, t)
    ensures Places(StepSend(s, t))
  {
    SendMoves(s, t);
    PlacesStep(s, StepSend(s, t), t);
  }

  lemma {:induction false} SendHistory(s: State, t: nat)
    requires Shape(s) && Places(s) && History(s) && Sends(s, t)
    ensures History(StepSend(s, t))
  {
    SendMoves(s, t);
    assert CancelOk(s, t) && ClaimOk(s, t);
    if Claim(s.threads[t].pc).Some? {
      assert HistoryOk(s, Claim(s.threads[t].pc).value);
      OneHistory(s, StepSend(s, t), t, Claim(s.threads[t].pc).value);
    } else {
      SameHistory(s, StepSend(s, t), t);
    }
  }

  lemma {:induction false} SendSleep(s: State, t: nat)
    requires Sleep(s) && Locks(s) && Sends(s, t)
    ensures Sleep(StepSend(s, t))
  {
    SendMoves(s, t);
    StillRoused(s, StepSend(s, t), t);
    SleepStep(s, StepSend(s, t), t);
  }

  lemma {:induction false} SendWakeups(s: State, t: nat)
    requires Shape(s) && Locks(s) && Wakeups(s) && Sends(s, t)
    ensures Wakeups(StepSend(s, t))
  {
    var s' := StepSend(s, t);
    SendMoves(s, t);
    forall l, h | 0 <= l < |s.loops| && 0 <= h < |s.loops[l].pending| && HandleOk(s, l, h) ensures Noticed(s', l, h) {
      assert Noticed(s, l, h);
    }
    forall l | 0 <= l < |s.loops| && |s.loops[l].pending| >= 1 ensures Drains(s', l) {
      assert Drains(s, l) && LoopOk(s, l);
    }
    WakeStep(s, s', t);
  }

  // ----- Waking a worker --------------------------------------------------------------------------------

  lemma {:induction false} WakeKeeps(s: State, w: nat)
    requires Inv(s)
    ensures Inv(Wake(s, w))
  {
    var s' := Wake(s, w);
    if s' != s {
      assert ThreadOk(s, w);
      assert Moves(s, s', w);
      WokenShape(s, w);
      LocksStep(s, s', w);
      PlacesStep(s, s', w);
      WokenHistory(s, w);
      StillRoused(s, s', w);
      SleepStep(s, s', w);
      WokenWakeups(s, w);
    }
  }

  predicate Waits(s: State, w: nat) {
    w < |s.threads| && ThreadOk(s, w) && s.threads[w].pc == Seeking(Waiting)
  }

  lemma {:induction false} WokenShape(s: State, w: nat)
    requires Shape(s) && Waits(s, w)
    ensures Shape(Wake(s, w))
  {
    var s' := Wake(s, w);
    forall l | 0 <= l < |s.loops| ensures LoopOk(s', l) || (s'.loops[l] == s.loops[l] && s.loops[l].thread != w) {
      assert LoopOk(s, l);
    }
    ShapeStep(s, s', w);
  }

  lemma {:induction false} WokenHistory(s: State, w: nat)
    requires Shape(s) && Places(s) && History(s) && Waits(s, w)
    ensures History(Wake(s, w))
  {
    forall r | 0 <= r < |s.reqs| && ReqOk(s, r) ensures Untouched(s, Wake(s, w), w, r) {
      assert PlaceOk(s, r) && LoopOk(s, s.reqs[r].loop);
    }
    HistoryStep(s, Wake(s, w), w);
  }

  lemma {:induction false} WokenWakeups(s: State, w: nat)
    requires Shape(s) && Locks(s) && Wakeups(s) && Waits(s, w)
    ensures Wakeups(Wake(s, w))
  {
    QuietWake(s, Wake(s, w), w, |s.loops|);
  }

  /** A signal is not lost: after it, a worker is on its way, or all have exited. */
  lemma {:induction false} SignalRouses(s: State, w: nat)
    requires Sleep(s) && Shape(s) && Wakes(s, w)
    ensures var s' := Signalled(s, w);
            || (exists t :: 0 <= t < |s.threads| && s'.threads[t].role.Worker? && Rouses(s'.threads[t]))
            || (forall t :: 0 <= t < |s.threads| ==> Gone(s'.threads[t]))
  {
    var s' := Signalled(s, w);
    if s.idle > 0 {
      var t :| t in Sleepers(s);
      assert ThreadOk(s, t);
      if s.threads[t].pc == Seeking(Waiting) {
        assert ThreadOk(s, w);
        assert Rouses(s'.threads[w]);
      } else {
        assert Rouses(s'.threads[t]);
      }
    } else {
      forall t | 0 <= t < |s.threads| && s.threads[t].role.Worker?
        && !Gone(s.threads[t]) ensures Rouses(s'.threads[t]) {
        assert t !in Sleepers(s);
      }
    }
  }

  // ----- post -------------------------------------------------------------------------------------------

  predicate Posts(s: State, t: nat) {
    t < |s.threads| && ThreadOk(s, t) && s.threads[t].pc.Posting?
  }

  /** The next step of a `post` that has sent its signal. */
  function PostNext(s: State, t: nat): State
    requires Posts(s, t)
  {
    var pc := s.threads[t].pc;
    match pc.post
    case LockPool => Goto(s.(mutex := Some(t)), t, pc.(post := Append))
    case Append => StepPost(s, t, 0)
    case Signal => Goto(s, t, pc.(post := UnlockPool))
    case UnlockPool => Goto(s.(mutex := None), t, Resting)
  }

  lemma {:induction false} PostMoves(s: State, t: nat)
    requires Posts(s, t)
    ensures Moves(s, PostNext(s, t), t)
  {
  }

  lemma {:induction false} PostShape(s: State, t: nat)
    requires Shape(s) && Posts(s, t)
    ensures Shape(PostNext(s, t))
  {
    var s' := PostNext(s, t);
    PostMoves(s, t);
    forall l | 0 <= l < |s.loops| ensures LoopOk(s', l) || (s'.loops[l] == s.loops[l] && s.loops[l].thread != t) {
      assert LoopOk(s, l);
    }
    ShapeStep(s, s', t);
  }

  lemma {:induction false} PostLocks(s: State, t: nat)
    requires Shape(s) && Locks(s) && Posts(s, t) && (s.threads[t].pc.post.LockPool? ==> s.mutex.None?)
    ensures Locks(PostNext(s, t))
  {
    PostMoves(s, t);
    LocksStep(s, PostNext(s, t), t);
  }

  lemma {:induction false} PostPlaces(s: State, t: nat)
    requires Places(s) && Posts(s, t) && !s.threads[t].pc.post.Append?
    ensures Places(PostNext(s, t))
  {
    PostMoves(s, t);
    PlacesStep(s, PostNext(s, t), t);
  }

  /** The request, or the exit message, goes from the thread's hands into the queue. */
  lemma {:induction false} AppendPlaces(s: State, t: nat)
    requires Places(s) && Posts(s, t) && s.threads[t].pc.post.Append?
    ensures Places(PostNext(s, t))
  {
    var s' := PostNext(s, t);
    PostMoves(s, t);
    assert ClaimOk(s, t) && SoleExit(s, t);
    forall t' | 0 <= t' < |s'.threads| ensures ClaimOk(s', t') {
      assert ClaimOk(s, t');
    }
    forall t' | 0 <= t' < |s'.threads| ensures SoleExit(s', t') {
      ExitStep(s, s', t, t');
    }
    forall r | 0 <= r < |s'.reqs| ensures PlaceOk(s', r) {
      assert PlaceOk(s, r);
    }
    forall l | 0 <= l < |s'.loops| ensures LoopQueueOk(s', l) {
      assert LoopQueueOk(s, l);
    }
    assert s.threads[t].pc.item !in s.wq;
  }

  lemma {:induction false} PostHistory(s: State, t: nat)
    requires Shape(s) && Places(s) && History(s) && Posts(s, t)
    ensures History(PostNext(s, t))
  {
    PostMoves(s, t);
    assert CancelOk(s, t) && ClaimOk(s, t);
    if Claim(s.threads[t].pc).Some? {
      assert HistoryOk(s, s.threads[t].pc.item.r);
      OneHistory(s, PostNext(s, t), t, s.threads[t].pc.item.r);
    } else {
      SameHistory(s, PostNext(s, t), t);
    }
  }

  lemma {:induction false} PostWakeups(s: State, t: nat)
    requires Shape(s) && Locks(s) && Wakeups(s) && Posts(s, t)
    ensures Wakeups(PostNext(s, t))
  {
    PostMoves(s, t);
    QuietWake(s, PostNext(s, t), t, |s.loops|);
  }

  lemma {:induction false} PostSleep(s: State, t: nat)
    requires Sleep(s) && Locks(s) && Posts(s, t)
    requires s.threads[t].pc.post.Signal? ==>
               || (exists t' :: 0 <= t' < |s.threads| && s.threads[t'].role.Worker? && Rouses(s.threads[t']))
               || (forall t' :: 0 <= t' < |s.threads| ==> Gone(s.threads[t']))
    ensures Sleep(PostNext(s, t))
  {
    var s' := PostNext(s, t);
    PostMoves(s, t);
    if s.threads[t].pc.post.Signal? {
      if w :| 0 <= w < |s.threads| && s.threads[w].role.Worker? && Rouses(s.threads[w]) {
        assert Rouses(s'.threads[w]);
      }
    } else if s.threads[t].pc.post.Append? {
      assert Rouses(s'.threads[t]);
    } else {
      StillRoused(s, s', t);
    }
    SleepStep(s, s', t);
  }

  lemma {:induction false} PostKeeps(s: State, t: nat, w: nat)
    requires Inv(s) && Posts(s, t) && Wakes(s, w) && CanStep(s, t)
    ensures Inv(StepPost(s, t, w))
  {
    hide Shape, Locks, Places, History, Sleep, Wakeups;
    var s1 := s;
    if s.threads[t].pc.post.Signal? {
      s1 := Signalled(s, w);
      if s.idle > 0 {
        WakeKeeps(s, w);
      }
      SignalRouses(s, w);
    }
    SamePost(s, s1, t, w);
    PostShape(s1, t);
    PostLocks(s1, t);
    if s.threads[t].pc.post.Append? {
      AppendPlaces(s1, t);
    } else {
      PostPlaces(s1, t);
    }
    PostHistory(s1, t);
    PostSleep(s1, t);
    PostWakeups(s1, t);
  }

  lemma {:induction false} SamePost(s: State, s1: State, t: nat, w: nat)
    requires Posts(s, t) && s1 == if s.threads[t].pc.post.Signal? then Signalled(s, w) else s
    ensures Posts(s1, t) && s1.threads[t] == s.threads[t] && |s1.threads| == |s.threads| && s1.mutex == s.mutex
    ensures StepPost(s, t, w) == PostNext(s1, t)
  {
  }

  // ----- Taking a request out of a queue, and delivering one ----------------------------------------------

  lemma {:induction false} WithoutIn<T>(q: seq<T>, x: T, y: T)
    ensures y in Without(q, x) <==> y in q && y != x
  {
    if q != [] {
      assert q == [q[0]] + q[1..];
      WithoutIn(q[1..], x, y);
    }
  }

  lemma {:induction false} WithoutOnce<T>(q: seq<T>, x: T)
    requires Once(q)
    ensures Once(Without(q, x))
  {
    if q != [] {
      WithoutOnce(q[1..], x);
      WithoutIn(q[1..], x, q[0]);
    }
  }

  lemma {:induction false} WithoutQueue(s: State, l: nat, r: nat)
    requires l < |s.loops|
    ensures forall x: nat :: x in Without(s.loops[l].wq, r) <==> x in s.loops[l].wq && x != r
    ensures forall x: nat :: x in Without(s.loops[l].local, r) <==> x in s.loops[l].local && x != r
    ensures forall x: Item :: x in Without(s.wq, Job(r)) <==> x in s.wq && x != Job(r)
    ensures Once(s.loops[l].wq) ==> Once(Without(s.loops[l].wq, r))
    ensures Once(s.loops[l].local) ==> Once(Without(s.loops[l].local, r))
    ensures Once(s.wq) ==> Once(Without(s.wq, Job(r)))
    ensures s.wq == [] ==> Without(s.wq, Job(r)) == []
    ensures s.loops[l].wq == [] ==> Without(s.loops[l].wq, r) == []
  {
    forall x: nat ensures x in Without(s.loops[l].wq, r) <==> x in s.loops[l].wq && x != r {
      WithoutIn(s.loops[l].wq, r, x);
    }
    forall x: nat ensures x in Without(s.loops[l].local, r) <==> x in s.loops[l].local && x != r {
      WithoutIn(s.loops[l].local, r, x);
    }
    forall x: Item ensures x in Without(s.wq, Job(r)) <==> x in s.wq && x != Job(r) {
      WithoutIn(s.wq, Job(r), x);
    }
    if Once(s.loops[l].wq) { WithoutOnce(s.loops[l].wq, r); }
    if Once(s.loops[l].local) { WithoutOnce(s.loops[l].local, r); }
    if Once(s.wq) { WithoutOnce(s.wq, Job(r)); }
  }

  /** A request goes from a thread's hands into the completion queue of its loop. */
  lemma {:induction false} DeliverPlaces(s: State, t: nat, r0: nat, pc: Pc)
    requires Places(s) && t < |s.threads| && ReqOk(s, r0) && Claim(s.threads[t].pc) == Some(r0)
    requires Claim(pc).None? && !PostsExit(pc)
    ensures Places(Goto(Delivered(s, r0), t, pc))
  {
    var s' := Goto(Delivered(s, r0), t, pc);
    assert Moves(s, s', t);
    assert ClaimOk(s, t);
    forall t' | 0 <= t' < |s'.threads| ensures ClaimOk(s', t') {
      assert ClaimOk(s, t');
    }
    forall t' | 0 <= t' < |s'.threads| ensures SoleExit(s', t') {
      ExitStep(s, s', t, t');
    }
    forall r | 0 <= r < |s'.reqs| ensures PlaceOk(s', r) {
      assert PlaceOk(s, r);
    }
    forall l | 0 <= l < |s'.loops| ensures LoopQueueOk(s', l) {
      assert LoopQueueOk(s, l);
    }
  }

  /** A request goes from a queue into the hands of the thread that cancels it. */
  lemma {:induction false} TakenOutPlaces(s: State, t: nat, r0: nat, pc: Pc)
    requires Places(s) && t < |s.threads| && ReqOk(s, r0) && Claim(s.threads[t].pc).None?
    requires s.reqs[r0].place.Queued? || s.reqs[r0].place.Completed?
    requires Claim(pc) == Some(r0) && pc.Cancelling? && !PostsExit(pc)
    ensures Places(Goto(TakenOut(s, t, r0), t, pc))
  {
    hide Without;
    var s' := Goto(TakenOut(s, t, r0), t, pc);
    WithoutQueue(s, s.reqs[r0].loop, r0);
    assert Moves(s, s', t);
    forall t' | 0 <= t' < |s'.threads| ensures ClaimOk(s', t') {
      assert ClaimOk(s, t');
    }
    forall t' | 0 <= t' < |s'.threads| ensures SoleExit(s', t') {
      ExitStep(s, s', t, t');
    }
    forall r | 0 <= r < |s'.reqs| ensures PlaceOk(s', r) {
      assert PlaceOk(s, r);
    }
    forall l | 0 <= l < |s'.loops| ensures LoopQueueOk(s', l) {
      assert LoopQueueOk(s, l);
    }
  }

  // ----- uv__work_cancel --------------------------------------------------------------------------------

  predicate Tries(s: State, t: nat) {
    t < |s.threads| && ThreadOk(s, t) && s.threads[t].pc.Cancelling? && Trying(s.threads[t].pc.cancel)
  }

  lemma {:induction false} TryMoves(s: State, t: nat)
    requires Tries(s, t)
    ensures Moves(s, StepTry(s, t), t)
  {
  }

  lemma {:induction false} TryShape(s: State, t: nat)
    requires Shape(s) && Tries(s, t)
    ensures Shape(StepTry(s, t))
  {
    var s' := StepTry(s, t);
    TryMoves(s, t);
    forall l | 0 <= l < |s.loops| ensures LoopOk(s', l) || (s'.loops[l] == s.loops[l] && s.loops[l].thread != t) {
      assert LoopOk(s, l);
    }
    ShapeStep(s, s', t);
  }

  lemma {:induction false} TryLocks(s: State, t: nat)
    requires Shape(s) && Locks(s) && Tries(s, t) && CanStep(s, t)
    ensures Locks(StepTry(s, t))
  {
    var l := s.reqs[s.threads[t].pc.r].loop;
    TryMoves(s, t);
    assert LockOk(s, l, t) && LoopOk(s, l);
    OneLock(s, StepTry(s, t), t, l);
  }

  lemma {:induction false} TryPlaces(s: State, t: nat)
    requires Shape(s) && Places(s) && History(s) && Tries(s, t)
    ensures Places(StepTry(s, t))
  {
    TryMoves(s, t);
    var pc := s.threads[t].pc;
    var req := s.reqs[pc.r];
    assert CancelOk(s, t) && HistoryOk(s, pc.r) && ClaimOk(s, t);
    if pc.cancel.Decide? && req.linked && req.work != Cleared {
      TakenOutPlaces(s, t, pc.r, Cancelling(GiveLoop, pc.r, true));
    } else {
      PlacesStep(s, StepTry(s, t), t);
    }
  }

  lemma {:induction false} TryHistory(s: State, t: nat)
    requires Shape(s) && Places(s) && History(s) && Tries(s, t)
    ensures History(StepTry(s, t))
  {
    hide Without, LoopOk, Locks, Sleep, Wakeups, PoolQueueOk, LoopQueueOk, SoleExit, StepTry, Moves, CancelOk,
         HistoryOk, Settles, Granting;
    TryMoves(s, t);
    TryOne(s, t);
    OneHistory(s, StepTry(s, t), t, s.threads[t].pc.r);
  }

  /** A cancellation concerns one request. */
  lemma {:induction false} TryOne(s: State, t: nat)
    requires Shape(s) && Places(s) && History(s) && Tries(s, t)
    ensures var s', r0 := StepTry(s, t), s.threads[t].pc.r;
            && r0 < |s.reqs| == |s'.reqs| && ReqOk(s, r0) && |s'.threads| == |s.threads| && CancelOk(s', t)
            && HistoryOk(s', r0) && (forall r :: 0 <= r < |s.reqs| && r != r0 ==> s'.reqs[r] == s.reqs[r])
            && (s.loops[s.reqs[r0].loop].thread == t || Settles(s.reqs[r0], s'.reqs[r0]))
            && (var c := Claim(s.threads[t].pc); c.Some? ==> c.value == r0)
            && forall r: nat :: r != r0 && Granting(s.threads[t].pc, r) ==> Granting(s'.threads[t].pc, r)
  {
    hide Without, LoopOk, Locks, Sleep, Wakeups, PoolQueueOk, LoopQueueOk, SoleExit;
    var r := s.threads[t].pc.r;
    assert CancelOk(s, t) && ClaimOk(s, t) && HistoryOk(s, r) && PlaceOk(s, r);
  }

  lemma {:induction false} TrySleep(s: State, t: nat)
    requires Sleep(s) && Locks(s) && Tries(s, t)
    ensures Sleep(StepTry(s, t))
  {
    hide Without;
    TryMoves(s, t);
    WithoutQueue(s, s.reqs[s.threads[t].pc.r].loop, s.threads[t].pc.r);
    StillRoused(s, StepTry(s, t), t);
    SleepStep(s, StepTry(s, t), t);
  }

  lemma {:induction false} TryWakeups(s: State, t: nat)
    requires Shape(s) && Locks(s) && Wakeups(s) && Tries(s, t) && CanStep(s, t)
    ensures Wakeups(StepTry(s, t))
  {
    hide Without;
    var r := s.threads[t].pc.r;
    var l := s.reqs[r].loop;
    TryMoves(s, t);
    WithoutQueue(s, l, r);
    assert LockOk(s, l, t) && LoopOk(s, l) && Drains(s, l);
    QuietWake(s, StepTry(s, t), t, l);
  }

  lemma {:induction false} TryKeeps(s: State, t: nat)
    requires Inv(s) && Tries(s, t) && CanStep(s, t)
    ensures Inv(StepTry(s, t))
  {
    hide Shape, Locks, Places, History, Sleep, Wakeups;
    TryShape(s, t);
    TryLocks(s, t);
    TryPlaces(s, t);
    TryHistory(s, t);
    TrySleep(s, t);
    TryWakeups(s, t);
  }

  predicate Grants(s: State, t: nat) {
    t < |s.threads| && ThreadOk(s, t) && s.threads[t].pc.Cancelling? && !Trying(s.threads[t].pc.cancel)
  }

  lemma {:induction false} GrantMoves(s: State, t: nat)
    requires Grants(s, t)
    ensures Moves(s, StepGrant(s, t), t)
  {
  }

  lemma {:induction false} GrantShape(s: State, t: nat)
    requires Shape(s) && Grants(s, t)
    ensures Shape(StepGrant(s, t))
  {
    var s' := StepGrant(s, t);
    GrantMoves(s, t);
    forall l | 0 <= l < |s.loops| ensures LoopOk(s', l) || (s'.loops[l] == s.loops[l] && s.loops[l].thread != t) {
      assert LoopOk(s, l);
    }
    ShapeStep(s, s', t);
  }

  lemma {:induction false} GrantLocks(s: State, t: nat)
    requires Shape(s) && Locks(s) && Grants(s, t) && CanStep(s, t)
    ensures Locks(StepGrant(s, t))
  {
    var l := s.reqs[s.threads[t].pc.r].loop;
    GrantMoves(s, t);
    assert LockOk(s, l, t) && LoopOk(s, l);
    OneLock(s, StepGrant(s, t), t, l);
  }

  lemma {:induction false} GrantPlaces(s: State, t: nat)
    requires Shape(s) && Places(s) && History(s) && Grants(s, t)
    ensures Places(StepGrant(s, t))
  {
    GrantMoves(s, t);
    var pc := s.threads[t].pc;
    var req := s.reqs[pc.r];
    assert CancelOk(s, t) && HistoryOk(s, pc.r) && ClaimOk(s, t);
    if pc.cancel.Complete? {
      DeliverPlaces(s, t, pc.r, Sending(Check, req.loop, 0, ThenReturn(pc.r)));
    } else {
      PlacesStep(s, StepGrant(s, t), t);
    }
  }

  lemma {:induction false} GrantHistory(s: State, t: nat)
    requires Shape(s) && Places(s) && History(s) && Grants(s, t)
    ensures History(StepGrant(s, t))
  {
    GrantMoves(s, t);
    assert CancelOk(s, t) && ClaimOk(s, t) && HistoryOk(s, s.threads[t].pc.r);
    OneHistory(s, StepGrant(s, t), t, s.threads[t].pc.r);
  }

  lemma {:induction false} GrantSleep(s: State, t: nat)
    requires Sleep(s) && Locks(s) && Grants(s, t)
    ensures Sleep(StepGrant(s, t))
  {
    GrantMoves(s, t);
    StillRoused(s, StepGrant(s, t), t);
    SleepStep(s, StepGrant(s, t), t);
  }

  lemma {:induction false} GrantWakeups(s: State, t: nat)
    requires Shape(s) && Locks(s) && Wakeups(s) && Grants(s, t) && CanStep(s, t)
    ensures Wakeups(StepGrant(s, t))
  {
    var l := s.reqs[s.threads[t].pc.r].loop;
    GrantMoves(s, t);
    assert LockOk(s, l, t) && LoopOk(s, l) && Drains(s, l);
    QuietWake(s, StepGrant(s, t), t, l);
  }

  lemma {:induction false} GrantKeeps(s: State, t: nat)
    requires Inv(s) && Grants(s, t) && CanStep(s, t)
    ensures Inv(StepGrant(s, t))
  {
    hide Shape, Locks, Places, History, Sleep, Wakeups;
    GrantShape(s, t);
    GrantLocks(s, t);
    GrantPlaces(s, t);
    GrantHistory(s, t);
    GrantSleep(s, t);
    GrantWakeups(s, t);
  }

  // ----- Workers ------------------------------------------------------------------------------------------

  predicate Works(s: State, t: nat) {
    t < |s.threads| && ThreadOk(s, t) && s.threads[t].pc.Working?
  }

  lemma {:induction false} WorkMoves(s: State, t: nat)
    requires Works(s, t)
    ensures Moves(s, StepWork(s, t), t)
  {
  }

  lemma {:induction false} WorkShape(s: State, t: nat)
    requires Shape(s) && Works(s, t)
    ensures Shape(StepWork(s, t))
  {
    var s' := StepWork(s, t);
    WorkMoves(s, t);
    forall l | 0 <= l < |s.loops| ensures LoopOk(s', l) || (s'.loops[l] == s.loops[l] && s.loops[l].thread != t) {
      assert LoopOk(s, l);
    }
    ShapeStep(s, s', t);
  }

  lemma {:induction false} WorkLocks(s: State, t: nat)
    requires Shape(s) && Locks(s) && Works(s, t) && CanStep(s, t)
    ensures Locks(StepWork(s, t))
  {
    var l := s.reqs[s.threads[t].pc.r].loop;
    WorkMoves(s, t);
    assert LockOk(s, l, t) && LoopOk(s, l);
    OneLock(s, StepWork(s, t), t, l);
  }

  lemma {:induction false} WorkPlaces(s: State, t: nat)
    requires Places(s) && Works(s, t)
    ensures Places(StepWork(s, t))
  {
    WorkMoves(s, t);
    var pc := s.threads[t].pc;
    assert ClaimOk(s, t);
    if pc.work.Deliver? {
      DeliverPlaces(s, t, pc.r, Sending(Check, s.reqs[pc.r].loop, 0, ThenUnlock(pc.r)));
    } else {
      PlacesStep(s, StepWork(s, t), t);
    }
  }

  lemma {:induction false} WorkHistory(s: State, t: nat)
    requires Shape(s) && Places(s) && History(s) && Works(s, t)
    ensures History(StepWork(s, t))
  {
    WorkMoves(s, t);
    var r := s.threads[t].pc.r;
    assert CancelOk(s, t) && ClaimOk(s, t) && HistoryOk(s, r);
    if s.threads[t].pc.work.GiveQueue? {
      SameHistory(s, StepWork(s, t), t);
    } else {
      OneHistory(s, StepWork(s, t), t, r);
    }
  }

  lemma {:induction false} WorkSleep(s: State, t: nat)
    requires Sleep(s) && Locks(s) && Works(s, t)
    ensures Sleep(StepWork(s, t))
  {
    WorkMoves(s, t);
    StillRoused(s, StepWork(s, t), t);
    SleepStep(s, StepWork(s, t), t);
  }

  lemma {:induction false} WorkWakeups(s: State, t: nat)
    requires Shape(s) && Locks(s) && Wakeups(s) && Works(s, t) && CanStep(s, t)
    ensures Wakeups(StepWork(s, t))
  {
    hide StepWork, Moves, SameSight, Drains, Noticed;
    WorkMoves(s, t);
    WorkSight(s, t);
    QuietWake(s, StepWork(s, t), t, s.reqs[s.threads[t].pc.r].loop);
  }

  /** A worker's step changes what can be seen of one loop. */
  lemma {:induction false} WorkSight(s: State, t: nat)
    requires Shape(s) && Locks(s) && Wakeups(s) && Works(s, t) && CanStep(s, t)
    ensures !s.threads[t].pc.Sending?
    ensures var s', l0 := StepWork(s, t), s.reqs[s.threads[t].pc.r].loop;
            && l0 < |s.loops| == |s'.loops| && (forall l :: 0 <= l < |s.loops| && l != l0 ==> s'.loops[l] == s.loops[l])
            && SameSight(s.loops[l0], s'.loops[l0]) && (|s.loops[l0].pending| >= 1 ==> Drains(s', l0))
  {
    hide Noticed;
    var l := s.reqs[s.threads[t].pc.r].loop;
    assert LockOk(s, l, t) && LoopOk(s, l) && Drains(s, l);
  }

  lemma {:induction false} WorkKeeps(s: State, t: nat)
    requires Inv(s) && Works(s, t) && CanStep(s, t)
    ensures Inv(StepWork(s, t))
  {
    hide Shape, Locks, Places, History, Sleep, Wakeups;
    WorkShape(s, t);
    WorkLocks(s, t);
    WorkPlaces(s, t);
    WorkHistory(s, t);
    WorkSleep(s, t);
    WorkWakeups(s, t);
  }

  // ----- Workers without a request ------------------------------------------------------------------------

  predicate Seeks(s: State, t: nat) {
    && t < |s.threads| && ThreadOk(s, t) && s.threads[t].pc.Seeking?
    && var step := s.threads[t].pc.seek;
       && !step.Waiting? && !step.Exited?
       && (step.Woken? ==> s.idle > 0)
       && (step.Take? ==> s.wq != [] && (s.wq[0].Job? ==> ReqOk(s, s.wq[0].r)))
  }

  /** The next step of a worker that has sent its signal if it was to exit. */
  function SeekNext(s: State, t: nat): State
    requires Seeks(s, t)
  {
    if s.threads[t].pc.seek.Take? && s.wq[0] == ExitMessage then Goto(s, t, Seeking(Exit)) else StepSeek(s, t, 0)
  }

  lemma {:induction false} SeekMoves(s: State, t: nat)
    requires Seeks(s, t)
    ensures Moves(s, SeekNext(s, t), t)
  {
  }

  lemma {:induction false} SeekShape(s: State, t: nat)
    requires Shape(s) && Seeks(s, t)
    ensures Shape(SeekNext(s, t))
  {
    var s' := SeekNext(s, t);
    SeekMoves(s, t);
    forall l | 0 <= l < |s.loops| ensures LoopOk(s', l) || (s'.loops[l] == s.loops[l] && s.loops[l].thread != t) {
      assert LoopOk(s, l);
    }
    ShapeStep(s, s', t);
  }

  lemma {:induction false} SeekLocks(s: State, t: nat)
    requires Shape(s) && Locks(s) && Seeks(s, t) && CanStep(s, t)
    ensures Locks(SeekNext(s, t))
  {
    SeekMoves(s, t);
    LocksStep(s, SeekNext(s, t), t);
  }

  lemma {:induction false} SeekPlaces(s: State, t: nat)
    requires Places(s) && Seeks(s, t)
    ensures Places(SeekNext(s, t))
  {
    SeekMoves(s, t);
    if s.threads[t].pc.seek.Take? && s.wq[0].Job? {
      TakePlaces(s, t);
    } else {
      PlacesStep(s, SeekNext(s, t), t);
    }
  }

  /** The first request of the queue goes into the hands of a worker. */
  lemma {:induction false} TakePlaces(s: State, t: nat)
    requires Places(s) && Seeks(s, t) && s.threads[t].pc.seek.Take? && s.wq[0].Job?
    ensures Places(SeekNext(s, t))
  {
    var s' := SeekNext(s, t);
    SeekMoves(s, t);
    assert s.wq == [s.wq[0]] + s.wq[1..];
    assert s.wq[0] in s.wq;
    forall t' | 0 <= t' < |s'.threads| ensures ClaimOk(s', t') {
      assert ClaimOk(s, t');
    }
    forall t' | 0 <= t' < |s'.threads| ensures SoleExit(s', t') {
      ExitStep(s, s', t, t');
    }
    forall r | 0 <= r < |s'.reqs| ensures PlaceOk(s', r) {
      assert PlaceOk(s, r);
    }
    forall l | 0 <= l < |s'.loops| ensures LoopQueueOk(s', l) {
      assert LoopQueueOk(s, l);
    }
  }

  lemma {:induction false} SeekHistory(s: State, t: nat)
    requires Shape(s) && Places(s) && History(s) && Seeks(s, t)
    ensures History(SeekNext(s, t))
  {
    SeekMoves(s, t);
    assert CancelOk(s, t);
    if s.threads[t].pc.seek.Take? && s.wq[0].Job? {
      assert s.wq[0] in s.wq && HistoryOk(s, s.wq[0].r);
      OneHistory(s, SeekNext(s, t), t, s.wq[0].r);
    } else {
      SameHistory(s, SeekNext(s, t), t);
    }
  }

  lemma {:induction false} SeekWakeups(s: State, t: nat)
    requires Shape(s) && Locks(s) && Wakeups(s) && Seeks(s, t)
    ensures Wakeups(SeekNext(s, t))
  {
    SeekMoves(s, t);
    QuietWake(s, SeekNext(s, t), t, |s.loops|);
  }

  lemma {:induction false} SeekSleep(s: State, t: nat)
    requires Sleep(s) && Locks(s) && Places(s) && Seeks(s, t)
    requires s.threads[t].pc.seek.Take? && s.wq[0] == ExitMessage ==> RousedBut(s, t)
    ensures Sleep(SeekNext(s, t))
  {
    var s', step := SeekNext(s, t), s.threads[t].pc.seek;
    SeekMoves(s, t);
    assert SeekOk(s, t) && MutexOk(s, t);
    if step.Take? {
      assert s.wq == [s.wq[0]] + s.wq[1..];
      assert s.wq[0] == ExitMessage ==> ExitMessage in s.wq;
      if s.wq[0] == ExitMessage {
        StillRousedBut0(s, s', t);
      }
    }
    if step.Exit? {
      ExitRouses(s, s', t);
    } else {
      StillRoused(s, s', t);
    }
    SleepStep(s, s', t);
  }

  lemma {:induction false} StillRousedBut0(s: State, s': State, t: nat)
    requires Moves(s, s', t) && RousedBut(s, t)
    ensures RousedBut(s', t)
  {
    if w :| 0 <= w < |s.threads| && w != t && Rouses(s.threads[w]) {
      assert Rouses(s'.threads[w]);
    }
  }

  /** The last worker to exit leaves nobody behind, and any other has passed the signal on. */
  lemma {:induction false} ExitRouses(s: State, s': State, t: nat)
    requires Sleep(s) && Moves(s, s', t) && s.threads[t].pc == Seeking(Exit) && s'.threads[t].pc == Seeking(Exited)
    ensures Roused(s')
  {
    assert RousedBut(s, t);
    if w :| 0 <= w < |s.threads| && w != t && Rouses(s.threads[w]) {
      assert Rouses(s'.threads[w]);
    }
  }

  /** What `uv_cond_signal` does for a worker that is about to exit. */
  lemma {:induction false} SignalOthers(s: State, t: nat, w: nat)
    requires Sleep(s) && Shape(s) && Seeks(s, t) && s.threads[t].pc.seek.Take? && Wakes(s, w)
    ensures RousedBut(Wake(s, w), t)
  {
    var s' := Wake(s, w);
    if t' :| 0 <= t' < |s.threads| && t' != t && !Gone(s.threads[t']) {
      assert ThreadOk(s, t');
      if s.threads[t'].pc == Seeking(Waiting) {
        assert ThreadOk(s, w);
        assert Rouses(s'.threads[w]);
      } else {
        assert Rouses(s'.threads[t']);
      }
    } else {
      forall t' | 0 <= t' < |s'.threads| && t' != t ensures Gone(s'.threads[t']) {
        assert Gone(s.threads[t']);
      }
    }
  }

  lemma {:induction false} SeekReady(s: State, t: nat)
    requires Shape(s) && Places(s) && Sleep(s) && t < |s.threads| && ThreadOk(s, t) && s.threads[t].pc.Seeking?
             && CanStep(s, t)
    ensures Seeks(s, t)
  {
    assert ThreadOk(s, t) && SeekOk(s, t);
    if s.threads[t].pc.seek.Woken? {
      assert t in Sleepers(s);
    }
    if s.threads[t].pc.seek.Take? {
      assert s.wq[0] in s.wq;
      assert s.wq[0].Job? ==> ReqOk(s, s.wq[0].r);
    }
  }

  lemma {:induction false} SeekKeeps(s: State, t: nat, w: nat)
    requires Inv(s) && Seeks(s, t) && Wakes(s, w) && CanStep(s, t)
    ensures Inv(StepSeek(s, t, w))
  {
    hide Shape, Locks, Places, History, Sleep, Wakeups;
    var s1 := s;
    if s.threads[t].pc.seek.Take? && s.wq[0] == ExitMessage {
      s1 := Wake(s, w);
      WakeKeeps(s, w);
      SignalOthers(s, t, w);
    }
    SameSeek(s, s1, t, w);
    SeekShape(s1, t);
    SeekLocks(s1, t);
    SeekPlaces(s1, t);
    SeekHistory(s1, t);
    SeekSleep(s1, t);
    SeekWakeups(s1, t);
  }

  lemma {:induction false} SameSeek(s: State, s1: State, t: nat, w: nat)
    requires Seeks(s, t) && s1 == if s.threads[t].pc.seek.Take? && s.wq[0] == ExitMessage then Wake(s, w) else s
    ensures Seeks(s1, t) && s1.threads[t] == s.threads[t] && s1.mutex == s.mutex && s1.wq == s.wq
    ensures StepSeek(s, t, w) == SeekNext(s1, t)
  {
  }

  // ----- Loop threads -------------------------------------------------------------------------------------

  predicate Turns(s: State, l: nat) {
    && l < |s.loops| && s.loops[l].thread < |s.threads|
    && s.threads[s.loops[l].thread] == Thread(LoopThread(l), Resting)
    && |s.loops[l].pending| >= 1 && |s.loops[l].casBy| == |s.loops[l].pending|
    && (s.loops[l].stage.Scanning? && s.loops[l].stage.todo != [] ==> s.loops[l].stage.todo[0] < |s.loops[l].pending|)
    && (s.loops[l].stage.Draining? && s.loops[l].local != [] ==> ReqOk(s, s.loops[l].local[0]))
  }

  lemma {:induction false} TurnReady(s: State, t: nat)
    requires Shape(s) && Places(s) && t < |s.threads| && ThreadOk(s, t) && s.threads[t].pc.Resting? && CanStep(s, t)
    ensures s.threads[t].role.LoopThread? && Turns(s, s.threads[t].role.l)
  {
    var l := s.threads[t].role.l;
    var loop := s.loops[l];
    assert LoopOk(s, l) && LoopQueueOk(s, l);
    if loop.stage.Scanning? && loop.stage.todo != [] {
      assert loop.stage.todo[0] in Todo(loop.stage);
    }
    if loop.stage.Draining? && loop.local != [] {
      assert loop.local[0] in loop.local;
      assert ReqOk(s, loop.local[0]);
    }
  }

  lemma {:induction false} TurnMoves(s: State, l: nat)
    requires Turns(s, l)
    ensures Moves(s, StepLoop(s, l), s.loops[l].thread)
  {
  }

  /** A scan goes through the handles in order and puts each back. */
  lemma {:induction false} TurnHandles(s: State, l: nat)
    requires Turns(s, l) && LoopOk(s, l)
    ensures forall h: nat :: h in StepLoop(s, l).loops[l].handles || h in Todo(StepLoop(s, l).loops[l].stage)
                             <==> h < |s.loops[l].pending|
  {
    var stage := s.loops[l].stage;
    if stage.Scanning? && stage.todo != [] {
      assert stage.todo == [stage.todo[0]] + stage.todo[1..];
    }
  }

  lemma {:induction false} TurnShape(s: State, l: nat)
    requires Shape(s) && Turns(s, l) && StageCanStep(s.loops[l])
    ensures Shape(StepLoop(s, l))
  {
    var s', t := StepLoop(s, l), s.loops[l].thread;
    TurnMoves(s, l);
    assert LoopOk(s, l) && ThreadOk(s, t);
    TurnHandles(s, l);
    forall l' | 0 <= l' < |s.loops| ensures LoopOk(s', l') || (s'.loops[l'] == s.loops[l'] && s.loops[l'].thread != t) {
      assert LoopOk(s, l');
    }
    ShapeStep(s, s', t);
  }

  lemma {:induction false} TurnLocks(s: State, l: nat)
    requires Shape(s) && Locks(s) && Turns(s, l) && StageCanStep(s.loops[l])
    ensures Locks(StepLoop(s, l))
  {
    hide StepLoop, Moves, Passes, HoldsLoop, HoldsMutex, Drainer, LockOk, MutexOk;
    var s', t := StepLoop(s, l), s.loops[l].thread;
    TurnMoves(s, l);
    TurnPasses(s, l);
    LocksStep(s, s', t);
  }

  /** A loop's thread takes and gives its own lock only. */
  lemma {:induction false} TurnPasses(s: State, l: nat)
    requires Shape(s) && Locks(s) && Turns(s, l) && StageCanStep(s.loops[l])
    ensures var s', t := StepLoop(s, l), s.loops[l].thread;
            && t < |s.threads| && t < |s'.threads| && |s'.loops| == |s.loops|
            && Passes(s.mutex, s'.mutex, t, HoldsMutex(s.threads[t].pc), HoldsMutex(s'.threads[t].pc))
            && forall l' :: 0 <= l' < |s.loops| ==>
                 && Passes(s.loops[l'].lock, s'.loops[l'].lock, t, HoldsLoop(s, t, l'), HoldsLoop(s', t, l'))
                 && (s.loops[l'].thread == t || Drainer(s'.loops[l']) == Drainer(s.loops[l']))
  {
    var s', t := StepLoop(s, l), s.loops[l].thread;
    forall l' | 0 <= l' < |s.loops| && l' != l ensures s.loops[l'].thread != t && s'.loops[l'] == s.loops[l'] {
      assert LoopOk(s, l');
    }
    assert LockOk(s, l, t);
  }

  predicate DrainsOne(loop: Loop) { loop.stage.Draining? && loop.local != [] }

  lemma {:induction false} TurnPlaces(s: State, l: nat)
    requires Shape(s) && Places(s) && Turns(s, l)
    ensures Places(StepLoop(s, l))
  {
    var s', t := StepLoop(s, l), s.loops[l].thread;
    TurnMoves(s, l);
    if s.loops[l].stage.DrainMove? {
      MovePlaces(s, l);
    } else if DrainsOne(s.loops[l]) {
      FinishPlaces(s, l);
    } else {
      PlacesStep(s, s', t);
    }
  }

  /** The whole completion queue becomes the list to drain. */
  lemma {:induction false} MovePlaces(s: State, l: nat)
    requires Shape(s) && Places(s) && Turns(s, l) && s.loops[l].stage.DrainMove?
    ensures Places(StepLoop(s, l))
  {
    var s', t := StepLoop(s, l), s.loops[l].thread;
    TurnMoves(s, l);
    assert LoopOk(s, l);
    forall t' | 0 <= t' < |s'.threads| ensures ClaimOk(s', t') {
      assert ClaimOk(s, t');
    }
    forall t' | 0 <= t' < |s'.threads| ensures SoleExit(s', t') {
      ExitStep(s, s', t, t');
    }
    forall r | 0 <= r < |s'.reqs| ensures PlaceOk(s', r) {
      assert PlaceOk(s, r);
    }
    forall l' | 0 <= l' < |s'.loops| ensures LoopQueueOk(s', l') {
      assert LoopQueueOk(s, l');
    }
  }

  /** The first request of the list is finished. */
  lemma {:induction false} FinishPlaces(s: State, l: nat)
    requires Shape(s) && Places(s) && Turns(s, l) && DrainsOne(s.loops[l])
    ensures Places(StepLoop(s, l))
  {
    var s', t := StepLoop(s, l), s.loops[l].thread;
    var local := s.loops[l].local;
    TurnMoves(s, l);
    assert local == [local[0]] + local[1..];
    assert LoopQueueOk(s, l) && local[0] in local;
    forall t' | 0 <= t' < |s'.threads| ensures ClaimOk(s', t') {
      assert ClaimOk(s, t');
    }
    forall t' | 0 <= t' < |s'.threads| ensures SoleExit(s', t') {
      ExitStep(s, s', t, t');
    }
    forall r | 0 <= r < |s'.reqs| ensures PlaceOk(s', r) {
      assert PlaceOk(s, r);
    }
    forall l' | 0 <= l' < |s'.loops| ensures LoopQueueOk(s', l') {
      assert LoopQueueOk(s, l');
    }
  }

  lemma {:induction false} TurnHistory(s: State, l: nat)
    requires Shape(s) && Places(s) && History(s) && Turns(s, l)
    ensures History(StepLoop(s, l))
  {
    var s', t := StepLoop(s, l), s.loops[l].thread;
    TurnMoves(s, l);
    assert CancelOk(s, t);
    if DrainsOne(s.loops[l]) {
      var r := s.loops[l].local[0];
      assert LoopQueueOk(s, l) && r in s.loops[l].local && HistoryOk(s, r);
      OneHistory(s, s', t, r);
    } else {
      SameHistory(s, s', t);
    }
  }

  lemma {:induction false} TurnSleep(s: State, l: nat)
    requires Sleep(s) && Locks(s) && Turns(s, l)
    ensures Sleep(StepLoop(s, l))
  {
    TurnMoves(s, l);
    StillRoused(s, StepLoop(s, l), s.loops[l].thread);
    SleepStep(s, StepLoop(s, l), s.loops[l].thread);
  }

  /** A pending handle is noticed: a scan that reads the descriptor has all handles to come, and one that
      takes a handle clears it. */
  lemma {:induction false} TurnNoticed(s: State, l: nat, h: nat)
    requires Shape(s) && Turns(s, l) && HandleOk(s, l, h) && Noticed(s, l, h)
    ensures Noticed(StepLoop(s, l), l, h)
  {
    assert LoopOk(s, l);
    var stage := s.loops[l].stage;
    if stage.Scanning? && stage.todo != [] {
      assert stage.todo == [stage.todo[0]] + stage.todo[1..];
    }
  }

  lemma {:induction false} TurnOnly(s: State, l: nat)
    requires Turns(s, l)
    ensures var s' := StepLoop(s, l);
            s'.threads == s.threads && |s'.loops| == |s.loops| && forall l' :: 0 <= l' < |s.loops| && l' != l ==>
                s'.loops[l'] == s.loops[l']
  {
  }

  lemma {:induction false} TurnDrains(s: State, l: nat)
    requires Shape(s) && Locks(s) && Turns(s, l) && Drains(s, l)
    ensures |StepLoop(s, l).loops| == |s.loops| && |StepLoop(s, l).loops[l].pending| >= 1 && Drains(StepLoop(s, l), l)
  {
    assert LockOk(s, l, s.loops[l].thread);
  }

  lemma {:induction false} TurnWakeups(s: State, l: nat)
    requires Shape(s) && Locks(s) && Wakeups(s) && Turns(s, l)
    ensures Wakeups(StepLoop(s, l))
  {
    hide StepLoop, LoopOk;
    var s', t := StepLoop(s, l), s.loops[l].thread;
    TurnMoves(s, l);
    TurnOnly(s, l);
    forall l', h | 0 <= l' < |s.loops| && 0 <= h < |s.loops[l'].pending|
      && HandleOk(s, l', h) ensures Noticed(s', l', h) {
      assert Noticed(s, l', h);
      if l' == l {
        TurnNoticed(s, l, h);
      }
    }
    forall l' | 0 <= l' < |s.loops| && |s.loops[l'].pending| >= 1 ensures Drains(s', l') {
      assert Drains(s, l');
      if l' == l {
        TurnDrains(s, l);
      }
    }
    WakeStep(s, s', t);
  }

  lemma {:induction false} TurnKeeps(s: State, l: nat)
    requires Inv(s) && Turns(s, l) && StageCanStep(s.loops[l])
    ensures Inv(StepLoop(s, l))
  {
    hide Shape, Locks, Places, History, Sleep, Wakeups;
    TurnShape(s, l);
    TurnLocks(s, l);
    TurnPlaces(s, l);
    TurnHistory(s, l);
    TurnSleep(s, l);
    TurnWakeups(s, l);
  }

  // ----- Calls --------------------------------------------------------------------------------------------

  predicate Calls(s: State, t: nat, c: UserCall) {
    MayCall(s, t, c) && ThreadOk(s, t)
  }

  lemma {:induction false} CallMoves(s: State, t: nat, c: UserCall)
    requires Calls(s, t, c)
    ensures Moves(s, StepCall(s, t, c), t)
  {
  }

  lemma {:induction false} CallShape(s: State, t: nat, c: UserCall)
    requires Shape(s) && Calls(s, t, c)
    ensures Shape(StepCall(s, t, c))
  {
    var s' := StepCall(s, t, c);
    CallMoves(s, t, c);
    forall l | 0 <= l < |s.loops| ensures LoopOk(s', l) || (s'.loops[l] == s.loops[l] && s.loops[l].thread != t) {
      assert LoopOk(s, l);
    }
    ShapeStep(s, s', t);
  }

  lemma {:induction false} CallLocks(s: State, t: nat, c: UserCall)
    requires Shape(s) && Locks(s) && Calls(s, t, c)
    ensures Locks(StepCall(s, t, c))
  {
    CallMoves(s, t, c);
    LocksStep(s, StepCall(s, t, c), t);
  }

  lemma {:induction false} CallPlaces(s: State, t: nat, c: UserCall)
    requires Places(s) && Calls(s, t, c)
    ensures Places(StepCall(s, t, c))
  {
    var s' := StepCall(s, t, c);
    CallMoves(s, t, c);
    forall t' | 0 <= t' < |s'.threads| ensures ClaimOk(s', t') {
      assert ClaimOk(s, t');
    }
    forall t' | 0 <= t' < |s'.threads| ensures SoleExit(s', t') {
      assert SoleExit(s, t') && SoleExit(s, t);
    }
    forall r | 0 <= r < |s'.reqs| ensures PlaceOk(s', r) {
      assert r < |s.reqs| ==> PlaceOk(s, r);
    }
    forall l | 0 <= l < |s'.loops| ensures LoopQueueOk(s', l) {
      assert LoopQueueOk(s, l);
    }
  }

  /** The thread of a loop that makes a call has no request of the loop in its hands, nor has anyone who
      could be submitting or cancelling one. */
  lemma {:induction false} CancelSettled(s: State, t: nat, r: nat)
    requires Shape(s) && Places(s) && Calls(s, t, Cancel(r))
    ensures Settled(s.reqs[r].place)
  {
    assert PlaceOk(s, r);
    var p := s.reqs[r].place;
    if p.Submitting? || p.BeingCancelled? {
      assert ClaimOk(s, p.t) && ThreadOk(s, p.t);
    }
  }

  lemma {:induction false} CallHistory(s: State, t: nat, c: UserCall)
    requires Shape(s) && Places(s) && History(s) && Calls(s, t, c)
    ensures History(StepCall(s, t, c))
  {
    var s' := StepCall(s, t, c);
    CallMoves(s, t, c);
    assert CancelOk(s, t) && ClaimOk(s, t);
    if c.Cancel? {
      CancelSettled(s, t, c.r);
    }
    forall r | 0 <= r < |s.reqs| && ReqOk(s, r) ensures HistoryOk(s', r) {
      assert HistoryOk(s, r) && PlaceOk(s, r);
    }
    HistoryStep(s, s', t);
  }

  lemma {:induction false} CallSleep(s: State, t: nat, c: UserCall)
    requires Sleep(s) && Locks(s) && Calls(s, t, c)
    ensures Sleep(StepCall(s, t, c))
  {
    CallMoves(s, t, c);
    StillRoused(s, StepCall(s, t, c), t);
    SleepStep(s, StepCall(s, t, c), t);
  }

  lemma {:induction false} CallWakeups(s: State, t: nat, c: UserCall)
    requires Shape(s) && Locks(s) && Wakeups(s) && Calls(s, t, c)
    ensures Wakeups(StepCall(s, t, c))
  {
    CallMoves(s, t, c);
    QuietWake(s, StepCall(s, t, c), t, |s.loops|);
  }

  lemma {:induction false} CallKeeps(s: State, t: nat, c: UserCall)
    requires Inv(s) && Calls(s, t, c)
    ensures Inv(StepCall(s, t, c))
  {
    hide Shape, Locks, Places, History, Sleep, Wakeups;
    CallShape(s, t, c);
    CallLocks(s, t, c);
    CallPlaces(s, t, c);
    CallHistory(s, t, c);
    CallSleep(s, t, c);
    CallWakeups(s, t, c);
  }

  // ----- Every step ---------------------------------------------------------------------------------------

  /** What can happen next: a thread takes its next step, `w` being the worker that a signal in it wakes;
      user code makes a call; a waiting worker wakes up for no reason. */
  datatype Action = Run(t: nat, w: nat) | Call(t: nat, c: UserCall) | WakeUp(t: nat)

  ghost predicate Enabled(s: State, a: Action) {
    match a
    case Run(t, w) => t < |s.threads| && ThreadOk(s, t) && CanStep(s, t) && StepReady(s, t) && Wakes(s, w)
    case Call(t, c) => Calls(s, t, c)
    case WakeUp(t) => t < |s.threads| && s.threads[t].pc == Seeking(Waiting)
  }

  predicate StepReady(s: State, t: nat)
    requires t < |s.threads|
  {
    var th := s.threads[t];
    (th.pc.Seeking? ==> Seeks(s, t)) && (th.pc.Resting? ==> th.role.LoopThread? && Turns(s, th.role.l))
  }

  function Next(s: State, a: Action): State
    requires Enabled(s, a)
  {
    match a
    case Call(t, c) => StepCall(s, t, c)
    case WakeUp(t) => Wake(s, t)
    case Run(t, w) =>
      match s.threads[t].pc
      case Resting => StepLoop(s, s.threads[t].role.l)
      case Sending(_, _, _, _) => StepSend(s, t)
      case Posting(_, _) => StepPost(s, t, w)
      case Cancelling(step, _, _) => if Trying(step) then StepTry(s, t) else StepGrant(s, t)
      case Seeking(_) => StepSeek(s, t, w)
      case Working(_, _) => StepWork(s, t)
  }

  lemma {:induction false} SendKeeps(s: State, t: nat)
    requires Inv(s) && Sends(s, t)
    ensures Inv(StepSend(s, t))
  {
    hide Shape, Locks, Places, History, Sleep, Wakeups;
    SendShape(s, t);
    SendLocks(s, t);
    SendPlaces(s, t);
    SendHistory(s, t);
    SendSleep(s, t);
    SendWakeups(s, t);
  }

  lemma {:induction false} NextKeeps(s: State, a: Action)
    requires Inv(s) && Enabled(s, a)
    ensures Inv(Next(s, a))
  {
    hide Shape, Locks, Places, History, Sleep, Wakeups;
    match a
    case Call(t, c) => CallKeeps(s, t, c);
    case WakeUp(t) => WakeKeeps(s, t);
    case Run(t, w) =>
      match s.threads[t].pc
      case Resting => TurnKeeps(s, s.threads[t].role.l);
      case Sending(_, _, _, _) => SendKeeps(s, t);
      case Posting(_, _) => PostKeeps(s, t, w);
      case Cancelling(step, _, _) => if Trying(step) { TryKeeps(s, t); } else { GrantKeeps(s, t); }
      case Seeking(_) => SeekKeeps(s, t, w);
      case Working(_, _) => WorkKeeps(s, t);
  }
}

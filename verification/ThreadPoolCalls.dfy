/** What the calls of the thread pool come to: a submitted request is called back, a cancel decides, and a cleanup makes
    all workers leave, after they have served what was posted before. */
module ThreadPoolCalls {
  import opened Wrappers
  import opened ThreadPool
  import opened ThreadPoolInvariant
  import opened ThreadPoolSafety
  import opened ThreadPoolOrder
  import opened ThreadPoolAsync

  // ----- Submitting ------------------------------------------------------------------------------------------

  lemma {:induction false} SubmitAdds(s: State, a: Action, t: nat)
    requires Enabled(s, a) && a == Call(t, Submit)
    ensures |Next(s, a).reqs| == |s.reqs| + 1
  {
  }

  lemma {:induction false} RequestsStay(states: seq<State>, acts: seq<Action>, i: nat, n: nat)
    requires IsRun(states, acts) && i <= n < |states|
    ensures |states[i].reqs| <= |states[n].reqs|
    decreases n
  {
    hide Init, Enabled, Next;
    if i < n {
      RequestsStay(states, acts, i, n - 1);
      assert Enabled(states[n - 1], acts[n - 1]) && states[n] == Next(states[n - 1], acts[n - 1]);
      NextOwners(states[n - 1], acts[n - 1]);
    }
  }

  /** Every submission is of a new request, and at rest its callback has run. */
  lemma {:induction false} SubmitFinishes(states: seq<State>, acts: seq<Action>, i: nat, n: nat, t: nat)
    requires IsRun(states, acts) && i < n <= |acts| && acts[i] == Call(t, Submit)
    requires Stopped(states[n]) && ExitMessage !in states[n].wq
    requires exists u :: 0 <= u < |states[n].threads| && states[n].threads[u].role.Worker?
    ensures var r := |states[i].reqs|; r < |states[n].reqs| && states[n].reqs[r].calls == 1
  {
    hide Init, Inv, Next, Enabled, Stopped;
    assert Enabled(states[i], acts[i]) && states[i + 1] == Next(states[i], acts[i]);
    SubmitAdds(states[i], acts[i], t);
    RequestsStay(states, acts, i + 1, n);
    NothingLeft(states, acts, n, |states[i].reqs|);
  }

  // ----- Cancelling ------------------------------------------------------------------------------------------

  /** A cancel of the request on its way to its decision. */
  predicate ToDecide(pc: Pc, r: nat) {
    pc.Cancelling? && pc.r == r && (pc.cancel.TakePool? || pc.cancel.TakeLoop? || pc.cancel.Decide?)
  }

  /** The thread decides whether the request can still be withdrawn. */
  ghost predicate Decides(s: State, a: Action, t: nat, r: nat) {
    && a.Run? && a.t == t && t < |s.threads|
    && s.threads[t].pc.Cancelling? && s.threads[t].pc.cancel.Decide? && s.threads[t].pc.r == r
  }

  lemma {:induction false} CancelBegins(s: State, a: Action, t: nat, r: nat)
    requires Enabled(s, a) && a == Call(t, Cancel(r))
    ensures t < |Next(s, a).threads| && ToDecide(Next(s, a).threads[t].pc, r)
  {
  }

  lemma {:induction false} CancelGoesOn(s: State, a: Action, t: nat, r: nat)
    requires Enabled(s, a) && t < |s.threads| && ToDecide(s.threads[t].pc, r)
    ensures t < |Next(s, a).threads|
    ensures ToDecide(Next(s, a).threads[t].pc, r) || Decides(s, a, t, r)
  {
    hide Without;
    NextStays(s, a);
    if a.t == t {
      assert a.Run?;
    }
  }

  lemma {:induction false} CancelUndecided(states: seq<State>, acts: seq<Action>, i: nat, n: nat, t: nat, r: nat)
    requires IsRun(states, acts) && i < n <= |acts| && acts[i] == Call(t, Cancel(r))
    ensures (t < |states[n].threads| && ToDecide(states[n].threads[t].pc, r))
            || exists m :: i < m < n && Decides(states[m], acts[m], t, r)
    decreases n
  {
    hide Init, Enabled, Next, ToDecide, Decides;
    assert Enabled(states[n - 1], acts[n - 1]) && states[n] == Next(states[n - 1], acts[n - 1]);
    if n == i + 1 {
      CancelBegins(states[i], acts[i], t, r);
    } else {
      CancelUndecided(states, acts, i, n - 1, t, r);
      if t < |states[n - 1].threads| && ToDecide(states[n - 1].threads[t].pc, r) {
        CancelGoesOn(states[n - 1], acts[n - 1], t, r);
      }
    }
  }

  /** At rest every cancel has decided; `ThreadPoolSafety.CancelSucceeds` says how. */
  lemma {:induction false} CancelComesToDecide(states: seq<State>, acts: seq<Action>, i: nat, n: nat, t: nat, r: nat)
    requires IsRun(states, acts) && i < n <= |acts| && acts[i] == Call(t, Cancel(r)) && Stopped(states[n])
    ensures exists m :: i < m < n && Decides(states[m], acts[m], t, r)
  {
    hide Init, Inv, Enabled, Next, Stopped, Decides;
    CancelUndecided(states, acts, i, n, t, r);
    RunInv(states, acts, n);
    if t < |states[n].threads| {
      StoppedThread(states[n], t);
    }
  }

  // ----- Cleaning up -----------------------------------------------------------------------------------------

  /** The thread is on its way to post the message to exit. */
  predicate ToPost(pc: Pc) {
    pc == Posting(LockPool, ExitMessage) || pc == Posting(Append, ExitMessage)
  }

  lemma {:induction false} CleanupBegins(s: State, a: Action, t: nat)
    requires Enabled(s, a) && a == Call(t, Cleanup)
    ensures t < |Next(s, a).threads| && ToPost(Next(s, a).threads[t].pc)
  {
  }

  lemma {:induction false} CleanupGoesOn(s: State, a: Action, t: nat)
    requires Enabled(s, a) && t < |s.threads| && ToPost(s.threads[t].pc)
    ensures t < |Next(s, a).threads|
    ensures ToPost(Next(s, a).threads[t].pc) || Appends(s, a, ExitMessage)
  {
    NextStays(s, a);
    if a.t == t {
      assert a.Run?;
    }
  }

  lemma {:induction false} NotYetPosted(states: seq<State>, acts: seq<Action>, i: nat, n: nat, t: nat)
    requires IsRun(states, acts) && i < n <= |acts| && acts[i] == Call(t, Cleanup)
    ensures (t < |states[n].threads| && ToPost(states[n].threads[t].pc))
            || exists m :: i < m < n && Appends(states[m], acts[m], ExitMessage)
    decreases n
  {
    hide Init, Enabled, Next, ToPost, Appends;
    assert Enabled(states[n - 1], acts[n - 1]) && states[n] == Next(states[n - 1], acts[n - 1]);
    if n == i + 1 {
      CleanupBegins(states[i], acts[i], t);
    } else {
      NotYetPosted(states, acts, i, n - 1, t);
      if t < |states[n - 1].threads| && ToPost(states[n - 1].threads[t].pc) {
        CleanupGoesOn(states[n - 1], acts[n - 1], t);
      }
    }
  }

  /** Once posted, the message stays in the queue. */
  lemma {:induction false} MessageStays(states: seq<State>, acts: seq<Action>, m: nat, n: nat)
    requires IsRun(states, acts) && m < n <= |acts| && Appends(states[m], acts[m], ExitMessage)
    ensures ExitMessage in states[n].wq
    decreases n
  {
    hide Init, Enabled, Next, Appends, PoolStep;
    assert Enabled(states[n - 1], acts[n - 1]) && states[n] == Next(states[n - 1], acts[n - 1]);
    PoolQueueStep(states[n - 1], acts[n - 1]);
    if n == m + 1 {
      PostedLast(states[m], acts[m], states[n]);
    } else {
      MessageStays(states, acts, m, n - 1);
      KeepsMessage(states[n - 1], acts[n - 1], states[n]);
    }
  }

  lemma {:induction false} PostedLast(s: State, a: Action, s': State)
    requires PoolStep(s, a, s') && Appends(s, a, ExitMessage)
    ensures ExitMessage in s'.wq
  {
    assert s'.wq == s.wq + [ExitMessage];
  }

  lemma {:induction false} KeepsMessage(s: State, a: Action, s': State)
    requires PoolStep(s, a, s') && ExitMessage in s.wq
    ensures ExitMessage in s'.wq
  {
    hide Appends, Finds, Withdraws;
    if r: nat :| Finds(s, a, s', Job(r)) && s.wq != [] && s'.wq == s.wq[1..] {
      assert s.wq[0] == Job(r) && s.wq == [s.wq[0]] + s.wq[1..];
    } else if r: nat :| Withdraws(s, a, s', r) && s'.wq == Without(s.wq, Job(r)) {
      InWithout(s.wq, Job(r), ExitMessage);
    }
  }

  /** At rest with the message posted, all workers have left. */
  lemma {:induction false} AllLeft(s: State, t: nat)
    requires Inv(s) && Stopped(s) && ExitMessage in s.wq && t < |s.threads| && s.threads[t].role.Worker?
    ensures s.threads[t].pc == Seeking(Exited)
  {
    forall u | 0 <= u < |s.threads| ensures !Rouses(s.threads[u]) {
      StoppedThread(s, u);
    }
    assert Roused(s);
    assert Gone(s.threads[t]);
  }

  /** A cleanup comes to this: the message to exit is posted, at rest all workers have left, and every request that was
      posted before the message has been called back. */
  lemma {:induction false} CleanupCompletes(states: seq<State>, acts: seq<Action>, i: nat, n: nat, t: nat, u: nat)
    returns (m: nat)
    requires IsRun(states, acts) && i < n <= |acts| && acts[i] == Call(t, Cleanup) && Stopped(states[n])
    requires u < |states[n].threads| && states[n].threads[u].role.Worker?
    ensures i < m < n && Appends(states[m], acts[m], ExitMessage)
    ensures states[n].threads[u].pc == Seeking(Exited)
    ensures forall j: nat, x: nat :: j < m && Appends(states[j], acts[j], Job(x)) ==>
              x < |states[n].reqs| && states[n].reqs[x].calls == 1
  {
    hide Init, Inv, Enabled, Next, Stopped, Appends;
    RunInv(states, acts, n);
    NotYetPosted(states, acts, i, n, t);
    if t < |states[n].threads| {
      StoppedThread(states[n], t);
    }
    m :| i < m < n && Appends(states[m], acts[m], ExitMessage);
    MessageStays(states, acts, m, n);
    AllLeft(states[n], u);
    forall j: nat, x: nat | j < m && Appends(states[j], acts[j], Job(x))
      ensures x < |states[n].reqs| && states[n].reqs[x].calls == 1
    {
      NoneLeftBehind(states, acts, j, m, n, x, u);
      SubmittedSince(states, acts, j, n, x);
      CalledBack(states[n], x);
    }
  }

  /** At rest a request that is not in the pool's queue has been called back. */
  lemma {:induction false} CalledBack(s: State, x: nat)
    requires Inv(s) && Stopped(s) && x < |s.reqs| && Job(x) !in s.wq
    ensures s.reqs[x].calls == 1
  {
    assert PlaceOk(s, x) && HistoryOk(s, x) && ReqOk(s, x);
    var p := s.reqs[x].place;
    if Holder(p).Some? {
      StoppedThread(s, Holder(p).value);
      assert false;
    }
    StoppedLoop(s, s.reqs[x].loop);
  }

  // ----- A beginning -----------------------------------------------------------------------------------------

  /** A pool with any number of workers, of outside threads, and of loops, with any number of handles more than one. */
  function Beginning(workers: nat, loops: seq<nat>, outside: nat): State {
    var threads := seq(workers, _ => Thread(Worker, Seeking(Enter)))
                 + seq(|loops|, l requires 0 <= l < |loops| => Thread(LoopThread(l), Resting))
                 + seq(outside, _ => Thread(Outside, Resting));
    State(None, [], 0, threads, seq(|loops|, l requires 0 <= l < |loops| => FirstLoop(workers + l, loops[l])), [])
  }

  /** A loop whose handles are numbered. */
  function FirstLoop(thread: nat, more: nat): Loop {
    Loop(thread, None, [], [], seq(more + 1, h requires 0 <= h < more + 1 => h), seq(more + 1, _ => false),
         seq(more + 1, _ => 0), false, Polling)
  }

  lemma {:induction false} BeginningIs(workers: nat, loops: seq<nat>, outside: nat)
    ensures Init(Beginning(workers, loops, outside))
  {
    var s := Beginning(workers, loops, outside);
    forall t | 0 <= t < |s.threads| ensures InitThread(s, t) {
    }
    forall l | 0 <= l < |s.loops| ensures InitLoop(s, l) {
      assert s.loops[l] == FirstLoop(workers + l, loops[l]);
      assert s.threads[workers + l] == Thread(LoopThread(l), Resting);
      forall h: nat ensures h in s.loops[l].handles <==> h < |s.loops[l].pending| {
        if h < |s.loops[l].pending| {
          assert s.loops[l].handles[h] == h;
        }
      }
    }
  }
}

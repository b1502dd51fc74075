/** In which order the thread pool serves: over runs, and in terms of where threads are when they post, find, deliver
    and call back. */
module ThreadPoolOrder {
  import opened Wrappers
  import opened ThreadPool
  import opened ThreadPoolInvariant
  import opened ThreadPoolSafety

  // ----- What a step of a thread does, by where the thread is ------------------------------------------------

  /** The thread that takes the step is where it posts the item. */
  ghost predicate Appends(s: State, a: Action, item: Item) {
    a.Run? && a.t < |s.threads| && s.threads[a.t].pc == Posting(Append, item)
  }

  /** A worker at the queue finds the item: it goes on to work on a request, or to exit. */
  ghost predicate Finds(s: State, a: Action, s': State, item: Item) {
    && a.Run? && a.t < |s.threads| && a.t < |s'.threads| && s.threads[a.t].pc == Seeking(Take)
    && s'.threads[a.t].pc == (match item case Job(r) => Working(Leave, r) case ExitMessage => Seeking(Exit))
  }

  /** A cancel finds that the request can still be taken back. */
  ghost predicate Withdraws(s: State, a: Action, s': State, r: nat) {
    && a.Run? && a.t < |s.threads| && a.t < |s'.threads|
    && s.threads[a.t].pc.Cancelling? && s.threads[a.t].pc.cancel.Decide? && s.threads[a.t].pc.r == r
    && s'.threads[a.t].pc == Cancelling(GiveLoop, r, true)
  }

  /** A worker that has run the request, or a cancel of it, is where it puts it on its loop's queue. */
  ghost predicate Delivers(s: State, a: Action, r: nat) {
    && a.Run? && a.t < |s.threads|
    && (s.threads[a.t].pc == Working(Deliver, r)
        || (s.threads[a.t].pc.Cancelling? && s.threads[a.t].pc.cancel.Complete? && s.threads[a.t].pc.r == r))
  }

  /** The callback of the request runs. */
  ghost predicate CallsBack(s: State, s': State, r: nat) {
    r < |s.reqs| && r < |s'.reqs| && s.reqs[r].calls == 0 && s'.reqs[r].calls == 1
  }

  // ----- Ahead in a queue ------------------------------------------------------------------------------------

  /** `x` is in the queue, and no `y` stands before it. */
  predicate Ahead<T(==)>(q: seq<T>, x: T, y: T) {
    q != [] && (q[0] == x || (q[0] != y && Ahead(q[1..], x, y)))
  }

  lemma {:induction false} AheadIn<T>(q: seq<T>, x: T, y: T)
    requires Ahead(q, x, y)
    ensures x in q
  {
    if q[0] != x {
      AheadIn(q[1..], x, y);
    }
  }

  /** One that is added is behind all others. */
  lemma {:induction false} AheadOfNew<T>(q: seq<T>, x: T, y: T)
    requires x in q && y !in q
    ensures Ahead(q + [y], x, y)
  {
    if q[0] != x {
      assert (q + [y])[1..] == q[1..] + [y];
      AheadOfNew(q[1..], x, y);
    }
  }

  lemma {:induction false} AheadMore<T>(q: seq<T>, z: T, x: T, y: T)
    requires Ahead(q, x, y)
    ensures Ahead(q + [z], x, y)
  {
    if q[0] != x {
      assert (q + [z])[1..] == q[1..] + [z];
      AheadMore(q[1..], z, x, y);
    }
  }

  lemma {:induction false} AheadWithout<T>(q: seq<T>, z: T, x: T, y: T)
    requires Ahead(q, x, y) && z != x
    ensures Ahead(Without(q, z), x, y)
  {
    if q[0] != x {
      AheadWithout(q[1..], z, x, y);
      assert q[0] != z ==> Without(q, z)[1..] == Without(q[1..], z);
    }
  }

  lemma {:induction false} InWithout<T>(q: seq<T>, z: T, x: T)
    ensures x in Without(q, z) <==> x in q && x != z
  {
    if q != [] {
      assert q == [q[0]] + q[1..];
      InWithout(q[1..], z, x);
    }
  }

  lemma {:induction false} WithoutBoth<T>(a: seq<T>, b: seq<T>, z: T)
    ensures Without(a + b, z) == Without(a, z) + Without(b, z)
  {
    if a == [] {
      assert a + b == b;
    } else {
      assert (a + b)[1..] == a[1..] + b;
      WithoutBoth(a[1..], b, z);
    }
  }

  // ----- The pool's queue ------------------------------------------------------------------------------------

  /** From `s` to `s'` the pool's queue gets what is posted at its end, loses what is found at its beginning or what is
      withdrawn, or stays as it is. */
  ghost predicate PoolStep(s: State, a: Action, s': State) {
    && (s'.wq == s.wq
        || (exists item :: Appends(s, a, item) && s'.wq == s.wq + [item])
        || (exists r: nat :: Finds(s, a, s', Job(r)) && s.wq != [] && s'.wq == s.wq[1..])
        || (exists r: nat :: Withdraws(s, a, s', r) && s'.wq == Without(s.wq, Job(r))))
    && (forall item :: Appends(s, a, item) ==> s'.wq == s.wq + [item])
    && (forall item :: Finds(s, a, s', item) ==> s.wq != [] && s.wq[0] == item)
    && (forall r: nat :: Finds(s, a, s', Job(r)) ==> s'.wq == s.wq[1..])
    && (forall r: nat :: Withdraws(s, a, s', r) ==> s'.wq == Without(s.wq, Job(r)))
  }

  lemma {:induction false} PostPool(s: State, t: nat, w: nat)
    requires Posts(s, t)
    ensures PoolStep(s, Run(t, w), StepPost(s, t, w))
  {
    if s.threads[t].pc.post.Append? {
      assert Appends(s, Run(t, w), s.threads[t].pc.item);
    }
  }

  lemma {:induction false} SeekPool(s: State, t: nat, w: nat)
    requires Seeks(s, t)
    ensures PoolStep(s, Run(t, w), StepSeek(s, t, w))
  {
    if s.threads[t].pc.seek.Take? && s.wq[0].Job? {
      assert Finds(s, Run(t, w), StepSeek(s, t, w), Job(s.wq[0].r));
    }
  }

  lemma {:induction false} TryPool(s: State, t: nat, w: nat)
    requires Tries(s, t)
    ensures PoolStep(s, Run(t, w), StepTry(s, t))
  {
    hide Without;
    var r := s.threads[t].pc.r;
    if s.threads[t].pc.cancel.Decide? && s.reqs[r].linked && s.reqs[r].work != Cleared {
      assert Withdraws(s, Run(t, w), StepTry(s, t), r);
    }
  }

  lemma {:induction false} OtherPool(s: State, a: Action)
    requires Enabled(s, a)
    requires a.Run? ==> var pc := s.threads[a.t].pc;
                        !pc.Posting? && !pc.Seeking? && !(pc.Cancelling? && Trying(pc.cancel))
    ensures Next(s, a).wq == s.wq && PoolStep(s, a, Next(s, a))
  {
    hide Without;
  }

  /** What a step does to the pool's queue. */
  lemma {:induction false} PoolQueueStep(s: State, a: Action)
    requires Enabled(s, a)
    ensures PoolStep(s, a, Next(s, a))
  {
    hide PoolStep, StepLoop, StepSend, StepPost, StepTry, StepGrant, StepSeek, StepWork, StepCall;
    if a.Run? && s.threads[a.t].pc.Posting? {
      PostPool(s, a.t, a.w);
    } else if a.Run? && s.threads[a.t].pc.Seeking? {
      SeekPool(s, a.t, a.w);
    } else if a.Run? && s.threads[a.t].pc.Cancelling? && Trying(s.threads[a.t].pc.cancel) {
      TryPool(s, a.t, a.w);
    } else {
      OtherPool(s, a);
    }
  }

  // ----- What no step changes --------------------------------------------------------------------------------

  /** The same threads and loops, and each request belongs to the loop it belonged to. */
  ghost predicate SameOwners(s: State, s': State) {
    && |s'.threads| == |s.threads| && |s'.loops| == |s.loops| && |s.reqs| <= |s'.reqs|
    && forall r :: 0 <= r < |s.reqs| ==> s'.reqs[r].loop == s.reqs[r].loop
  }

  lemma {:induction false} OtherOwners(s: State, t: nat, w: nat, c: UserCall)
    ensures Posts(s, t) ==> SameOwners(s, StepPost(s, t, w))
    ensures Sends(s, t) ==> SameOwners(s, StepSend(s, t))
    ensures MayCall(s, t, c) ==> SameOwners(s, StepCall(s, t, c))
    ensures SameOwners(s, Wake(s, t))
  {
  }

  lemma {:induction false} CancelOwners(s: State, t: nat)
    ensures Tries(s, t) ==> SameOwners(s, StepTry(s, t))
    ensures Grants(s, t) ==> SameOwners(s, StepGrant(s, t))
  {
    hide Without;
  }

  lemma {:induction false} WorkOwners(s: State, t: nat, w: nat)
    ensures Works(s, t) ==> SameOwners(s, StepWork(s, t))
    ensures Seeks(s, t) ==> SameOwners(s, StepSeek(s, t, w))
  {
  }

  lemma {:induction false} TurnOwners(s: State, l: nat)
    requires Turns(s, l)
    ensures SameOwners(s, StepLoop(s, l))
  {
  }

  lemma {:induction false} NextOwners(s: State, a: Action)
    requires Enabled(s, a)
    ensures SameOwners(s, Next(s, a))
  {
    hide StepLoop, StepSend, StepPost, StepTry, StepGrant, StepSeek, StepWork, StepCall, MayCall, SameOwners;
    match a
    case Call(t, c) => OtherOwners(s, t, 0, c);
    case WakeUp(t) => OtherOwners(s, t, 0, Submit);
    case Run(t, w) =>
      OtherOwners(s, t, w, Submit);
      CancelOwners(s, t);
      WorkOwners(s, t, w);
      if s.threads[t].pc.Resting? {
        TurnOwners(s, s.threads[t].role.l);
      }
  }

  // ----- A request is posted once ----------------------------------------------------------------------------

  /** Its submission is over. */
  predicate Submitted(s: State, r: nat) {
    r < |s.reqs| && !s.reqs[r].place.Submitting?
  }

  lemma {:induction false} TurnSubmitted(s: State, l: nat, r: nat)
    requires Turns(s, l) && Submitted(s, r)
    ensures Submitted(StepLoop(s, l), r)
  {
  }

  lemma {:induction false} WorkSubmitted(s: State, t: nat, w: nat, r: nat)
    requires Submitted(s, r)
    ensures Works(s, t) ==> Submitted(StepWork(s, t), r)
    ensures Seeks(s, t) ==> Submitted(StepSeek(s, t, w), r)
  {
  }

  lemma {:induction false} CancelSubmitted(s: State, t: nat, r: nat)
    requires Submitted(s, r)
    ensures Tries(s, t) ==> Submitted(StepTry(s, t), r)
    ensures Grants(s, t) ==> Submitted(StepGrant(s, t), r)
  {
    hide Without;
  }

  lemma {:induction false} OtherSubmitted(s: State, t: nat, w: nat, r: nat, c: UserCall)
    requires Submitted(s, r)
    ensures Posts(s, t) ==> Submitted(StepPost(s, t, w), r)
    ensures Sends(s, t) ==> Submitted(StepSend(s, t), r)
    ensures MayCall(s, t, c) ==> Submitted(StepCall(s, t, c), r)
  {
  }

  lemma {:induction false} StaysSubmitted(s: State, a: Action, r: nat)
    requires Enabled(s, a) && Submitted(s, r)
    ensures Submitted(Next(s, a), r)
  {
    hide StepLoop, StepSend, StepPost, StepTry, StepGrant, StepSeek, StepWork, StepCall, MayCall;
    match a
    case Call(t, c) => OtherSubmitted(s, t, 0, r, c);
    case WakeUp(_) =>
    case Run(t, w) =>
      OtherSubmitted(s, t, w, r, Submit);
      CancelSubmitted(s, t, r);
      WorkSubmitted(s, t, w, r);
      if s.threads[t].pc.Resting? {
        TurnSubmitted(s, s.threads[t].role.l, r);
      }
  }

  lemma {:induction false} PostsOwn(s: State, a: Action, r: nat)
    requires Inv(s) && Enabled(s, a) && Appends(s, a, Job(r))
    ensures r < |s.reqs| && s.reqs[r].place.Submitting? && Submitted(Next(s, a), r)
  {
    assert ClaimOk(s, a.t);
  }

  lemma {:induction false} SubmittedSince(states: seq<State>, acts: seq<Action>, i: nat, n: nat, x: nat)
    requires IsRun(states, acts) && i < n < |states| && Appends(states[i], acts[i], Job(x))
    ensures Submitted(states[n], x)
    decreases n
  {
    hide Init, Inv, Enabled, Next, Submitted, Appends;
    RunInv(states, acts, n - 1);
    assert Enabled(states[n - 1], acts[n - 1]) && states[n] == Next(states[n - 1], acts[n - 1]);
    if n == i + 1 {
      PostsOwn(states[i], acts[i], x);
    } else {
      SubmittedSince(states, acts, i, n - 1, x);
      StaysSubmitted(states[n - 1], acts[n - 1], x);
    }
  }

  // ----- First come, first served ----------------------------------------------------------------------------

  /** Between the two steps a worker finds the request, or a cancel withdraws it. */
  ghost predicate LeftPool(states: seq<State>, acts: seq<Action>, i: nat, k: nat, x: nat)
    requires k <= |acts| < |states|
  {
    exists m :: i < m < k && (Finds(states[m], acts[m], states[m + 1], Job(x))
                              || Withdraws(states[m], acts[m], states[m + 1], x))
  }

  /** What has been posted is in the queue until then. */
  lemma {:induction false} InPoolUntil(states: seq<State>, acts: seq<Action>, i: nat, k: nat, x: nat)
    requires IsRun(states, acts) && i < k <= |acts| && Appends(states[i], acts[i], Job(x))
    ensures Job(x) in states[k].wq || LeftPool(states, acts, i, k, x)
    decreases k
  {
    hide Init, Inv, Enabled, Next, Appends, Finds, Withdraws, Without;
    var s, a := states[k - 1], acts[k - 1];
    assert Enabled(s, a) && states[k] == Next(s, a);
    PoolQueueStep(s, a);
    if k > i + 1 {
      InPoolUntil(states, acts, i, k - 1, x);
      if Job(x) in s.wq && Job(x) !in states[k].wq {
        LeavesPool(s, a, states[k], x);
        assert Finds(states[k - 1], acts[k - 1], states[k], Job(x))
               || Withdraws(states[k - 1], acts[k - 1], states[k], x);
      }
    }
  }

  lemma {:induction false} LeavesPool(s: State, a: Action, s': State, x: nat)
    requires PoolStep(s, a, s') && Job(x) in s.wq && Job(x) !in s'.wq
    ensures Finds(s, a, s', Job(x)) || Withdraws(s, a, s', x)
  {
    hide Finds, Appends, Withdraws;
    if item :| Appends(s, a, item) && s'.wq == s.wq + [item] {
      assert false;
    } else if r :| Finds(s, a, s', Job(r)) && s.wq != [] && s'.wq == s.wq[1..] {
      assert s.wq == [s.wq[0]] + s.wq[1..];
    } else {
      var r :| Withdraws(s, a, s', r) && s'.wq == Without(s.wq, Job(r));
      InWithout(s.wq, Job(r), Job(x));
    }
  }

  /** A step keeps a request ahead of an item as long as it is in the queue. */
  lemma {:induction false} KeepsAhead(s: State, a: Action, s': State, x: nat, y: Item)
    requires PoolStep(s, a, s') && Once(s.wq) && !Appends(s, a, Job(x)) && Job(x) in s'.wq
    requires Job(x) in s.wq ==> Ahead(s.wq, Job(x), y)
    ensures Ahead(s'.wq, Job(x), y)
  {
    hide Finds, Appends, Withdraws;
    if s'.wq == s.wq {
    } else if item :| Appends(s, a, item) && s'.wq == s.wq + [item] {
      AheadMore(s.wq, item, Job(x), y);
    } else if r :| Finds(s, a, s', Job(r)) && s.wq != [] && s'.wq == s.wq[1..] {
      assert s.wq == [s.wq[0]] + s.wq[1..];
      var i :| 0 <= i < |s'.wq| && s'.wq[i] == Job(x);
      assert s.wq[i + 1] == Job(x) && s.wq[0] != Job(x);
    } else {
      var r :| Withdraws(s, a, s', r) && s'.wq == Without(s.wq, Job(r));
      InWithout(s.wq, Job(r), Job(x));
      AheadWithout(s.wq, Job(r), Job(x), y);
    }
  }

  /** A request that has been posted before an item stands before it. */
  lemma {:induction false} AheadInPool(states: seq<State>, acts: seq<Action>, i: nat, j: nat, k: nat, x: nat, y: Item)
    requires IsRun(states, acts) && i < j < k <= |acts| && y != Job(x)
    requires Appends(states[i], acts[i], Job(x)) && Appends(states[j], acts[j], y)
    ensures Job(x) in states[k].wq ==> Ahead(states[k].wq, Job(x), y)
    decreases k
  {
    hide Init, Inv, Enabled, Next, Appends, PoolStep, Submitted, Once;
    var s, a := states[k - 1], acts[k - 1];
    assert Enabled(s, a) && states[k] == Next(s, a);
    PoolQueueStep(s, a);
    RunInv(states, acts, k - 1);
    RunInv(states, acts, k);
    QueueOnce(s);
    QueueOnce(states[k]);
    if Job(x) in states[k].wq {
      if k == j + 1 {
        LastIsNew(s, a, states[k], x, y);
      } else {
        AheadInPool(states, acts, i, j, k - 1, x, y);
        SubmittedSince(states, acts, i, k - 1, x);
        NotPostedAgain(s, a, x);
        KeepsAhead(s, a, states[k], x, y);
      }
    }
  }

  lemma {:induction false} QueueOnce(s: State)
    requires Inv(s)
    ensures Once(s.wq)
  {
    assert PoolQueueOk(s);
  }

  lemma {:induction false} NotPostedAgain(s: State, a: Action, x: nat)
    requires Inv(s) && Enabled(s, a) && Submitted(s, x)
    ensures !Appends(s, a, Job(x))
  {
    if Appends(s, a, Job(x)) {
      PostsOwn(s, a, x);
    }
  }

  lemma {:induction false} NewNotIn<T>(q: seq<T>, z: T)
    requires Once(q + [z])
    ensures z !in q
  {
    forall i | 0 <= i < |q| ensures q[i] != z {
      assert (q + [z])[i] == q[i] && (q + [z])[|q|] == z;
    }
  }

  lemma {:induction false} LastIsNew(s: State, a: Action, s': State, x: nat, y: Item)
    requires PoolStep(s, a, s') && Appends(s, a, y) && Once(s'.wq) && Job(x) in s'.wq && y != Job(x)
    ensures Ahead(s'.wq, Job(x), y)
  {
    hide Appends, Finds, Withdraws;
    assert s'.wq == s.wq + [y];
    NewNotIn(s.wq, y);
    AheadOfNew(s.wq, Job(x), y);
  }

  /** Requests are served in the order they were posted: before a worker finds an item, workers have found all requests
      posted before it that no cancel has withdrawn. This includes the message to exit. */
  lemma {:induction false} FirstComeFirstServed(states: seq<State>, acts: seq<Action>, i: nat, j: nat, k: nat, x: nat,
                                                y: Item)
    requires IsRun(states, acts) && i < j < k < |acts| && y != Job(x)
    requires Appends(states[i], acts[i], Job(x)) && Appends(states[j], acts[j], y)
    requires Finds(states[k], acts[k], states[k + 1], y)
    ensures LeftPool(states, acts, i, k, x)
  {
    hide Init, Inv, Enabled, Next, Appends, Finds, Withdraws;
    InPoolUntil(states, acts, i, k, x);
    AheadInPool(states, acts, i, j, k, x, y);
    assert Enabled(states[k], acts[k]) && states[k + 1] == Next(states[k], acts[k]);
    PoolQueueStep(states[k], acts[k]);
  }

  // ----- Workers leave last ----------------------------------------------------------------------------------

  /** A worker that exits has found the message at the head of the queue, where it stays. */
  ghost predicate ExitAtHead(s: State) {
    forall t :: 0 <= t < |s.threads| && Leaving(s.threads[t].pc) ==> s.wq != [] && s.wq[0] == ExitMessage
  }

  predicate Leaving(pc: Pc) { pc == Seeking(Exit) || pc == Seeking(Exited) }

  /** No other thread is brought to its exit. */
  ghost predicate NoneLeaves(s: State, s': State) {
    forall u :: 0 <= u < |s.threads| && u < |s'.threads| && Leaving(s'.threads[u].pc) ==> Leaving(s.threads[u].pc)
  }

  lemma {:induction false} OthersLeave(s: State, t: nat, w: nat, c: UserCall)
    ensures Posts(s, t) ==> NoneLeaves(s, StepPost(s, t, w))
    ensures Sends(s, t) ==> NoneLeaves(s, StepSend(s, t))
    ensures MayCall(s, t, c) ==> NoneLeaves(s, StepCall(s, t, c))
  {
  }

  lemma {:induction false} CancelsLeave(s: State, t: nat)
    ensures Tries(s, t) ==> NoneLeaves(s, StepTry(s, t))
    ensures Grants(s, t) ==> NoneLeaves(s, StepGrant(s, t))
  {
    hide Without;
  }

  lemma {:induction false} WorkersLeave(s: State, t: nat, w: nat)
    ensures Works(s, t) ==> NoneLeaves(s, StepWork(s, t))
    ensures Seeks(s, t) ==>
              NoneLeaves(s, StepSeek(s, t, w)) || Finds(s, Run(t, w), StepSeek(s, t, w), ExitMessage)
  {
  }

  /** A thread comes to its exit only from the queue, where it has found the message. */
  lemma {:induction false} ComesToExit(s: State, a: Action)
    requires Enabled(s, a)
    ensures NoneLeaves(s, Next(s, a)) || Finds(s, a, Next(s, a), ExitMessage)
  {
    hide StepLoop, StepSend, StepPost, StepTry, StepGrant, StepSeek, StepWork, StepCall, MayCall, Finds, NoneLeaves;
    match a
    case Call(t, c) => OthersLeave(s, t, 0, c);
    case WakeUp(t) => assert NoneLeaves(s, Wake(s, t)) by { WakesLeave(s, t); }
    case Run(t, w) =>
      OthersLeave(s, t, w, Submit);
      CancelsLeave(s, t);
      WorkersLeave(s, t, w);
      if s.threads[t].pc.Resting? {
        TurnsLeave(s, s.threads[t].role.l);
      }
  }

  lemma {:induction false} WakesLeave(s: State, t: nat)
    ensures NoneLeaves(s, Wake(s, t))
  {
  }

  lemma {:induction false} TurnsLeave(s: State, l: nat)
    requires Turns(s, l)
    ensures NoneLeaves(s, StepLoop(s, l))
  {
  }

  lemma {:induction false} HeadStays(s: State, a: Action, s': State)
    requires PoolStep(s, a, s') && s.wq != [] && s.wq[0] == ExitMessage
    ensures s'.wq != [] && s'.wq[0] == ExitMessage
  {
    hide Appends, Finds, Withdraws;
    if r :| Finds(s, a, s', Job(r)) && s.wq != [] && s'.wq == s.wq[1..] {
      assert false;
    } else if item :| Appends(s, a, item) && s'.wq == s.wq + [item] {
    } else if r :| Withdraws(s, a, s', r) && s'.wq == Without(s.wq, Job(r)) {
    }
  }

  lemma {:induction false} ExitStaysAtHead(s: State, a: Action)
    requires Enabled(s, a) && ExitAtHead(s)
    ensures ExitAtHead(Next(s, a))
  {
    hide Next, Enabled, Finds, Appends, Withdraws, Leaving;
    var s' := Next(s, a);
    PoolQueueStep(s, a);
    ComesToExit(s, a);
    NextOwners(s, a);
    forall t | 0 <= t < |s'.threads| && Leaving(s'.threads[t].pc) ensures s'.wq != [] && s'.wq[0] == ExitMessage {
      if Finds(s, a, s', ExitMessage) {
        assert s.wq[0] == ExitMessage;
      } else {
        assert Leaving(s.threads[t].pc);
      }
      HeadStays(s, a, s');
    }
  }

  lemma {:induction false} AlwaysAtHead(states: seq<State>, acts: seq<Action>, k: nat)
    requires IsRun(states, acts) && k < |states|
    ensures ExitAtHead(states[k])
  {
    hide Enabled, Next, ExitAtHead;
    if k == 0 {
      NoneAtStart(states[0]);
    } else {
      AlwaysAtHead(states, acts, k - 1);
      assert Enabled(states[k - 1], acts[k - 1]) && states[k] == Next(states[k - 1], acts[k - 1]);
      ExitStaysAtHead(states[k - 1], acts[k - 1]);
    }
  }

  lemma {:induction false} NoneAtStart(s: State)
    requires Init(s)
    ensures ExitAtHead(s)
  {
    forall t | 0 <= t < |s.threads| ensures !Leaving(s.threads[t].pc) {
      assert InitThread(s, t);
    }
  }

  /** No worker is on its way out, or gone, while a request posted before the message to exit is in the queue. */
  lemma {:induction false} NoneLeftBehind(states: seq<State>, acts: seq<Action>, i: nat, j: nat, k: nat, x: nat, t: nat)
    requires IsRun(states, acts) && i < j < k < |states|
    requires Appends(states[i], acts[i], Job(x)) && Appends(states[j], acts[j], ExitMessage)
    requires t < |states[k].threads|
    requires states[k].threads[t].pc == Seeking(Exit) || states[k].threads[t].pc == Seeking(Exited)
    ensures Job(x) !in states[k].wq
    ensures LeftPool(states, acts, i, k, x)
  {
    hide IsRun, Appends, LeftPool;
    assert k <= |acts| by { StepsBetween(states, acts); }
    AlwaysAtHead(states, acts, k);
    AheadInPool(states, acts, i, j, k, x, ExitMessage);
    InPoolUntil(states, acts, i, k, x);
  }

  lemma {:induction false} StepsBetween(states: seq<State>, acts: seq<Action>)
    requires IsRun(states, acts)
    ensures |states| == |acts| + 1
  {
  }

  // ----- Callbacks -------------------------------------------------------------------------------------------

  /** The requests of a loop that are to be called back: those being gone through, then those of its queue. */
  function ToCall(s: State, l: nat): seq<nat>
    requires l < |s.loops|
  {
    s.loops[l].local + s.loops[l].wq
  }

  /** From `s` to `s'` the loop gets what is delivered to it last, loses the first, which is called back, or what is
      withdrawn, or has the same to call back. */
  ghost predicate CallStep(s: State, a: Action, s': State, l: nat)
    requires l < |s.loops| && l < |s'.loops|
  {
    var q, q' := ToCall(s, l), ToCall(s', l);
    && (q' == q
        || (exists r: nat :: Delivers(s, a, r) && q' == q + [r])
        || (q != [] && CallsBack(s, s', q[0]) && q' == q[1..])
        || (exists r: nat :: Withdraws(s, a, s', r) && q' == Without(q, r)))
    && (forall r: nat :: Delivers(s, a, r) && ReqOk(s, r) && s.reqs[r].loop == l ==> q' == q + [r])
    && (forall r: nat :: CallsBack(s, s', r) && s.reqs[r].loop == l ==> q != [] && q[0] == r)
  }

  /** No callback runs. */
  ghost predicate SameCounts(s: State, s': State) {
    |s.reqs| <= |s'.reqs| && forall r :: 0 <= r < |s.reqs| ==> s'.reqs[r].calls == s.reqs[r].calls
  }

  ghost predicate SameLists(s: State, s': State) {
    && |s'.loops| == |s.loops|
    && forall l :: 0 <= l < |s.loops| ==> s'.loops[l].wq == s.loops[l].wq && s'.loops[l].local == s.loops[l].local
  }

  lemma {:induction false} Quiet(s: State, a: Action, s': State, l: nat)
    requires l < |s.loops| && SameCounts(s, s') && SameLists(s, s') && forall r: nat :: !Delivers(s, a, r)
    ensures CallStep(s, a, s', l)
  {
  }

  lemma {:induction false} QuietSteps(s: State, t: nat, w: nat, c: UserCall)
    ensures Posts(s, t) ==> SameCounts(s, StepPost(s, t, w)) && SameLists(s, StepPost(s, t, w))
    ensures Sends(s, t) ==> SameCounts(s, StepSend(s, t)) && SameLists(s, StepSend(s, t))
    ensures Seeks(s, t) ==> SameCounts(s, StepSeek(s, t, w)) && SameLists(s, StepSeek(s, t, w))
    ensures MayCall(s, t, c) ==> SameCounts(s, StepCall(s, t, c)) && SameLists(s, StepCall(s, t, c))
    ensures SameCounts(s, Wake(s, t)) && SameLists(s, Wake(s, t))
  {
  }

  lemma {:induction false} QuietWork(s: State, t: nat)
    requires Works(s, t)
    ensures SameCounts(s, StepWork(s, t))
    ensures s.threads[t].pc.work.Deliver? || SameLists(s, StepWork(s, t))
  {
  }

  lemma {:induction false} QuietGrant(s: State, t: nat)
    requires Grants(s, t)
    ensures SameCounts(s, StepGrant(s, t))
    ensures s.threads[t].pc.cancel.Complete? || SameLists(s, StepGrant(s, t))
  {
  }

  /** One request is delivered. */
  lemma {:induction false} DeliverOne(s: State, a: Action, r: nat, s': State, l: nat)
    requires l < |s.loops| && ReqOk(s, r) && Delivers(s, a, r) && SameCounts(s, s')
    requires s'.loops == Delivered(s, r).loops
    requires forall q: nat :: Delivers(s, a, q) ==> q == r
    ensures CallStep(s, a, s', l)
  {
    if s.reqs[r].loop == l {
      Three(s.loops[l].local, s.loops[l].wq, [r]);
    }
  }

  lemma {:induction false} Three<T>(a: seq<T>, b: seq<T>, c: seq<T>)
    ensures a + (b + c) == a + b + c
  {
  }

  lemma {:induction false} WorkCalls(s: State, t: nat, w: nat, l: nat)
    requires l < |s.loops| && Works(s, t)
    ensures CallStep(s, Run(t, w), StepWork(s, t), l)
  {
    hide CallStep, SameCounts, SameLists;
    QuietWork(s, t);
    if s.threads[t].pc.work.Deliver? {
      DeliverOne(s, Run(t, w), s.threads[t].pc.r, StepWork(s, t), l);
    } else {
      Quiet(s, Run(t, w), StepWork(s, t), l);
    }
  }

  lemma {:induction false} GrantCalls(s: State, t: nat, w: nat, l: nat)
    requires l < |s.loops| && Grants(s, t)
    ensures CallStep(s, Run(t, w), StepGrant(s, t), l)
  {
    hide CallStep, SameCounts, SameLists;
    QuietGrant(s, t);
    if s.threads[t].pc.cancel.Complete? {
      DeliverOne(s, Run(t, w), s.threads[t].pc.r, StepGrant(s, t), l);
    } else {
      Quiet(s, Run(t, w), StepGrant(s, t), l);
    }
  }

  lemma {:induction false} TryQuiet(s: State, t: nat)
    requires Tries(s, t)
    ensures SameCounts(s, StepTry(s, t))
    ensures s.threads[t].pc.cancel.Decide? || SameLists(s, StepTry(s, t))
    ensures var r := s.threads[t].pc.r;
            s.threads[t].pc.cancel.Decide? ==>
              SameLists(s, StepTry(s, t))
              || (StepTry(s, t).loops == TakenOut(s, t, r).loops
                  && StepTry(s, t).threads[t].pc == Cancelling(GiveLoop, r, true))
  {
    hide Without;
  }

  lemma {:induction false} TryCalls(s: State, t: nat, w: nat, l: nat)
    requires l < |s.loops| && Tries(s, t)
    ensures CallStep(s, Run(t, w), StepTry(s, t), l)
  {
    hide Without, StepTry, SameCounts, SameLists, CallStep;
    var r, s' := s.threads[t].pc.r, StepTry(s, t);
    TryQuiet(s, t);
    if SameLists(s, s') {
      Quiet(s, Run(t, w), s', l);
    } else {
      assert |s'.threads| == |s.threads| by { TryMoves(s, t); }
      WithdrawOne(s, Run(t, w), r, s', l);
    }
  }

  lemma {:induction false} WithdrawOne(s: State, a: Action, r: nat, s': State, l: nat)
    requires l < |s.loops| && ReqOk(s, r) && Withdraws(s, a, s', r) && SameCounts(s, s')
    requires s'.loops == TakenOut(s, a.t, r).loops && forall q: nat :: !Delivers(s, a, q)
    ensures CallStep(s, a, s', l)
  {
    hide Without;
    if s.reqs[r].loop == l {
      WithoutBoth(s.loops[l].local, s.loops[l].wq, r);
    }
  }

  lemma {:induction false} FirstToCall(s: State, l: nat)
    requires Inv(s) && l < |s.loops| && s.loops[l].local != []
    ensures LoopQueueOk(s, l) && s.loops[l].local[0] < |s.reqs| && s.reqs[s.loops[l].local[0]].loop == l
    ensures s.reqs[s.loops[l].local[0]].calls == 0
  {
    assert LoopQueueOk(s, l) && s.loops[l].local[0] in s.loops[l].local;
    assert HistoryOk(s, s.loops[l].local[0]);
  }

  lemma {:induction false} TurnQuiet(s: State, l: nat)
    requires Turns(s, l)
    ensures var s', loop := StepLoop(s, l), s.loops[l];
            && |s'.loops| == |s.loops| && (forall k :: 0 <= k < |s.loops| && k != l ==> s'.loops[k] == s.loops[k])
            && (if DrainsOne(loop) then
                  && s'.loops[l].local == loop.local[1..] && s'.loops[l].wq == loop.wq
                  && loop.local[0] < |s.reqs| == |s'.reqs|
                  && s'.reqs[loop.local[0]].calls == s.reqs[loop.local[0]].calls + 1
                  && (forall r :: 0 <= r < |s.reqs| && r != loop.local[0] ==> s'.reqs[r] == s.reqs[r])
                else
                  && SameCounts(s, s')
                  && (if loop.stage.DrainMove? then s'.loops[l].local == loop.wq && s'.loops[l].wq == []
                      else s'.loops[l].local == loop.local && s'.loops[l].wq == loop.wq))
  {
  }

  lemma {:induction false} TurnCalls(s: State, l': nat, a: Action, l: nat)
    requires Inv(s) && Turns(s, l') && l < |s.loops| && a.Run? && a.t == s.loops[l'].thread
    ensures l < |StepLoop(s, l').loops| && CallStep(s, a, StepLoop(s, l'), l)
  {
    hide StepLoop, Inv;
    TurnQuiet(s, l');
    assert LoopOk(s, l') by { OneLoop(s, l'); }
    var loop, s' := s.loops[l'], StepLoop(s, l');
    if DrainsOne(loop) {
      FirstToCall(s, l');
      assert loop.local == [loop.local[0]] + loop.local[1..];
      if l == l' {
        assert ToCall(s, l) == [loop.local[0]] + ToCall(s', l);
      }
    } else if loop.stage.DrainMove? && l == l' {
      assert ToCall(s', l) == ToCall(s, l);
    }
  }

  lemma {:induction false} OneLoop(s: State, l: nat)
    requires Inv(s) && l < |s.loops|
    ensures LoopOk(s, l)
  {
  }

  lemma {:induction false} OtherCalls(s: State, t: nat, w: nat, c: UserCall, l: nat)
    requires l < |s.loops|
    ensures Posts(s, t) ==> CallStep(s, Run(t, w), StepPost(s, t, w), l)
    ensures Sends(s, t) ==> CallStep(s, Run(t, w), StepSend(s, t), l)
    ensures Seeks(s, t) ==> CallStep(s, Run(t, w), StepSeek(s, t, w), l)
    ensures MayCall(s, t, c) ==> CallStep(s, Call(t, c), StepCall(s, t, c), l)
    ensures CallStep(s, WakeUp(t), Wake(s, t), l)
  {
    hide CallStep, SameCounts, SameLists, StepPost, StepSend, StepSeek, StepCall, MayCall;
    QuietSteps(s, t, w, c);
    Quiet(s, WakeUp(t), Wake(s, t), l);
    if Posts(s, t) {
      Quiet(s, Run(t, w), StepPost(s, t, w), l);
    }
    if Sends(s, t) {
      Quiet(s, Run(t, w), StepSend(s, t), l);
    }
    if Seeks(s, t) {
      Quiet(s, Run(t, w), StepSeek(s, t, w), l);
    }
    if MayCall(s, t, c) {
      Quiet(s, Call(t, c), StepCall(s, t, c), l);
    }
  }

  /** What a step does to what a loop is to call back. */
  lemma {:induction false} CallQueueStep(s: State, a: Action, l: nat)
    requires Inv(s) && Enabled(s, a) && l < |s.loops|
    ensures |Next(s, a).loops| == |s.loops| && CallStep(s, a, Next(s, a), l)
  {
    hide Inv, CallStep, StepLoop, StepSend, StepPost, StepTry, StepGrant, StepSeek, StepWork, StepCall, MayCall;
    NextOwners(s, a);
    match a
    case Call(t, c) => OtherCalls(s, t, 0, c, l);
    case WakeUp(t) => OtherCalls(s, t, 0, Submit, l);
    case Run(t, w) =>
      match s.threads[t].pc
      case Resting => TurnCalls(s, s.threads[t].role.l, a, l);
      case Sending(_, _, _, _) => OtherCalls(s, t, w, Submit, l);
      case Posting(_, _) => OtherCalls(s, t, w, Submit, l);
      case Seeking(_) => OtherCalls(s, t, w, Submit, l);
      case Cancelling(step, _, _) => if Trying(step) { TryCalls(s, t, w, l); } else { GrantCalls(s, t, w, l); }
      case Working(_, _) => WorkCalls(s, t, w, l);
  }

  /** A request belongs to one loop for good. */
  lemma {:induction false} OwnerSince(states: seq<State>, acts: seq<Action>, i: nat, k: nat, r: nat)
    requires IsRun(states, acts) && i <= k < |states| && r < |states[i].reqs|
    ensures r < |states[k].reqs| && states[k].reqs[r].loop == states[i].reqs[r].loop
    ensures |states[k].loops| == |states[i].loops|
    decreases k
  {
    hide Init, Enabled, Next;
    if k > i {
      OwnerSince(states, acts, i, k - 1, r);
      assert Enabled(states[k - 1], acts[k - 1]) && states[k] == Next(states[k - 1], acts[k - 1]);
      NextOwners(states[k - 1], acts[k - 1]);
    }
  }

  /** Between the two steps the request is called back, or a cancel withdraws it. */
  ghost predicate LeftLoop(states: seq<State>, acts: seq<Action>, i: nat, k: nat, x: nat)
    requires k <= |acts| < |states|
  {
    exists m :: i < m < k && (CallsBack(states[m], states[m + 1], x)
                              || Withdraws(states[m], acts[m], states[m + 1], x))
  }

  lemma {:induction false} DeliversOwn(s: State, a: Action, r: nat)
    requires Inv(s) && Delivers(s, a, r)
    ensures ReqOk(s, r)
  {
    assert ThreadOk(s, a.t);
  }

  lemma {:induction false} ToCallOnce(s: State, l: nat)
    requires Inv(s) && l < |s.loops|
    ensures Once(ToCall(s, l))
  {
    assert LoopQueueOk(s, l);
    var loop, q := s.loops[l], ToCall(s, l);
    forall i, j | 0 <= i < j < |q| ensures q[i] != q[j] {
      if i < |loop.local| <= j {
        assert q[j] == loop.wq[j - |loop.local|];
        assert q[j] in loop.wq && q[i] in loop.local;
      }
    }
  }

  lemma {:induction false} LeavesCalls(s: State, a: Action, s': State, l: nat, x: nat)
    requires l < |s.loops| && l < |s'.loops| && CallStep(s, a, s', l) && x in ToCall(s, l) && x !in ToCall(s', l)
    ensures CallsBack(s, s', x) || Withdraws(s, a, s', x)
  {
    hide Delivers, Withdraws, CallsBack, ToCall;
    var q, q' := ToCall(s, l), ToCall(s', l);
    if r: nat :| Delivers(s, a, r) && q' == q + [r] {
      assert false;
    } else if q != [] && CallsBack(s, s', q[0]) && q' == q[1..] {
      assert q == [q[0]] + q[1..];
    } else {
      var r: nat :| Withdraws(s, a, s', r) && q' == Without(q, r);
      InWithout(q, r, x);
    }
  }

  lemma {:induction false} KeepsAheadToCall(s: State, a: Action, s': State, l: nat, x: nat, y: nat)
    requires l < |s.loops| && l < |s'.loops| && CallStep(s, a, s', l) && Ahead(ToCall(s, l), x, y)
    ensures Ahead(ToCall(s', l), x, y) || CallsBack(s, s', x) || Withdraws(s, a, s', x)
  {
    hide Delivers, Withdraws, CallsBack, ToCall;
    var q, q' := ToCall(s, l), ToCall(s', l);
    if q' == q {
    } else if r: nat :| Delivers(s, a, r) && q' == q + [r] {
      AheadMore(q, r, x, y);
    } else if q != [] && CallsBack(s, s', q[0]) && q' == q[1..] {
    } else {
      var r: nat :| Withdraws(s, a, s', r) && q' == Without(q, r);
      if r != x {
        AheadWithout(q, r, x, y);
      }
    }
  }

  /** What has been delivered is there to be called back until then. */
  lemma {:induction false} ToCallUntil(states: seq<State>, acts: seq<Action>, i: nat, k: nat, x: nat, l: nat)
    requires IsRun(states, acts) && i < k <= |acts| && Delivers(states[i], acts[i], x)
    requires x < |states[i].reqs| && states[i].reqs[x].loop == l && l < |states[k].loops|
    ensures x in ToCall(states[k], l) || LeftLoop(states, acts, i, k, x)
    decreases k
  {
    hide Init, Inv, Enabled, Next, Delivers, CallsBack, Withdraws, CallStep, ToCall;
    var s, a := states[k - 1], acts[k - 1];
    assert Enabled(s, a) && states[k] == Next(s, a);
    RunInv(states, acts, k - 1);
    OwnerSince(states, acts, i, k - 1, x);
    NextOwners(s, a);
    CallQueueStep(s, a, l);
    if k == i + 1 {
      DeliversOwn(s, a, x);
      assert ToCall(states[k], l) == ToCall(s, l) + [x] by { DeliveredLast(s, a, states[k], l, x); }
    } else {
      ToCallUntil(states, acts, i, k - 1, x, l);
      if x in ToCall(s, l) && x !in ToCall(states[k], l) {
        LeavesCalls(s, a, states[k], l, x);
        assert CallsBack(states[k - 1], states[k], x) || Withdraws(states[k - 1], acts[k - 1], states[k], x);
      }
    }
  }

  lemma {:induction false} DeliveredLast(s: State, a: Action, s': State, l: nat, x: nat)
    requires l < |s.loops| && l < |s'.loops| && CallStep(s, a, s', l)
    requires Delivers(s, a, x) && ReqOk(s, x) && s.reqs[x].loop == l
    ensures ToCall(s', l) == ToCall(s, l) + [x]
  {
  }

  /** What has been delivered before stands before. */
  lemma {:induction false} AheadToCall(states: seq<State>, acts: seq<Action>, i: nat, j: nat, k: nat, x: nat, y: nat,
                                       l: nat)
    requires IsRun(states, acts) && i < j < k <= |acts| && x != y
    requires Delivers(states[i], acts[i], x) && x < |states[i].reqs| && states[i].reqs[x].loop == l
    requires Delivers(states[j], acts[j], y) && y < |states[j].reqs| && states[j].reqs[y].loop == l
    requires l < |states[k].loops|
    ensures Ahead(ToCall(states[k], l), x, y) || LeftLoop(states, acts, i, k, x)
    decreases k
  {
    hide Init, Inv, Enabled, Next, Delivers, CallsBack, Withdraws, CallStep, ToCall, Once;
    var s, a := states[k - 1], acts[k - 1];
    assert Enabled(s, a) && states[k] == Next(s, a);
    RunInv(states, acts, k - 1);
    RunInv(states, acts, k);
    NextOwners(s, a);
    CallQueueStep(s, a, l);
    if k == j + 1 {
      DeliversOwn(s, a, y);
      DeliveredLast(s, a, states[k], l, y);
      ToCallOnce(states[k], l);
      NewNotIn(ToCall(s, l), y);
      ToCallUntil(states, acts, i, k - 1, x, l);
      if x in ToCall(s, l) {
        AheadOfNew(ToCall(s, l), x, y);
      }
    } else {
      AheadToCall(states, acts, i, j, k - 1, x, y, l);
      if Ahead(ToCall(s, l), x, y) {
        KeepsAheadToCall(s, a, states[k], l, x, y);
        assert CallsBack(states[k - 1], states[k], x) || Withdraws(states[k - 1], acts[k - 1], states[k], x)
               || Ahead(ToCall(states[k], l), x, y);
      }
    }
  }

  /** Callbacks run in the order in which requests were delivered to their loop: before the callback of a request those
      of the requests delivered before it have run, unless a cancel has withdrawn them meanwhile. */
  lemma {:induction false} CallbacksInOrder(states: seq<State>, acts: seq<Action>, i: nat, j: nat, k: nat, x: nat,
                                            y: nat)
    requires IsRun(states, acts) && i < j < k < |acts| && x != y
    requires Delivers(states[i], acts[i], x) && Delivers(states[j], acts[j], y)
    requires x < |states[i].reqs| && y < |states[j].reqs| && states[i].reqs[x].loop == states[j].reqs[y].loop
    requires CallsBack(states[k], states[k + 1], y)
    ensures LeftLoop(states, acts, i, k, x)
  {
    hide Init, Inv, Enabled, Next, Delivers, CallsBack, Withdraws, CallStep, ToCall;
    var l := states[i].reqs[x].loop;
    RunInv(states, acts, i);
    RunInv(states, acts, k);
    DeliversOwn(states[i], acts[i], x);
    OwnerSince(states, acts, i, k, x);
    OwnerSince(states, acts, j, k, y);
    AheadToCall(states, acts, i, j, k, x, y, l);
    assert Enabled(states[k], acts[k]) && states[k + 1] == Next(states[k], acts[k]);
    CallQueueStep(states[k], acts[k], l);
    FirstCalled(states[k], acts[k], states[k + 1], l, y);
  }

  lemma {:induction false} FirstCalled(s: State, a: Action, s': State, l: nat, y: nat)
    requires l < |s.loops| && l < |s'.loops| && CallStep(s, a, s', l)
    requires y < |s.reqs| && CallsBack(s, s', y) && s.reqs[y].loop == l
    ensures ToCall(s, l) != [] && ToCall(s, l)[0] == y
  {
  }
}

/** What `uv_async_send` promises, over runs: the callback of the handle runs after the send, and never without one. */
module ThreadPoolAsync {
  import opened Wrappers
  import opened ThreadPool
  import opened ThreadPoolInvariant
  import opened ThreadPoolSafety

  /** The loop comes to the handle in its scan and turns to what the handle is for: for handle 0 to its completion
      queue, for any other to its callback. */
  ghost predicate Serves(s: State, a: Action, s': State, l: nat, h: nat) {
    && l < |s.loops| && l < |s'.loops| && a.Run? && a.t == s.loops[l].thread
    && s.loops[l].stage.Scanning? && s.loops[l].stage.todo != [] && s.loops[l].stage.todo[0] == h
    && var rest := s.loops[l].stage.todo[1..];
       s'.loops[l].stage == if h == 0 then DrainLock(rest) else InCallback(rest)
  }

  /** The thread is about to set the handle's `pending`. */
  ghost predicate AtSwap(s: State, t: nat, l: nat, h: nat) {
    && t < |s.threads| && s.threads[t].pc.Sending? && s.threads[t].pc.send.Swap?
    && s.threads[t].pc.l == l && s.threads[t].pc.h == h
  }

  ghost predicate AtCheck(s: State, t: nat, l: nat, h: nat) {
    && t < |s.threads| && s.threads[t].pc.Sending? && s.threads[t].pc.send.Check?
    && s.threads[t].pc.l == l && s.threads[t].pc.h == h
  }

  predicate Pending(s: State, l: nat, h: nat) {
    l < |s.loops| && h < |s.loops[l].pending| && s.loops[l].pending[h]
  }

  // ----- One step --------------------------------------------------------------------------------------------

  /** A handle stops being pending when it is served; it becomes pending when a sender sets it; it is served only when
      it was pending, and then is so no more. */
  ghost predicate PendingStep(s: State, a: Action, s': State, l: nat, h: nat) {
    && (Pending(s, l, h) && !Pending(s', l, h) ==> Serves(s, a, s', l, h))
    && (!Pending(s, l, h) && Pending(s', l, h) ==> a.Run? && AtSwap(s, a.t, l, h))
    && (Serves(s, a, s', l, h) ==> Pending(s, l, h) && !Pending(s', l, h))
  }

  ghost predicate SamePending(s: State, s': State, l: nat) {
    && |s'.loops| == |s.loops|
    && (l < |s.loops| ==> s'.loops[l].pending == s.loops[l].pending && s'.loops[l].stage == s.loops[l].stage)
  }

  lemma {:induction false} QuietPending(s: State, a: Action, s': State, l: nat, h: nat)
    requires SamePending(s, s', l)
    ensures PendingStep(s, a, s', l, h)
  {
    if l < |s.loops| && s.loops[l].stage.Scanning? && s.loops[l].stage.todo != [] {
      assert s.loops[l].stage != DrainLock(s.loops[l].stage.todo[1..]);
    }
  }

  lemma {:induction false} OtherPending(s: State, t: nat, w: nat, c: UserCall, l: nat)
    ensures Posts(s, t) ==> SamePending(s, StepPost(s, t, w), l)
    ensures Seeks(s, t) ==> SamePending(s, StepSeek(s, t, w), l)
    ensures MayCall(s, t, c) ==> SamePending(s, StepCall(s, t, c), l)
    ensures SamePending(s, Wake(s, t), l)
  {
  }

  lemma {:induction false} CancelPending(s: State, t: nat, l: nat)
    ensures Tries(s, t) ==> SamePending(s, StepTry(s, t), l)
    ensures Grants(s, t) ==> SamePending(s, StepGrant(s, t), l)
  {
    hide Without;
  }

  lemma {:induction false} WorkPending(s: State, t: nat, l: nat)
    ensures Works(s, t) ==> SamePending(s, StepWork(s, t), l)
  {
  }

  lemma {:induction false} SendPending(s: State, t: nat, w: nat, l: nat, h: nat)
    requires Sends(s, t)
    ensures PendingStep(s, Run(t, w), StepSend(s, t), l, h)
  {
  }

  lemma {:induction false} TurnPending(s: State, a: Action, m: nat, l: nat, h: nat)
    requires Turns(s, m) && a.Run? && a.t == s.loops[m].thread && (l < |s.loops| && l != m ==> s.loops[l].thread != a.t)
    ensures PendingStep(s, a, StepLoop(s, m), l, h)
  {
  }

  lemma {:induction false} OwnThread(s: State, m: nat, l: nat)
    requires Shape(s) && m < |s.loops| && l < |s.loops| && l != m
    ensures s.loops[l].thread != s.loops[m].thread
  {
    assert LoopOk(s, m) && LoopOk(s, l);
  }

  lemma {:induction false} NextPending(s: State, a: Action, l: nat, h: nat)
    requires Inv(s) && Enabled(s, a)
    ensures PendingStep(s, a, Next(s, a), l, h)
  {
    hide PendingStep, SamePending, StepLoop, StepSend, StepPost, StepTry, StepGrant, StepSeek, StepWork, StepCall,
         MayCall, Shape, Locks, Places, History, Sleep, Wakeups;
    match a
    case Call(t, c) =>
      OtherPending(s, t, 0, c, l);
      QuietPending(s, a, Next(s, a), l, h);
    case WakeUp(t) =>
      OtherPending(s, t, 0, Submit, l);
      QuietPending(s, a, Next(s, a), l, h);
    case Run(t, w) =>
      if s.threads[t].pc.Sending? {
        SendPending(s, t, w, l, h);
      } else if s.threads[t].pc.Resting? {
        var m := s.threads[t].role.l;
        if l < |s.loops| && l != m {
          OwnThread(s, m, l);
        }
        TurnPending(s, a, m, l, h);
      } else {
        OtherPending(s, t, w, Submit, l);
        CancelPending(s, t, l);
        WorkPending(s, t, l);
        QuietPending(s, a, Next(s, a), l, h);
      }
  }

  // ----- Where a thread is -----------------------------------------------------------------------------------

  ghost predicate OthersStay(s: State, s': State, t: nat) {
    && |s'.threads| == |s.threads|
    && forall u :: 0 <= u < |s.threads| && u != t && s.threads[u].pc != Seeking(Waiting) ==>
         s'.threads[u] == s.threads[u]
  }

  lemma {:induction false} OtherStays(s: State, t: nat, w: nat, c: UserCall)
    ensures Posts(s, t) ==> OthersStay(s, StepPost(s, t, w), t)
    ensures Sends(s, t) ==> OthersStay(s, StepSend(s, t), t)
    ensures MayCall(s, t, c) ==> OthersStay(s, StepCall(s, t, c), t)
    ensures OthersStay(s, Wake(s, t), t)
  {
  }

  lemma {:induction false} CancelStays(s: State, t: nat)
    ensures Tries(s, t) ==> OthersStay(s, StepTry(s, t), t)
    ensures Grants(s, t) ==> OthersStay(s, StepGrant(s, t), t)
  {
    hide Without;
  }

  lemma {:induction false} WorkStays(s: State, t: nat, w: nat)
    ensures Works(s, t) ==> OthersStay(s, StepWork(s, t), t)
    ensures Seeks(s, t) ==> OthersStay(s, StepSeek(s, t, w), t)
  {
  }

  lemma {:induction false} TurnStays(s: State, l: nat, t: nat)
    requires Turns(s, l)
    ensures OthersStay(s, StepLoop(s, l), t)
  {
  }

  /** In a step only the thread that acts moves, and a worker that waits. */
  lemma {:induction false} NextStays(s: State, a: Action)
    requires Enabled(s, a)
    ensures OthersStay(s, Next(s, a), a.t)
  {
    hide StepLoop, StepSend, StepPost, StepTry, StepGrant, StepSeek, StepWork, StepCall, MayCall, OthersStay;
    match a
    case Call(t, c) => OtherStays(s, t, 0, c);
    case WakeUp(t) => OtherStays(s, t, 0, Submit);
    case Run(t, w) =>
      OtherStays(s, t, w, Submit);
      CancelStays(s, t);
      WorkStays(s, t, w);
      if s.threads[t].pc.Resting? {
        TurnStays(s, s.threads[t].role.l, t);
      }
  }

  /** A sender at its first look goes on to the swap unless the handle is pending. */
  lemma {:induction false} ChecksPending(s: State, a: Action, t: nat, l: nat, h: nat)
    requires Enabled(s, a) && a.Run? && a.t == t && AtCheck(s, t, l, h)
    ensures if Pending(s, l, h) then Pending(Next(s, a), l, h) else AtSwap(Next(s, a), t, l, h)
  {
  }

  /** After the swap the handle is pending. */
  lemma {:induction false} SwapsPending(s: State, a: Action, t: nat, l: nat, h: nat)
    requires Enabled(s, a) && AtSwap(s, t, l, h)
    ensures a.t == t ==> Pending(Next(s, a), l, h)
    ensures a.t != t ==> AtSwap(Next(s, a), t, l, h)
  {
    NextStays(s, a);
    if a.t == t {
      assert a.Run?;
    }
  }

  // ----- Sends -----------------------------------------------------------------------------------------------

  /** The handle has been served in one of these steps. */
  ghost predicate Served(states: seq<State>, acts: seq<Action>, i: nat, n: nat, l: nat, h: nat)
    requires n <= |acts| < |states|
  {
    exists m :: i <= m < n && Serves(states[m], acts[m], states[m + 1], l, h)
  }

  /** A send is not lost: from its first look at the handle on, it is still before its swap, or the handle is pending,
      or it has been served since. */
  lemma {:induction false} SendNotLost(states: seq<State>, acts: seq<Action>, i: nat, n: nat, t: nat, l: nat, h: nat)
    requires IsRun(states, acts) && i < n <= |acts|
    requires acts[i].Run? && acts[i].t == t && AtCheck(states[i], t, l, h)
    ensures AtSwap(states[n], t, l, h) || Pending(states[n], l, h) || Served(states, acts, i, n, l, h)
    decreases n
  {
    hide Init, Inv, Enabled, Next, AtSwap, AtCheck, Pending, Serves;
    var s, a := states[n - 1], acts[n - 1];
    assert Enabled(s, a) && states[n] == Next(s, a);
    RunInv(states, acts, n - 1);
    if n == i + 1 {
      ChecksPending(s, a, t, l, h);
    } else {
      SendNotLost(states, acts, i, n - 1, t, l, h);
      if AtSwap(s, t, l, h) {
        SwapsPending(s, a, t, l, h);
      } else if Pending(s, l, h) {
        NextPending(s, a, l, h);
        assert Pending(states[n], l, h) || Serves(states[n - 1], acts[n - 1], states[n], l, h);
      }
    }
  }

  lemma {:induction false} NothingPending(s: State, t: nat, l: nat, h: nat)
    requires Inv(s) && Stopped(s)
    ensures !Pending(s, l, h) && !AtSwap(s, t, l, h)
  {
    if AtSwap(s, t, l, h) {
      StoppedThread(s, t);
      assert false;
    }
    if Pending(s, l, h) {
      assert LoopOk(s, l);
      assert HandleOk(s, l, h) && Noticed(s, l, h);
      StoppedThread(s, s.loops[l].thread);
      StoppedThread(s, s.loops[l].casBy[h]);
      assert false;
    }
  }

  /** After every send the callback of the handle runs: before the pool and its loops come to rest, the loop has turned
      to the handle in a step after the send began. */
  lemma {:induction false} SendServed(states: seq<State>, acts: seq<Action>, i: nat, n: nat, t: nat, l: nat, h: nat)
    requires IsRun(states, acts) && i < n <= |acts| && Stopped(states[n])
    requires acts[i].Run? && acts[i].t == t && AtCheck(states[i], t, l, h)
    ensures Served(states, acts, i, n, l, h)
  {
    hide Init, Inv, Enabled, Next, AtSwap, AtCheck, Pending, Serves, Stopped;
    RunInv(states, acts, n);
    SendNotLost(states, acts, i, n, t, l, h);
    NothingPending(states[n], t, l, h);
  }

  /** Some sender is at its swap for the handle in one of these steps. */
  ghost predicate SwappedIn(states: seq<State>, acts: seq<Action>, i: nat, n: nat, l: nat, h: nat)
    requires n <= |acts| < |states|
  {
    exists m :: i <= m < n && acts[m].Run? && AtSwap(states[m], acts[m].t, l, h)
  }

  /** The callback of a handle does not run without a send: between two times that a loop turns to it, and before the
      first, a sender has been at its swap. */
  lemma {:induction false} ServedOnlyIfSent(states: seq<State>, acts: seq<Action>, i: nat, n: nat, l: nat, h: nat)
    requires IsRun(states, acts) && i <= n < |acts| && Serves(states[n], acts[n], states[n + 1], l, h)
    requires i == 0 || Serves(states[i - 1], acts[i - 1], states[i], l, h)
    ensures SwappedIn(states, acts, i, n, l, h)
  {
    hide Init, Inv, Enabled, Next, AtSwap, Pending, Serves;
    assert Enabled(states[n], acts[n]) && states[n + 1] == Next(states[n], acts[n]);
    RunInv(states, acts, n);
    NextPending(states[n], acts[n], l, h);
    if i == 0 {
      NotPendingFirst(states[0], l, h);
    } else {
      assert Enabled(states[i - 1], acts[i - 1]) && states[i] == Next(states[i - 1], acts[i - 1]);
      RunInv(states, acts, i - 1);
      NextPending(states[i - 1], acts[i - 1], l, h);
    }
    SetIn(states, acts, i, n, l, h);
  }

  lemma {:induction false} NotPendingFirst(s: State, l: nat, h: nat)
    requires Init(s)
    ensures !Pending(s, l, h)
  {
    if l < |s.loops| {
      assert InitLoop(s, l);
    }
  }

  lemma {:induction false} SetIn(states: seq<State>, acts: seq<Action>, i: nat, n: nat, l: nat, h: nat)
    requires IsRun(states, acts) && i <= n <= |acts| && !Pending(states[i], l, h)
    ensures Pending(states[n], l, h) ==> SwappedIn(states, acts, i, n, l, h)
    decreases n
  {
    hide Init, Inv, Enabled, Next, AtSwap, Pending, Serves;
    if n > i {
      SetIn(states, acts, i, n - 1, l, h);
      var s, a := states[n - 1], acts[n - 1];
      assert Enabled(s, a) && states[n] == Next(s, a);
      RunInv(states, acts, n - 1);
      NextPending(s, a, l, h);
      assert Pending(states[n], l, h) && !Pending(s, l, h) ==>
               acts[n - 1].Run? && AtSwap(states[n - 1], acts[n - 1].t, l, h);
    }
  }

  // ----- The order of handles --------------------------------------------------------------------------------

  /** The handles of a loop: those in its list, then those the scan has still to come to. */
  function InTurn(s: State, l: nat): seq<nat>
    requires l < |s.loops|
  {
    var stage := s.loops[l].stage;
    s.loops[l].handles + if stage.Polling? || stage.Reading? then [] else stage.todo
  }

  lemma {:induction false} QuietTurn(s: State, s': State, l: nat)
    requires l < |s.loops| == |s'.loops|
    requires s'.loops[l].handles == s.loops[l].handles && s'.loops[l].stage == s.loops[l].stage
    ensures InTurn(s', l) == InTurn(s, l)
  {
  }

  ghost predicate SameHandles(s: State, s': State) {
    && |s'.loops| == |s.loops|
    && forall l :: 0 <= l < |s.loops| ==>
         s'.loops[l].handles == s.loops[l].handles && s'.loops[l].stage == s.loops[l].stage
  }

  lemma {:induction false} OtherHandles(s: State, t: nat, w: nat, c: UserCall)
    ensures Posts(s, t) ==> SameHandles(s, StepPost(s, t, w))
    ensures Sends(s, t) ==> SameHandles(s, StepSend(s, t))
    ensures Seeks(s, t) ==> SameHandles(s, StepSeek(s, t, w))
    ensures MayCall(s, t, c) ==> SameHandles(s, StepCall(s, t, c))
    ensures SameHandles(s, Wake(s, t))
  {
  }

  lemma {:induction false} CancelHandles(s: State, t: nat)
    ensures Tries(s, t) ==> SameHandles(s, StepTry(s, t))
    ensures Grants(s, t) ==> SameHandles(s, StepGrant(s, t))
  {
    hide Without;
  }

  lemma {:induction false} WorkHandles(s: State, t: nat)
    ensures Works(s, t) ==> SameHandles(s, StepWork(s, t))
  {
  }

  /** A scan takes the first handle and puts it last. */
  lemma {:induction false} TurnHandlesKept(s: State, m: nat, l: nat)
    requires Turns(s, m) && l < |s.loops|
    ensures |StepLoop(s, m).loops| == |s.loops| && InTurn(StepLoop(s, m), l) == InTurn(s, l)
  {
    var stage := s.loops[m].stage;
    if stage.Scanning? && stage.todo != [] {
      var handles, h, rest := s.loops[m].handles, stage.todo[0], stage.todo[1..];
      assert stage.todo == [h] + rest;
      assert handles + ([h] + rest) == handles + [h] + rest;
    }
  }

  lemma {:induction false} NextHandles(s: State, a: Action, l: nat)
    requires Enabled(s, a) && l < |s.loops|
    ensures |Next(s, a).loops| == |s.loops| && InTurn(Next(s, a), l) == InTurn(s, l)
  {
    hide StepLoop, StepSend, StepPost, StepTry, StepGrant, StepSeek, StepWork, StepCall, MayCall, InTurn;
    match a
    case Call(t, c) =>
      OtherHandles(s, t, 0, c);
      QuietTurn(s, Next(s, a), l);
    case WakeUp(t) =>
      OtherHandles(s, t, 0, Submit);
      QuietTurn(s, Next(s, a), l);
    case Run(t, w) =>
      if s.threads[t].pc.Resting? {
        TurnHandlesKept(s, s.threads[t].role.l, l);
      } else {
        OtherHandles(s, t, w, Submit);
        CancelHandles(s, t);
        WorkHandles(s, t);
        QuietTurn(s, Next(s, a), l);
      }
  }

  /** A loop goes through its handles in one order, that of its list at the beginning, in every scan. */
  lemma {:induction false} HandlesInOrder(states: seq<State>, acts: seq<Action>, n: nat, l: nat)
    requires IsRun(states, acts) && n < |states| && l < |states[0].loops|
    ensures l < |states[n].loops| && InTurn(states[n], l) == states[0].loops[l].handles
  {
    hide Inv, Enabled, Next, InTurn;
    if n == 0 {
      FirstInTurn(states[0], l);
    } else {
      HandlesInOrder(states, acts, n - 1, l);
      assert Enabled(states[n - 1], acts[n - 1]) && states[n] == Next(states[n - 1], acts[n - 1]);
      NextHandles(states[n - 1], acts[n - 1], l);
    }
  }

  lemma {:induction false} FirstInTurn(s: State, l: nat)
    requires Init(s) && l < |s.loops|
    ensures InTurn(s, l) == s.loops[l].handles
  {
    assert InitLoop(s, l);
  }

  // ----- Back to where it was called -------------------------------------------------------------------------

  /** A thread that has called `uv_async_send` goes on where it was: a worker in its work function, any other thread at
      rest. */
  lemma {:induction false} SendReturns(states: seq<State>, acts: seq<Action>, i: nat, n: nat, t: nat, l: nat, h: nat)
    requires IsRun(states, acts) && i < n <= |acts| && acts[i] == Call(t, Send(l, h))
    requires forall m :: i < m < n ==> t < |states[m].threads| && states[m].threads[t].pc.Sending?
    requires t < |states[n].threads| && !states[n].threads[t].pc.Sending?
    ensures t < |states[i].threads| && states[n].threads[t].pc == states[i].threads[t].pc
  {
    hide Init, Inv, Next;
    assert Enabled(states[i], acts[i]) && states[i + 1] == Next(states[i], acts[i]);
    SendBegins(states[i], acts[i], t, l, h);
    assert n > i + 1;
    StillSending(states, acts, i, n - 1, t, l, h);
    assert Enabled(states[n - 1], acts[n - 1]) && states[n] == Next(states[n - 1], acts[n - 1]);
    SendGoesOn(states[n - 1], acts[n - 1], t, states[i].threads[t].pc);
  }

  /** What the thread will do after the send is to go on at `pc`. */
  predicate BackTo(k: After, pc: Pc) {
    if pc.Working? then k == ThenRun(pc.r) && pc.work == WorkStep.Running else k == ThenRest && pc == Resting
  }

  lemma {:induction false} SendBegins(s: State, a: Action, t: nat, l: nat, h: nat)
    requires Enabled(s, a) && a == Call(t, Send(l, h))
    ensures var s' := Next(s, a);
            && t < |s.threads| && t < |s'.threads| && AtCheck(s', t, l, h)
            && BackTo(s'.threads[t].pc.k, s.threads[t].pc)
  {
  }

  lemma {:induction false} SendGoesOn(s: State, a: Action, t: nat, pc: Pc)
    requires Enabled(s, a) && t < |s.threads| && s.threads[t].pc.Sending? && BackTo(s.threads[t].pc.k, pc)
    ensures t < |Next(s, a).threads|
    ensures var pc' := Next(s, a).threads[t].pc; if pc'.Sending? then BackTo(pc'.k, pc) else pc' == pc
  {
    NextStays(s, a);
    if a.t == t {
      assert a.Run?;
    }
  }

  lemma {:induction false} StillSending(states: seq<State>, acts: seq<Action>, i: nat, n: nat, t: nat, l: nat, h: nat)
    requires IsRun(states, acts) && i < n <= |acts| && acts[i] == Call(t, Send(l, h)) && t < |states[i].threads|
    requires forall m :: i < m <= n ==> t < |states[m].threads| && states[m].threads[t].pc.Sending?
    ensures BackTo(states[n].threads[t].pc.k, states[i].threads[t].pc)
    decreases n
  {
    hide Init, Inv, Enabled, Next;
    var s, a := states[n - 1], acts[n - 1];
    assert Enabled(s, a) && states[n] == Next(s, a);
    if n == i + 1 {
      SendBegins(s, a, t, l, h);
    } else {
      StillSending(states, acts, i, n - 1, t, l, h);
      SendGoesOn(s, a, t, states[i].threads[t].pc);
    }
  }
}

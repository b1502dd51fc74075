/** libuv's thread pool and async wakeup as the atomic steps of its threads: workers, loop threads, and
    outside threads that only send wakeups. A step is what one thread does to shared state between two
    points where another thread can interfere. */
module ThreadPool {
  import opened Wrappers

  /** What the global queue holds: a request, or the message that makes workers exit. */
  datatype Item = Job(r: nat) | ExitMessage

  /** The `work` field of a request: its function, cleared once that has run, or the marker that a
      cancel leaves. */
  datatype Work = Func | Cleared | Cancelled

  /** Where a request is. Auxiliary: no step looks at it. */
  datatype Place = Submitting(t: nat) | Queued | Held(t: nat) | BeingCancelled(t: nat) | Completed | Finished

  /** A request. `linked` says that its queue links do not point to itself. `started`, `granted`,
      `calls` and `status` record what has happened: its function ran, a cancel of it returned 0, how
      often its callback ran and whether that got UV_ECANCELED. */
  datatype Req = Req(loop: nat, work: Work, linked: bool, place: Place,
                     started: bool, granted: bool, calls: nat, status: bool)

  /** What a thread does after `uv_async_send`. */
  datatype After = ThenUnlock(r: nat) | ThenReturn(r: nat) | ThenRun(r: nat) | ThenRest

  datatype SendStep = Check | Swap | Write
  datatype PostStep = LockPool | Append | Signal | UnlockPool
  datatype CancelStep = TakePool | TakeLoop | Decide | GiveLoop | GivePool | Mark | Retake | Complete | Return
  datatype SeekStep = Enter | Test | Waiting | Woken | Take | Exit | Exited
  datatype WorkStep = Leave | Start | Running | TakeQueue | Clear | Deliver | GiveQueue

  /** Where a thread is: at rest, in `uv_async_send`, in `post`, in `uv__work_cancel`, a worker looking
      for something to do, or a worker with a request. */
  datatype Pc =
    | Resting
    | Sending(send: SendStep, l: nat, h: nat, k: After)
    | Posting(post: PostStep, item: Item)
    | Cancelling(cancel: CancelStep, r: nat, ok: bool)
    | Seeking(seek: SeekStep)
    | Working(work: WorkStep, r: nat)

  datatype Role = Worker | LoopThread(l: nat) | Outside

  datatype Thread = Thread(role: Role, pc: Pc)

  /** What a loop thread does when it is in none of the calls above: it polls, reads its descriptor,
      goes through its handles, and drains its completion queue when it comes to handle 0. `todo` are
      the handles still to come. */
  datatype Stage =
    | Polling | Reading
    | Scanning(todo: seq<nat>) | InCallback(todo: seq<nat>)
    | DrainLock(todo: seq<nat>) | DrainMove(todo: seq<nat>) | DrainUnlock(todo: seq<nat>)
    | Draining(todo: seq<nat>) | InDone(todo: seq<nat>)

  /** A loop. `casBy` is auxiliary: who last set a handle's `pending`. */
  datatype Loop = Loop(thread: nat, lock: Option<nat>, wq: seq<nat>, local: seq<nat>,
                       handles: seq<nat>, pending: seq<bool>, casBy: seq<nat>, readable: bool, stage: Stage)

  datatype State = State(mutex: Option<nat>, wq: seq<Item>, idle: nat,
                         threads: seq<Thread>, loops: seq<Loop>, reqs: seq<Req>)

  // ----- Updates -----------------------------------------------------------------------------------

  function Goto(s: State, t: nat, pc: Pc): State
    requires t < |s.threads|
  {
    s.(threads := s.threads[t := s.threads[t].(pc := pc)])
  }

  function WithLoop(s: State, l: nat, loop: Loop): State
    requires l < |s.loops|
  {
    s.(loops := s.loops[l := loop])
  }

  function WithReq(s: State, r: nat, req: Req): State
    requires r < |s.reqs|
  {
    s.(reqs := s.reqs[r := req])
  }

  function Without<T(==)>(q: seq<T>, x: T): seq<T> {
    if q == [] then [] else if q[0] == x then Without(q[1..], x) else [q[0]] + Without(q[1..], x)
  }

  /** Wakes the waiting worker `w`, if `w` is one. */
  function Wake(s: State, w: nat): State {
    if w < |s.threads| && s.threads[w].pc == Seeking(Waiting) then Goto(s, w, Seeking(Woken)) else s
  }

  // ----- Indices are in range --------------------------------------------------------------------------

  predicate ReqOk(s: State, r: nat) {
    r < |s.reqs| && s.reqs[r].loop < |s.loops|
  }

  predicate HandleOk(s: State, l: nat, h: nat) {
    l < |s.loops| && h < |s.loops[l].pending| && |s.loops[l].casBy| == |s.loops[l].pending|
  }

  predicate AfterOk(s: State, th: Thread, l: nat, k: After) {
    match k
    case ThenUnlock(r) => th.role.Worker? && ReqOk(s, r) && l == s.reqs[r].loop
    case ThenRun(r) => th.role.Worker? && ReqOk(s, r)
    case ThenReturn(r) => ReqOk(s, r) && th.role == LoopThread(l) && l == s.reqs[r].loop
    case ThenRest => !th.role.Worker?
  }

  /** Requests are submitted and cancelled by the thread of their loop, and worked on by workers; an
      outside thread sends wakeups and posts the exit message. */
  predicate PcOk(s: State, th: Thread) {
    match th.pc
    case Resting => !th.role.Worker?
    case Sending(_, l, h, k) => HandleOk(s, l, h) && AfterOk(s, th, l, k)
    case Posting(_, item) =>
      if item.Job? then ReqOk(s, item.r) && th.role == LoopThread(s.reqs[item.r].loop) else th.role.Outside?
    case Cancelling(_, r, _) => ReqOk(s, r) && th.role == LoopThread(s.reqs[r].loop)
    case Seeking(_) => th.role.Worker?
    case Working(_, r) => th.role.Worker? && ReqOk(s, r)
  }

  // ----- Steps -----------------------------------------------------------------------------------------

  /** Whether the thread can take its next step: it is not blocked, and has a step of its own to take. */
  predicate CanStep(s: State, t: nat)
    requires t < |s.threads| && PcOk(s, s.threads[t])
  {
    var th := s.threads[t];
    match th.pc
    case Resting => th.role.LoopThread? && th.role.l < |s.loops| && StageCanStep(s.loops[th.role.l])
    case Sending(_, _, _, _) => true
    case Posting(step, _) => step.LockPool? ==> s.mutex.None?
    case Cancelling(step, r, _) =>
      (step.TakePool? ==> s.mutex.None?) && (step.TakeLoop? || step.Retake? ==> s.loops[s.reqs[r].loop].lock.None?)
    case Seeking(step) => !step.Waiting? && !step.Exited? && (step.Enter? || step.Woken? ==> s.mutex.None?)
    case Working(step, r) => step.TakeQueue? ==> s.loops[s.reqs[r].loop].lock.None?
  }

  predicate StageCanStep(loop: Loop) {
    match loop.stage
    case Polling => loop.readable
    case DrainLock(_) => loop.lock.None?
    case _ => true
  }

  function Resume(k: After): Pc {
    match k
    case ThenUnlock(r) => Working(GiveQueue, r)
    case ThenReturn(r) => Cancelling(Return, r, true)
    case ThenRun(r) => Working(Running, r)
    case ThenRest => Resting
  }

  /** `uv_async_send`: a cheap read, a compare-and-swap, and a write to the descriptor by whoever won. */
  function StepSend(s: State, t: nat): State
    requires t < |s.threads| && PcOk(s, s.threads[t]) && s.threads[t].pc.Sending?
  {
    var pc := s.threads[t].pc;
    var loop := s.loops[pc.l];
    match pc.send
    case Check => Goto(s, t, if loop.pending[pc.h] then Resume(pc.k) else pc.(send := Swap))
    case Swap =>
      if loop.pending[pc.h] then Goto(s, t, Resume(pc.k))
      else
        var loop' := loop.(pending := loop.pending[pc.h := true], casBy := loop.casBy[pc.h := t]);
        Goto(WithLoop(s, pc.l, loop'), t, pc.(send := Write))
    case Write => Goto(WithLoop(s, pc.l, loop.(readable := true)), t, Resume(pc.k))
  }

  /** A signal that is sent only when some worker is idle. */
  function Signalled(s: State, w: nat): State {
    if s.idle > 0 then Wake(s, w) else s
  }

  /** A signal wakes a waiting worker if there is one. */
  ghost predicate Wakes(s: State, w: nat) {
    (exists t :: 0 <= t < |s.threads| && s.threads[t].pc == Seeking(Waiting)) ==>
      w < |s.threads| && s.threads[w].pc == Seeking(Waiting)
  }

  /** `post` */
  function StepPost(s: State, t: nat, w: nat): State
    requires t < |s.threads| && PcOk(s, s.threads[t]) && s.threads[t].pc.Posting?
  {
    var pc := s.threads[t].pc;
    match pc.post
    case LockPool => Goto(s.(mutex := Some(t)), t, pc.(post := Append))
    case Append =>
      var s1 := s.(wq := s.wq + [pc.item]);
      var s2 := if pc.item.Job? then WithReq(s1, pc.item.r,
                                             s.reqs[pc.item.r].(linked := true, place := Queued)) else s1;
      Goto(s2, t, pc.(post := Signal))
    case Signal => Goto(Signalled(s, w), t, pc.(post := UnlockPool))
    case UnlockPool => Goto(s.(mutex := None), t, Resting)
  }

  predicate Trying(step: CancelStep) {
    step.TakePool? || step.TakeLoop? || step.Decide? || step.GiveLoop? || step.GivePool?
  }

  /** The first half of `uv__work_cancel`: under both locks it looks whether the request can still be
      taken out of its queue. */
  function StepTry(s: State, t: nat): State
    requires t < |s.threads| && PcOk(s, s.threads[t]) && s.threads[t].pc.Cancelling? && Trying(s.threads[t].pc.cancel)
  {
    var pc := s.threads[t].pc;
    var r, req := pc.r, s.reqs[pc.r];
    var l, loop := req.loop, s.loops[req.loop];
    match pc.cancel
    case TakePool => Goto(s.(mutex := Some(t)), t, pc.(cancel := TakeLoop))
    case TakeLoop => Goto(WithLoop(s, l, loop.(lock := Some(t))), t, pc.(cancel := Decide))
    case Decide =>
      if req.linked && req.work != Cleared then Goto(TakenOut(s, t, r), t, Cancelling(GiveLoop, r, true))
      else Goto(s, t, Cancelling(GiveLoop, r, false))
    case GiveLoop => Goto(WithLoop(s, l, loop.(lock := None)), t, pc.(cancel := GivePool))
    case GivePool => Goto(s.(mutex := None), t, if pc.ok then pc.(cancel := Mark) else Resting)
  }

  /** The second half: it marks the request and puts it on the completion queue itself. */
  function StepGrant(s: State, t: nat): State
    requires t < |s.threads| && PcOk(s, s.threads[t]) && s.threads[t].pc.Cancelling? && !Trying(s.threads[t].pc.cancel)
  {
    var pc := s.threads[t].pc;
    var r, req := pc.r, s.reqs[pc.r];
    var l, loop := req.loop, s.loops[req.loop];
    match pc.cancel
    case Mark => Goto(WithReq(s, r, req.(work := Cancelled)), t, pc.(cancel := Retake))
    case Retake => Goto(WithLoop(s, l, loop.(lock := Some(t))), t, pc.(cancel := Complete))
    case Complete => Goto(Delivered(s, r), t, Sending(Check, l, 0, ThenReturn(r)))
    case Return => Goto(WithReq(WithLoop(s, l, loop.(lock := None)), r, req.(granted := true)), t, Resting)
  }

  /** Unlinks a request from whatever queue it is in. */
  function TakenOut(s: State, t: nat, r: nat): State
    requires ReqOk(s, r)
  {
    var req := s.reqs[r];
    var loop := s.loops[req.loop];
    var s1 := s.(wq := Without(s.wq, Job(r)));
    var s2 := WithLoop(s1, req.loop, loop.(wq := Without(loop.wq, r), local := Without(loop.local, r)));
    WithReq(s2, r, req.(place := BeingCancelled(t)))
  }

  /** Puts a request at the end of its loop's completion queue. */
  function Delivered(s: State, r: nat): State
    requires ReqOk(s, r)
  {
    var l := s.reqs[r].loop;
    WithReq(WithLoop(s, l, s.loops[l].(wq := s.loops[l].wq + [r])), r, s.reqs[r].(linked := true, place := Completed))
  }

  /** A worker looking for something to do. */
  function StepSeek(s: State, t: nat, w: nat): State
    requires t < |s.threads| && s.threads[t].pc.Seeking?
    requires s.threads[t].pc == Seeking(Woken) ==> s.idle > 0
    requires s.threads[t].pc == Seeking(Take) ==> s.wq != [] && (s.wq[0].Job? ==> ReqOk(s, s.wq[0].r))
  {
    match s.threads[t].pc.seek
    case Enter => Goto(s.(mutex := Some(t)), t, Seeking(Test))
    case Test =>
      if s.wq == [] then Goto(s.(idle := s.idle + 1, mutex := None), t, Seeking(Waiting)) else Goto(s, t, Seeking(Take))
    case Waiting => s
    case Woken => Goto(s.(mutex := Some(t), idle := s.idle - 1), t, Seeking(Test))
    case Take =>
      if s.wq[0] == ExitMessage then Goto(Wake(s, w), t, Seeking(Exit))
      else
        var r := s.wq[0].r;
        Goto(WithReq(s.(wq := s.wq[1..]), r, s.reqs[r].(linked := false, place := Held(t))), t, Working(Leave, r))
    case Exit => Goto(s.(mutex := None), t, Seeking(Exited))
    case Exited => s
  }

  /** A worker with a request. */
  function StepWork(s: State, t: nat): State
    requires t < |s.threads| && PcOk(s, s.threads[t]) && s.threads[t].pc.Working?
  {
    var pc := s.threads[t].pc;
    var r, req := pc.r, s.reqs[pc.r];
    var l, loop := req.loop, s.loops[req.loop];
    match pc.work
    case Leave => Goto(s.(mutex := None), t, Working(Start, r))
    case Start => Goto(WithReq(s, r, req.(started := true)), t, Working(Running, r))
    case Running => Goto(s, t, Working(TakeQueue, r))
    case TakeQueue => Goto(WithLoop(s, l, loop.(lock := Some(t))), t, Working(Clear, r))
    case Clear => Goto(WithReq(s, r, req.(work := Cleared)), t, Working(Deliver, r))
    case Deliver => Goto(Delivered(s, r), t, Sending(Check, l, 0, ThenUnlock(r)))
    case GiveQueue => Goto(WithLoop(s, l, loop.(lock := None)), t, Seeking(Enter))
  }

  /** A loop thread going about its own business: `uv__async_io`, `uv__async_event` and
      `uv__work_done`. */
  function StepLoop(s: State, l: nat): State
    requires l < |s.loops|
    requires s.loops[l].stage.Scanning? && s.loops[l].stage.todo != [] ==>
               s.loops[l].stage.todo[0] < |s.loops[l].pending|
    requires s.loops[l].stage.Draining? && s.loops[l].local != [] ==> s.loops[l].local[0] < |s.reqs|
  {
    var loop := s.loops[l];
    match loop.stage
    case Polling => WithLoop(s, l, loop.(stage := Reading))
    case Reading => WithLoop(s, l, loop.(readable := false, handles := [], stage := Scanning(loop.handles)))
    case Scanning(todo) => WithLoop(s, l,
                                    if todo == [] then loop.(stage := Polling) else Scanned(loop, todo[0], todo[1..]))
    case InCallback(todo) => WithLoop(s, l, loop.(stage := Scanning(todo)))
    case DrainLock(todo) => WithLoop(s, l, loop.(lock := Some(loop.thread), stage := DrainMove(todo)))
    case DrainMove(todo) => WithLoop(s, l, loop.(wq := [], local := loop.wq, stage := DrainUnlock(todo)))
    case DrainUnlock(todo) => WithLoop(s, l, loop.(lock := None, stage := Draining(todo)))
    case Draining(todo) =>
      if loop.local == [] then WithLoop(s, l, loop.(stage := Scanning(todo)))
      else
        var r, req := loop.local[0], s.reqs[loop.local[0]];
        WithReq(WithLoop(s, l, loop.(local := loop.local[1..], stage := InDone(todo))), r,
                req.(place := Finished, calls := req.calls + 1, status := req.work == Cancelled))
    case InDone(todo) => WithLoop(s, l, loop.(stage := Draining(todo)))
  }

  /** Looking at one handle: it goes back to the loop's list, and if it was pending its callback runs. */
  function Scanned(loop: Loop, h: nat, rest: seq<nat>): Loop
    requires h < |loop.pending|
  {
    var moved := loop.(handles := loop.handles + [h]);
    if !loop.pending[h] then moved.(stage := Scanning(rest))
    else moved.(pending := loop.pending[h := false], stage := if h == 0 then DrainLock(rest) else InCallback(rest))
  }

  /** Calls that user code makes: on a loop thread from a callback or between two of them, on a worker
      from a work function, on any other thread at any time. */
  datatype UserCall = Submit | Cancel(r: nat) | Send(l: nat, h: nat) | Cleanup

  predicate MayCall(s: State, t: nat, c: UserCall) {
    && t < |s.threads|
    && var th := s.threads[t];
       match c
       case Submit => AtUserCode(s, th)
       case Cancel(r) => AtUserCode(s, th) && ReqOk(s, r) && s.reqs[r].loop == th.role.l && s.reqs[r].place != Finished
       case Send(l, h) =>
         HandleOk(s, l, h)
           && (AtUserCode(s, th) || (th.pc.Working? && th.pc.work.Running?) || (th.role.Outside? && th.pc.Resting?))
       case Cleanup => th.role.Outside? && th.pc.Resting? && !Exiting(s)
  }

  /** The exit message has been posted, or is about to be: that happens once. */
  predicate Exiting(s: State) {
    ExitMessage in s.wq || exists t :: 0 <= t < |s.threads| && PostsExit(s.threads[t].pc)
  }

  predicate PostsExit(pc: Pc) {
    pc.Posting? && pc.item.ExitMessage? && (pc.post.LockPool? || pc.post.Append?)
  }

  predicate UserStage(stage: Stage) {
    stage.Polling? || stage.InCallback? || stage.InDone?
  }

  /** A loop thread that may run user code. */
  predicate AtUserCode(s: State, th: Thread) {
    th.role.LoopThread? && th.role.l < |s.loops| && th.pc.Resting? && UserStage(s.loops[th.role.l].stage)
  }

  function StepCall(s: State, t: nat, c: UserCall): State
    requires MayCall(s, t, c)
  {
    var th := s.threads[t];
    match c
    case Submit =>
      var r := |s.reqs|;
      Goto(s.(reqs := s.reqs + [Req(th.role.l, Func, false, Submitting(t), false, false, 0, false)]), t,
           Posting(LockPool, Job(r)))
    case Cancel(r) => Goto(s, t, Cancelling(TakePool, r, false))
    case Send(l, h) => Goto(s, t, Sending(Check, l, h, if th.pc.Working? then ThenRun(th.pc.r) else ThenRest))
    case Cleanup => Goto(s, t, Posting(LockPool, ExitMessage))
  }
}

/** Fibers: who runs, who is waiting for whom, and who gets an error. */
module Fibers {
  import opened Basics
  import opened Wrappers

  /** A value; a fiber's `error` is null while it has none. */
  datatype Value = Null | Val(id: nat)

  /** How a fiber was entered: tried, as the first one of the interpreter, or otherwise. */
  datatype Mode = Try | Root | Other

  /** A fiber: its caller, how it was entered, its error, its call frames, whether it has run yet, how many
      parameters its function takes, and its stack. */
  datatype Fiber = Fiber(caller: Option<nat>, mode: Mode, error: Value, frames: nat, started: bool, arity: nat,
                         stack: seq<Value>)

  const CANNOT_RUN := Val(0)

  function HasError(f: Fiber): bool { f.error != Null }

  /** The last slot of a fiber's stack is overwritten. */
  function Top(f: Fiber, v: Value): (g: Fiber)
    requires f.stack != []
    ensures g == f.(stack := f.stack[..|f.stack| - 1] + [v])
  {
    f.(stack := f.stack[|f.stack| - 1 := v])
  }

  /** What a fiber is when it is entered: an argument is bound on its first start; later the call it waits in
      gets its result. */
  function Entered(f: Fiber, caller: nat, v: Value): Fiber
    requires f.stack != []
  {
    var g := f.(caller := Some(caller), started := true);
    if f.started then g.(stack := f.stack[..|f.stack| - 1] + [v])
    else if f.arity == 1 then g.(stack := f.stack + [v])
    else g
  }

  /** A fiber that can be called or tried. */
  predicate Callable(f: Fiber) {
    !HasError(f) && f.caller.None? && f.mode != Root && f.frames > 0
  }

  // ----- Chains --------------------------------------------------------------------------------------------

  /** The fiber numbered `i` of a chain waits for nobody but the one before it: it is alive, and leads to the
      next one; the last one is the root. */
  predicate Waits(fs: map<nat, Fiber>, chain: seq<nat>, i: nat)
    requires i < |chain|
  {
    && chain[i] in fs
    && var f := fs[chain[i]];
       && !HasError(f) && f.frames > 0 && f.stack != [] && f.started
       && f.caller == (if i + 1 < |chain| then Some(chain[i + 1]) else None)
       && (f.mode == Root <==> i + 1 == |chain|)
  }

  /** Off the chain, a fiber that has a caller is finished or aborted. */
  predicate Loose(f: Fiber) {
    (f.caller.Some? ==> f.frames == 0 || HasError(f)) && (f.frames > 0 ==> f.stack != [])
  }

  /** The fibers that run and wait: from the running one along the callers to the root. */
  ghost predicate Chained(fs: map<nat, Fiber>, running: Option<nat>, chain: seq<nat>) {
    && running == (if chain == [] then None else Some(chain[0]))
    && Distinct(chain)
    && (forall i :: 0 <= i < |chain| ==> Waits(fs, chain, i))
    && (forall a :: a in fs && a !in chain ==> Loose(fs[a]))
  }

  /** The first tried fiber of a chain, or its length. */
  function FirstTried(fs: map<nat, Fiber>, chain: seq<nat>): (k: nat)
    ensures k <= |chain|
  {
    if chain == [] then 0
    else if chain[0] in fs && fs[chain[0]].mode == Try then 0
    else 1 + FirstTried(fs, chain[1..])
  }

  lemma {:induction false} FirstTriedIs(fs: map<nat, Fiber>, chain: seq<nat>)
    ensures var k := FirstTried(fs, chain);
            && (k < |chain| ==> chain[k] in fs && fs[chain[k]].mode == Try)
            && forall i :: 0 <= i < k ==> chain[i] in fs ==> fs[chain[i]].mode != Try
  {
    if chain != [] && !(chain[0] in fs && fs[chain[0]].mode == Try) {
      FirstTriedIs(fs, chain[1..]);
      var k := FirstTried(fs, chain[1..]);
      forall i | 0 <= i < k + 1 && chain[i] in fs ensures fs[chain[i]].mode != Try {
        assert i > 0 ==> chain[i] == chain[1..][i - 1];
      }
    }
  }

  /** Fiber `a` calls or tries fiber `b`, perhaps with a value, which is the last slot of its stack. */
  ghost predicate Switched(was: map<nat, Fiber>, now: map<nat, Fiber>, a: nat, b: nat, hasValue: bool, mode: Mode)
    requires a in was && b in was && was[b].stack != []
    requires hasValue ==> was[a].stack != []
  {
    var s := was[a].stack;
    && a != b
    && now == was[a := was[a].(stack := if hasValue then s[..|s| - 1] else s)]
                 [b := Entered(was[b], a, if hasValue then s[|s| - 1] else Null).(mode := mode)]
  }

  /** Fiber `a` may not enter fiber `b` and gets an error for it. A finished fiber that is called keeps `a` as
      its caller. */
  function Refused(fs: map<nat, Fiber>, a: nat, b: nat): (fs': map<nat, Fiber>)
    requires a in fs && b in fs
  {
    var f := fs[b];
    var marked := if !HasError(f) && f.caller.None? && f.mode != Root then fs[b := f.(caller := Some(a))] else fs;
    marked[a := marked[a].(error := CANNOT_RUN)]
  }

  /** What error `e` makes of a chain: the fibers up to the nearest tried one get it; those before that one are
      unhooked from their callers; the tried one's caller gets the error as its result; no other changes. */
  ghost predicate Unwound(was: map<nat, Fiber>, now: map<nat, Fiber>, chain: seq<nat>, e: Value)
    requires Sound(was, chain)
  {
    && now.Keys == was.Keys
    && (forall i :: 0 <= i < |chain| ==> now[chain[i]] == UnwoundAt(was, chain, e, i))
    && (forall a :: a in was && a !in chain ==> now[a] == was[a])
  }

  /** The fibers of a chain exist, with slots on their stacks. */
  predicate Sound(fs: map<nat, Fiber>, chain: seq<nat>) {
    forall i :: 0 <= i < |chain| ==> chain[i] in fs && fs[chain[i]].stack != []
  }

  predicate AliveAt(fs: map<nat, Fiber>, chain: seq<nat>, i: nat)
    requires i < |chain|
  {
    && chain[i] in fs
    && var f := fs[chain[i]];
       && f.frames > 0 && f.stack != [] && f.started && (i > 0 ==> !HasError(f))
       && f.caller == (if i + 1 < |chain| then Some(chain[i + 1]) else None)
       && (f.mode == Root <==> i + 1 == |chain|)
  }

  function UnwoundAt(was: map<nat, Fiber>, chain: seq<nat>, e: Value, i: nat): Fiber
    requires i < |chain| && chain[i] in was && was[chain[i]].stack != []
  {
    var f := was[chain[i]];
    var k := FirstTried(was, chain);
    if i < k then f.(error := e, caller := None)
    else if i == k then f.(error := e)
    else if i == k + 1 then f.(stack := f.stack[..|f.stack| - 1] + [e])
    else f
  }

  /** The chain that is left after an error. */
  function ChainAfter(fs: map<nat, Fiber>, chain: seq<nat>): seq<nat> {
    var k := FirstTried(fs, chain);
    if k < |chain| then chain[k + 1..] else []
  }

  /** The chain, but for an error the running fiber has. */
  ghost predicate Failing(fs: map<nat, Fiber>, running: Option<nat>, chain: seq<nat>) {
    && chain != [] && chain[0] in fs && HasError(fs[chain[0]])
    && Chained(fs[chain[0] := fs[chain[0]].(error := Null)], running, chain)
  }

  // ----- What an operation does to those that wait ----------------------------------------------------------

  /** All fibers, and those that run and wait. */
  datatype Snapshot = Snapshot(fibers: map<nat, Fiber>, chain: seq<nat>)

  /** The fibers of the chain from number `k` on are as they were. */
  ghost predicate Untouched(s: Snapshot, t: Snapshot, k: nat) {
    forall i :: k <= i < |s.chain| ==>
      s.chain[i] in s.fibers && s.chain[i] in t.fibers && t.fibers[s.chain[i]] == s.fibers[s.chain[i]]
  }

  /** The same fiber goes on running. */
  ghost predicate Stays(s: Snapshot, t: Snapshot) {
    t.chain == s.chain && Untouched(s, t, 1)
  }

  /** Of the fiber that ran before only the stack is different: `n` slots are gone from its end, and `more` is there. */
  ghost predicate Restacked(s: Snapshot, t: Snapshot, c: nat, n: nat, more: seq<Value>) {
    && c in s.fibers && c in t.fibers && |s.fibers[c].stack| >= n
    && t.fibers[c] == s.fibers[c].(stack := s.fibers[c].stack[..|s.fibers[c].stack| - n] + more)
  }

  /** Another fiber runs, and the one that ran waits for it; it has given up `n` slots. */
  ghost predicate Enters(s: Snapshot, t: Snapshot, n: nat) {
    && s.chain != [] && |t.chain| == |s.chain| + 1 && t.chain[1..] == s.chain
    && Untouched(s, t, 1) && Restacked(s, t, s.chain[0], n, [])
  }

  /** The first `k` fibers of the chain leave it; the one that waited for them goes on, and its last slot gets `v`. */
  ghost predicate Leaves(s: Snapshot, t: Snapshot, k: nat, v: Value) {
    && 1 <= k <= |s.chain| && t.chain == s.chain[k..]
    && Untouched(s, t, k + 1) && (k < |s.chain| ==> Restacked(s, t, s.chain[k], 1, [v]))
  }

  /** The state of the interpreter's fibers. `running` is none once it has stopped. */
  class Vm {
    var fibers: map<nat, Fiber>
    var running: Option<nat>
    ghost var chain: seq<nat>

    ghost predicate Valid()
      reads this
    {
      Chained(fibers, running, chain)
    }

    ghost function Now(): Snapshot
      reads this
    {
      Snapshot(fibers, chain)
    }

    /** A fiber runs, and the last `n` slots of its stack belong to the call it makes. */
    ghost predicate Calling(n: nat)
      reads this
    {
      Valid() && running.Some? && running.value in fibers && |fibers[running.value].stack| >= n > 0
    }

    constructor ()
      ensures Valid() && chain == [] && fibers == map[]
    {
      fibers, running, chain := map[], None, [];
    }

    /** A new fiber has one frame, and its closure on its stack. */
    method NewFiber(a: nat, arity: nat, closure: Value)
      requires Valid() && a !in fibers && arity <= 1
      modifies this
      ensures Valid() && chain == old(chain) && running == old(running)
      ensures fibers == old(fibers)[a := Fiber(None, Other, Null, 1, false, arity, [closure])]
      ensures Callable(fibers[a]) && Stays(old(Now()), Now())
    {
      ChainIn(fibers, running, chain);
      fibers := fibers[a := Fiber(None, Other, Null, 1, false, arity, [closure])];
      ChainElsewhere(old(fibers), fibers, running, chain);
    }

    /** The interpreter takes up a fiber nobody called, as the root. */
    method RunInterpreter(a: nat)
      requires Valid() && running == None && a in fibers && Callable(fibers[a])
      modifies this
      ensures Valid() && chain == [a]
      ensures fibers == old(fibers)[a := old(fibers[a]).(mode := Root, started := true)]
    {
      fibers := fibers[a := fibers[a].(mode := Root, started := true)];
      running, chain := Some(a), [a];
      Rooted(old(fibers), fibers, a);
    }

    /** Makes `b` the running fiber, called by the one that ran, or gives that one an error. */
    method RunFiber(b: nat, hasValue: bool) returns (ok: bool)
      requires Calling(if hasValue then 2 else 1) && b in fibers
      modifies this
      ensures ok == old(Callable(fibers[b]))
      ensures ok ==> Valid() && chain == [b] + old(chain) && old(fibers[b].stack != [])
                     && Switched(old(fibers), fibers, old(running.value), b, hasValue, old(fibers[b].mode))
      ensures ok <==> old(fibers[b].error == Null && fibers[b].caller.None? && fibers[b].mode != Root
                          && fibers[b].frames > 0)
      ensures ok ==> Enters(old(Now()), Now(), if hasValue then 1 else 0)
      ensures ok ==>
                var v := if hasValue then old(fibers[running.value].stack[|fibers[running.value].stack| - 1]) else Null;
                var s := old(fibers[b].stack);
                fibers[b].stack == if old(fibers[b].started) then s[..|s| - 1] + [v]
                                   else if old(fibers[b].arity) == 1 then s + [v] else s
      ensures !ok ==> Failing(fibers, running, chain) && chain == old(chain) && running == old(running)
                      && fibers == Refused(old(fibers), running.value, b)
    {
      hide Leaves, Enters, Stays, Failing, Waits, Loose, Distinct;
      ghost var fs := fibers;
      var a := running.value;
      RefusedFails(fs, running, chain, b);
      if HasError(fibers[b]) || fibers[b].caller.Some? || fibers[b].mode == Root {
        fibers := fibers[a := fibers[a].(error := CANNOT_RUN)];
        return false;
      }
      fibers := fibers[b := fibers[b].(caller := Some(a))];
      if fibers[b].frames == 0 {
        fibers := fibers[a := fibers[a].(error := CANNOT_RUN)];
        return false;
      }
      NotOnChain(fs, running, chain, b);
      var v := Null;
      if hasValue {
        var s := fibers[a].stack;
        v := s[|s| - 1];
        fibers := fibers[a := fibers[a].(stack := s[..|s| - 1])];
      }
      if !fibers[b].started {
        fibers := fibers[b := fibers[b].(started := true)];
        if fibers[b].arity == 1 {
          fibers := fibers[b := fibers[b].(stack := fibers[b].stack + [v])];
        }
      } else {
        fibers := fibers[b := Top(fibers[b], v)];
      }
      running, chain := Some(b), [b] + chain;
      assert fibers[b] == Entered(fs[b], a, v);
      Longer(fs, fibers, old(chain), b, hasValue, fs[b].mode);
      SwitchEnters(fs, fibers, Some(a), old(chain), b, hasValue, fs[b].mode);
      ok := true;
    }

    /** `call`: fiber `b` runs if it may; otherwise the running fiber fails. */
    method Call(b: nat, hasValue: bool)
      requires Calling(if hasValue then 2 else 1) && b in fibers
      modifies this
      ensures Valid()
      ensures old(Callable(fibers[b])) ==>
                chain == [b] + old(chain) && old(fibers[b].stack != [])
                && Switched(old(fibers), fibers, old(running.value), b, hasValue, old(fibers[b].mode))
      ensures old(Callable(fibers[b])) ==> Enters(old(Now()), Now(), if hasValue then 1 else 0)
      ensures !old(Callable(fibers[b])) ==> exists k :: Leaves(old(Now()), Now(), k, CANNOT_RUN)
      ensures !old(Callable(fibers[b])) ==>
                var fs := Refused(old(fibers), old(running.value), b);
                chain == ChainAfter(fs, old(chain)) && Sound(fs, old(chain))
                  && Unwound(fs, fibers, old(chain), CANNOT_RUN)
    {
      hide Leaves, Enters, Chained, Unwound, Switched, Callable, Failing;
      ghost var fs, a := fibers, running.value;
      Caller(fs, running, chain);
      var ok := RunFiber(b, hasValue);
      if !ok {
        RuntimeError();
        RefusedOthers(fs, Some(a), old(chain), b);
        ErrorLeaves(fs, Refused(fs, a, b), fibers, old(chain), CANNOT_RUN);
        assert Now() == Snapshot(fibers, ChainAfter(Refused(fs, a, b), old(chain)));
        assert old(Now()) == Snapshot(fs, old(chain));
      }
    }

    /** `try`: as `call`, but an error of `b` is caught where it was tried. */
    method TryFiber(b: nat)
      requires Calling(1) && b in fibers
      modifies this
      ensures Valid()
      ensures old(Callable(fibers[b])) ==>
                chain == [b] + old(chain) && old(fibers[b].stack != [])
                && Switched(old(fibers), fibers, old(running.value), b, false, Try)
      ensures old(Callable(fibers[b])) ==> Enters(old(Now()), Now(), 0)
      ensures !old(Callable(fibers[b])) ==> exists k :: Leaves(old(Now()), Now(), k, CANNOT_RUN)
      ensures !old(Callable(fibers[b])) ==>
                var fs := Refused(old(fibers), old(running.value), b);
                chain == ChainAfter(fs, old(chain)) && Sound(fs, old(chain))
                  && Unwound(fs, fibers, old(chain), CANNOT_RUN)
    {
      hide Leaves, Enters;
      ghost var fs, a := fibers, running.value;
      Caller(fs, running, chain);
      var ok := RunFiber(b, false);
      if !HasError(fibers[running.value]) {
        ghost var fs' := fibers;
        fibers := fibers[running.value := fibers[running.value].(mode := Try)];
        Tried(fs', fibers, running, chain);
        SwitchEnters(fs, fibers, Some(a), old(chain), b, false, Try);
      } else {
        RuntimeError();
        RefusedOthers(fs, Some(a), old(chain), b);
        ErrorLeaves(fs, Refused(fs, a, b), fibers, old(chain), CANNOT_RUN);
        assert Now() == Snapshot(fibers, ChainAfter(Refused(fs, a, b), old(chain)));
        assert old(Now()) == Snapshot(fs, old(chain));
      }
    }

    /** `yield`: the caller goes on, with the value yielded as the result of its call; the fiber that yields may
        be called again. With no caller the interpreter stops, and a value yielded stays on the stack. */
    method Yield(hasValue: bool)
      requires Calling(if hasValue then 2 else 1)
      modifies this
      ensures Valid() && chain == old(chain)[1..]
      ensures old(chain) != [] && old(chain)[0] in old(fibers)
      ensures var s := old(fibers[running.value].stack);
              Leaves(old(Now()), Now(), 1, if hasValue then s[|s| - 1] else Null)
      ensures var a := old(running.value);
              var f := old(fibers)[a];
              var drop := hasValue && |old(chain)| > 1;
              var f' := f.(caller := None, mode := Other, stack := if drop then f.stack[..|f.stack| - 1] else f.stack);
              && fibers.Keys == old(fibers).Keys
              && fibers[a] == f' && Callable(f')
              && (f.caller.Some? ==>
                    var c := f.caller.value;
                    && c in old(fibers) && c != a && old(fibers)[c].stack != []
                    && var s := old(fibers)[c].stack;
                       fibers[c] == old(fibers)[c].(stack := s[..|s| - 1]
                                                               + [if hasValue then f.stack[|f.stack| - 1] else Null]))
              && (forall c :: c in fibers && c != a && Some(c) != f.caller ==> fibers[c] == old(fibers)[c])
    {
      hide Leaves, Enters, Stays;
      ghost var fs := fibers;
      var a := running.value;
      Caller(fs, running, chain);
      running := fibers[a].caller;
      var v := if hasValue then fibers[a].stack[|fibers[a].stack| - 1] else Null;
      fibers := fibers[a := fibers[a].(caller := None, mode := Other)];
      if running.Some? {
        fibers := fibers[running.value := Top(fibers[running.value], v)];
        if hasValue {
          fibers := fibers[a := fibers[a].(stack := fibers[a].stack[..|fibers[a].stack| - 1])];
        }
      }
      chain := chain[1..];
      Shorter(fs, fibers, old(chain), v);
      ResultLeaves(fs, fibers, Some(a), old(chain), v);
    }

    /** `abort`: with null it does nothing but return; otherwise the running fiber fails. */
    method Abort()
      requires Calling(2)
      modifies this
      ensures Valid()
      ensures var a := old(running.value);
              var f := old(fibers)[a];
              var e := f.stack[|f.stack| - 1];
              var fs := old(fibers)[a := f.(error := e)];
              && (if e == Null then Stays(old(Now()), Now()) else exists k :: Leaves(old(Now()), Now(), k, e))
              && (e == Null ==>
                   chain == old(chain) && fibers == old(fibers)[a := f.(stack := f.stack[..|f.stack| - 1])])
              && (e != Null ==>
                   chain == ChainAfter(fs, old(chain)) && Sound(fs, old(chain)) && Unwound(fs, fibers, old(chain), e))
    {
      hide Leaves, Enters, Stays;
      ghost var fs := fibers;
      var a := running.value;
      Caller(fs, running, chain);
      var e := fibers[a].stack[|fibers[a].stack| - 1];
      fibers := fibers[a := fibers[a].(error := e)];
      if e == Null {
        fibers := fibers[a := fibers[a].(stack := fibers[a].stack[..|fibers[a].stack| - 1])];
        Running(fs, fibers, running, chain);
        ChangesRunning(fs, fibers, running, chain, fibers[a]);
      } else {
        assert fibers[a := fibers[a].(error := Null)] == fs;
        ghost var was := fibers;
        forall i | 1 <= i < |chain|
          ensures chain[i] in fs && chain[i] in was && fs[chain[i]] == was[chain[i]]
        {
          assert Waits(fs, chain, i) && chain[0] != chain[i];
        }
        RuntimeError();
        ErrorLeaves(fs, was, fibers, old(chain), e);
        assert Now() == Snapshot(fibers, ChainAfter(was, old(chain))) && old(Now()) == Snapshot(fs, old(chain));
      }
    }

    /** A call of a function in the running fiber. */
    method CallFunction()
      requires Calling(1)
      modifies this
      ensures Valid() && chain == old(chain) && running == old(running) && Stays(old(Now()), Now())
      ensures var f := old(fibers[running.value]);
              fibers == old(fibers)[running.value := f.(frames := f.frames + 1)]
    {
      hide Stays;
      Caller(fibers, running, chain);
      fibers := fibers[running.value := fibers[running.value].(frames := fibers[running.value].frames + 1)];
      Running(old(fibers), fibers, running, chain);
      ChangesRunning(old(fibers), fibers, running, chain, fibers[running.value]);
    }

    /** `return`, of a function whose slots begin at `start`. The fiber is finished with its last frame; its
        caller then goes on, with the result; with no caller the interpreter stops. */
    method Return(start: nat)
      requires Calling(start + 1)
      modifies this
      ensures Valid()
      ensures var a := old(running.value);
              var f := old(fibers)[a];
              var result := f.stack[|f.stack| - 1];
              && f.frames > 0 && fibers.Keys == old(fibers).Keys
              && (if f.frames > 1 then Stays(old(Now()), Now()) else Leaves(old(Now()), Now(), 1, result))
              && (f.frames > 1 ==> chain == old(chain)
                                   && fibers == old(fibers)[a := f.(frames := f.frames - 1,
                                                                    stack := f.stack[..start] + [result])])
              && (f.frames == 1 ==>
                    && chain == old(chain)[1..]
                    && fibers[a].frames == 0 && fibers[a].caller.None? && !HasError(fibers[a])
                    && (f.caller.None? ==> fibers[a].stack == [result])
                    && (f.caller.Some? ==>
                          var c := f.caller.value;
                          && c in old(fibers) && c != a && old(fibers)[c].stack != []
                          && var s := old(fibers)[c].stack;
                             fibers[c] == old(fibers)[c].(stack := s[..|s| - 1] + [result]))
                    && (forall c :: c in fibers && c != a && Some(c) != f.caller ==> fibers[c] == old(fibers)[c]))
    {
      hide Leaves, Enters, Stays;
      ghost var fs := fibers;
      var a := running.value;
      Caller(fs, running, chain);
      var n := |fibers[a].stack|;
      var result := fibers[a].stack[n - 1];
      fibers := fibers[a := fibers[a].(stack := fibers[a].stack[..n - 1], frames := fibers[a].frames - 1)];
      if fibers[a].frames > 0 {
        assert fibers[a].stack[..start] == fs[a].stack[..start];
        fibers := fibers[a := fibers[a].(stack := fibers[a].stack[..start] + [result])];
        Running(fs, fibers, running, chain);
        ChangesRunning(fs, fibers, running, chain, fibers[a]);
        return;
      }
      running := fibers[a].caller;
      if running.None? {
        fibers := fibers[a := fibers[a].(stack := [result])];
      } else {
        fibers := fibers[a := fibers[a].(caller := None)];
        fibers := fibers[running.value := Top(fibers[running.value], result)];
      }
      chain := chain[1..];
      Shorter(fs, fibers, old(chain), result);
      ResultLeaves(fs, fibers, Some(a), old(chain), result);
    }

    /** Gives the running fiber's error to the fibers of the chain, up to the nearest tried one, whose caller
        goes on; if none is tried, the interpreter stops. */
    method RuntimeError()
      requires Failing(fibers, running, chain)
      modifies this
      ensures Valid()
      ensures Sound(old(fibers), old(chain))
      ensures chain == ChainAfter(old(fibers), old(chain))
      ensures Unwound(old(fibers), fibers, old(chain), old(fibers[running.value].error))
      ensures exists k :: Leaves(old(Now()), Now(), k, old(fibers[running.value].error))
    {
      hide Chained, Waits, Unwound, UnwoundAt, FirstTried, Marked, Loose, Leaves, Failing, Distinct, Sound, AliveAt,
           ChainAfter;
      ghost var fs := fibers;
      FailingRuns(fs, running, chain);
      var error := fibers[running.value].error;
      var current := running;
      ghost var i := 0;
      while current.Some?
        invariant i <= FirstTried(fs, chain) && i <= |chain|
        invariant current == (if i < |chain| then Some(chain[i]) else None)
        invariant chain == old(chain) && running == Some(chain[0])
        invariant Marked(fs, fibers, chain, error, i)
        decreases |chain| - i
      {
        AtFiber(fs, fibers, running, chain, error, i);
        var f := fibers[current.value];
        ghost var now := fibers;
        fibers := fibers[current.value := f.(error := error)];
        if f.mode == Try {
          var c := f.caller.value;
          fibers := fibers[c := Top(fibers[c], fibers[running.value].error)];
          CaughtThere(fs, now, fibers, running, chain, error, i);
          running, chain := Some(c), ChainAfter(fs, chain);
          assert Now() == Snapshot(fibers, ChainAfter(fs, old(chain))) && old(Now()) == Snapshot(fs, old(chain));
          return;
        }
        var caller := f.caller;
        fibers := fibers[current.value := fibers[current.value].(caller := None)];
        FailingFacts(fs, running, chain);
        MarkedNext(fs, now, fibers, chain, error, i);
        current, i := caller, i + 1;
      }
      NobodyTried(fs, running, chain);
      UncaughtThere(fs, fibers, running, chain, error);
      running, chain := None, [];
      assert Now() == Snapshot(fibers, ChainAfter(fs, old(chain))) && old(Now()) == Snapshot(fs, old(chain));
    }
  }

  // ----- What holds of every chain --------------------------------------------------------------------------

  lemma {:induction false} ChainIn(fs: map<nat, Fiber>, running: Option<nat>, chain: seq<nat>)
    requires Chained(fs, running, chain)
    ensures Sound(fs, chain)
    ensures forall i :: 0 <= i < |chain| ==> !Callable(fs[chain[i]])
  {
    forall i | 0 <= i < |chain| ensures chain[i] in fs && fs[chain[i]].stack != [] && !Callable(fs[chain[i]]) {
      assert Waits(fs, chain, i);
    }
  }

  /** No fiber that runs or waits can be called or tried: so a chain never comes back to a fiber it holds. */
  lemma {:induction false} NoneCallable(fs: map<nat, Fiber>, running: Option<nat>, chain: seq<nat>)
    requires Chained(fs, running, chain)
    ensures forall a :: a in chain ==> a in fs && !Callable(fs[a])
  {
    ChainIn(fs, running, chain);
  }

  /** The fiber `n` calls up from `a`. */
  function Up(fs: map<nat, Fiber>, a: Option<nat>, n: nat): Option<nat>
    decreases n
  {
    if n == 0 || a.None? || a.value !in fs then a else Up(fs, fs[a.value].caller, n - 1)
  }

  /** The callers of the running fiber are the chain, one after the other; after the last comes nobody. */
  lemma {:induction false} CallersAre(fs: map<nat, Fiber>, running: Option<nat>, chain: seq<nat>, i: nat, n: nat)
    requires Chained(fs, running, chain) && i + n <= |chain|
    ensures Up(fs, if i < |chain| then Some(chain[i]) else None, n)
         == (if i + n < |chain| then Some(chain[i + n]) else None)
    decreases n
  {
    if n > 0 {
      assert Waits(fs, chain, i);
      CallersAre(fs, running, chain, i + 1, n - 1);
    }
  }

  /** The chain is what the callers make it: from the running fiber they never meet a fiber twice, and they end
      at the only root among them. */
  lemma {:induction false} ChainEndsAtRoot(fs: map<nat, Fiber>, running: Option<nat>, chain: seq<nat>)
    requires Chained(fs, running, chain)
    ensures forall m, n :: 0 <= m < n <= |chain| ==> Up(fs, running, m) != Up(fs, running, n)
    ensures Up(fs, running, |chain|).None?
    ensures chain != [] ==> var r := Up(fs, running, |chain| - 1);
                            r.Some? && r.value in fs && fs[r.value].mode == Root && fs[r.value].caller.None?
  {
    CallersAre(fs, running, chain, 0, |chain|);
    forall m, n | 0 <= m < n <= |chain| ensures Up(fs, running, m) != Up(fs, running, n) {
      CallersAre(fs, running, chain, 0, m);
      CallersAre(fs, running, chain, 0, n);
      assert n < |chain| ==> chain[m] != chain[n];
    }
    if chain != [] {
      CallersAre(fs, running, chain, 0, |chain| - 1);
      assert Waits(fs, chain, |chain| - 1);
    }
  }

  // ----- Steps ----------------------------------------------------------------------------------------------

  /** A change off the chain. */
  lemma {:induction false} ChainElsewhere(fs: map<nat, Fiber>, fs': map<nat, Fiber>, running: Option<nat>,
                                          chain: seq<nat>)
    requires Chained(fs, running, chain)
    requires forall a :: a in chain ==> a in fs && a in fs' && fs'[a] == fs[a]
    requires forall a :: a in fs' && a !in chain ==> Loose(fs'[a])
    ensures Chained(fs', running, chain)
  {
    forall i | 0 <= i < |chain| ensures Waits(fs', chain, i) {
      assert Waits(fs, chain, i);
    }
  }

  /** The running fiber changes its stack or its frames. */
  lemma {:induction false} Running(fs: map<nat, Fiber>, fs': map<nat, Fiber>, running: Option<nat>, chain: seq<nat>)
    requires Chained(fs, running, chain) && chain != [] && chain[0] in fs
    requires exists frames: nat, stack ::
               frames > 0 && stack != [] && fs' == fs[chain[0] := fs[chain[0]].(frames := frames, stack := stack)]
    ensures Chained(fs', running, chain)
  {
    forall i | 0 <= i < |chain| ensures Waits(fs', chain, i) {
      assert Waits(fs, chain, i);
      assert i > 0 ==> chain[0] != chain[i];
    }
  }

  lemma {:induction false} Tried(fs: map<nat, Fiber>, fs': map<nat, Fiber>, running: Option<nat>, chain: seq<nat>)
    requires Chained(fs, running, chain) && |chain| > 1 && chain[0] in fs
    requires fs' == fs[chain[0] := fs[chain[0]].(mode := Try)]
    ensures Chained(fs', running, chain)
  {
    forall i | 0 <= i < |chain| ensures Waits(fs', chain, i) {
      assert Waits(fs, chain, i);
      assert i > 0 ==> chain[0] != chain[i];
    }
  }

  lemma {:induction false} Rooted(fs: map<nat, Fiber>, fs': map<nat, Fiber>, a: nat)
    requires Chained(fs, None, []) && a in fs && Callable(fs[a])
    requires fs' == fs[a := fs[a].(mode := Root, started := true)]
    ensures Chained(fs', Some(a), [a])
  {
    assert Loose(fs[a]);
    assert Waits(fs', [a], 0);
  }

  lemma {:induction false} NotOnChain(fs: map<nat, Fiber>, running: Option<nat>, chain: seq<nat>, b: nat)
    requires Chained(fs, running, chain) && b in fs && Callable(fs[b])
    ensures b !in chain && fs[b].stack != []
  {
    NoneCallable(fs, running, chain);
    assert Loose(fs[b]);
  }

  lemma {:induction false} Longer(fs: map<nat, Fiber>, fs': map<nat, Fiber>, chain: seq<nat>, b: nat, hasValue: bool,
                                  mode: Mode)
    requires chain != [] && Chained(fs, Some(chain[0]), chain) && b in fs && Callable(fs[b]) && mode != Root
    requires chain[0] in fs && |fs[chain[0]].stack| >= (if hasValue then 2 else 1)
    requires fs[b].stack != [] && Switched(fs, fs', chain[0], b, hasValue, mode)
    ensures Chained(fs', Some(b), [b] + chain)
  {
    NotOnChain(fs, Some(chain[0]), chain, b);
    var longer := [b] + chain;
    forall i | 0 <= i < |longer| ensures Waits(fs', longer, i) {
      if i > 0 {
        assert longer[i] == chain[i - 1];
        assert Waits(fs, chain, i - 1);
        assert i > 1 ==> chain[0] != chain[i - 1];
      }
    }
    forall a | a in fs' && a !in longer ensures Loose(fs'[a]) {
      forall k | 0 <= k < |chain| ensures chain[k] != a { assert longer[k + 1] == chain[k]; }
      assert a !in chain;
    }
  }

  lemma {:induction false} RefusedFails(fs: map<nat, Fiber>, running: Option<nat>, chain: seq<nat>, b: nat)
    requires Chained(fs, running, chain) && running.Some? && running.value in fs && b in fs
    ensures chain != []
    ensures !Callable(fs[b]) ==> Failing(Refused(fs, running.value, b), running, chain)
  {
    ChainIn(fs, running, chain);
    var a := running.value;
    var f := fs[b];
    assert Waits(fs, chain, 0);
    if !HasError(f) && f.caller.None? && f.mode != Root && f.frames == 0 {
      var fs' := fs[b := f.(caller := Some(a))];
      forall i | 0 <= i < |chain| ensures chain[i] != b { assert Waits(fs, chain, i); }
      assert b !in chain;
      ChainElsewhere(fs, fs', running, chain);
      assert Refused(fs, a, b)[a := Refused(fs, a, b)[a].(error := Null)] == fs';
    } else if !Callable(f) {
      assert Refused(fs, a, b)[a := Refused(fs, a, b)[a].(error := Null)] == fs;
    }
  }

  /** The running fiber and its caller. */
  lemma {:induction false} Caller(fs: map<nat, Fiber>, running: Option<nat>, chain: seq<nat>)
    requires Chained(fs, running, chain) && running.Some?
    ensures chain != [] && Waits(fs, chain, 0) && chain[0] == running.value
    ensures |chain| > 1 ==> Waits(fs, chain, 1) && chain[1] != chain[0]
  {
  }

  /** The running fiber leaves the chain, and its caller gets a result. */
  lemma {:induction false} Shorter(fs: map<nat, Fiber>, fs': map<nat, Fiber>, chain: seq<nat>, v: Value)
    requires chain != [] && Chained(fs, Some(chain[0]), chain)
    requires fs'.Keys == fs.Keys && chain[0] in fs'
    requires fs'[chain[0]].caller == None && (fs'[chain[0]].frames > 0 ==> fs'[chain[0]].stack != [])
    requires |chain| > 1 ==> chain[1] in fs && fs[chain[1]].stack != [] && fs'[chain[1]] == Top(fs[chain[1]], v)
    requires forall a :: a in fs && a != chain[0] && (|chain| > 1 ==> a != chain[1]) ==> fs'[a] == fs[a]
    ensures Chained(fs', if |chain| > 1 then Some(chain[1]) else None, chain[1..])
  {
    var rest := chain[1..];
    forall i | 0 <= i < |rest| ensures Waits(fs', rest, i) {
      assert Waits(fs, chain, i + 1);
      assert chain[0] != chain[i + 1];
      assert i > 0 ==> chain[1] != chain[i + 1];
    }
    forall a | a in fs' && a !in rest ensures Loose(fs'[a]) {
      if a != chain[0] {
        forall k | 0 < k < |chain| ensures chain[k] != a { assert rest[k - 1] == chain[k]; }
        assert a !in chain;
        assert |chain| > 1 ==> rest[0] == chain[1];
      }
    }
  }

  // ----- What operations do to those that wait ---------------------------------------------------------------

  lemma {:induction false} ChangesRunning(fs: map<nat, Fiber>, fs': map<nat, Fiber>, running: Option<nat>,
                                          chain: seq<nat>, f: Fiber)
    requires Chained(fs, running, chain) && chain != [] && fs' == fs[chain[0] := f]
    ensures Stays(Snapshot(fs, chain), Snapshot(fs', chain))
  {
    forall i | 1 <= i < |chain| ensures chain[i] in fs && chain[i] in fs' && fs'[chain[i]] == fs[chain[i]] {
      assert Waits(fs, chain, i) && chain[0] != chain[i];
    }
  }

  lemma {:induction false} SwitchEnters(fs: map<nat, Fiber>, fs': map<nat, Fiber>, running: Option<nat>,
                                        chain: seq<nat>, b: nat, hasValue: bool, mode: Mode)
    requires Chained(fs, running, chain) && chain != [] && chain[0] in fs && b in fs && Callable(fs[b])
    requires fs[b].stack != [] && (hasValue ==> fs[chain[0]].stack != [])
    requires Switched(fs, fs', chain[0], b, hasValue, mode)
    ensures Enters(Snapshot(fs, chain), Snapshot(fs', [b] + chain), if hasValue then 1 else 0)
  {
    hide Chained, Callable;
    NoneCallable(fs, running, chain);
    assert b !in chain;
    var a := chain[0];
    forall i | 1 <= i < |chain| ensures chain[i] in fs && chain[i] in fs' && fs'[chain[i]] == fs[chain[i]] {
      assert chain[i] in chain;
      assert Distinct(chain) by { DistinctChain(fs, running, chain); }
    }
    var t := fs[a].stack;
    assert t[..|t|] + [] == t && t == t[..|t|];
    assert hasValue ==> t[..|t| - 1] + [] == t[..|t| - 1];
  }

  lemma {:induction false} DistinctChain(fs: map<nat, Fiber>, running: Option<nat>, chain: seq<nat>)
    requires Chained(fs, running, chain)
    ensures Distinct(chain)
  {
  }

  /** The running fiber leaves the chain, and the next one gets a result. */
  lemma {:induction false} ResultLeaves(fs: map<nat, Fiber>, fs': map<nat, Fiber>, running: Option<nat>,
                                        chain: seq<nat>, v: Value)
    requires Chained(fs, running, chain) && chain != [] && fs'.Keys == fs.Keys
    requires |chain| > 1 ==> chain[1] in fs && fs[chain[1]].stack != [] && fs'[chain[1]] == Top(fs[chain[1]], v)
    requires forall a :: a in fs && a != chain[0] && (|chain| > 1 ==> a != chain[1]) ==> fs'[a] == fs[a]
    ensures Leaves(Snapshot(fs, chain), Snapshot(fs', chain[1..]), 1, v)
  {
    forall i | 2 <= i < |chain| ensures chain[i] in fs && chain[i] in fs' && fs'[chain[i]] == fs[chain[i]] {
      assert Waits(fs, chain, i) && chain[0] != chain[i] && chain[1] != chain[i];
    }
  }

  /** An error leaves all fibers up to the tried one, whose caller goes on. `fs` is how the fibers were before the
      running one got its error. */
  lemma {:induction false} ErrorLeaves(fs: map<nat, Fiber>, was: map<nat, Fiber>, now: map<nat, Fiber>, chain: seq<nat>,
                                       e: Value)
    requires chain != [] && Sound(was, chain) && Unwound(was, now, chain, e)
    requires forall i :: 1 <= i < |chain| ==> chain[i] in fs && fs[chain[i]] == was[chain[i]]
    ensures exists k :: Leaves(Snapshot(fs, chain), Snapshot(now, ChainAfter(was, chain)), k, e)
  {
    var k0 := FirstTried(was, chain);
    var k := if k0 < |chain| then k0 + 1 else |chain|;
    hide FirstTried;
    forall i | 1 <= i < |chain| && i >= k
      ensures chain[i] in fs && chain[i] in now
      ensures now[chain[i]] == if i == k then Top(fs[chain[i]], e) else fs[chain[i]]
    {
      assert now[chain[i]] == UnwoundAt(was, chain, e, i);
    }
    assert Leaves(Snapshot(fs, chain), Snapshot(now, ChainAfter(was, chain)), k, e);
  }

  /** A call that is refused leaves the others as they were. */
  lemma {:induction false} RefusedOthers(fs: map<nat, Fiber>, running: Option<nat>, chain: seq<nat>, b: nat)
    requires Chained(fs, running, chain) && chain != [] && chain[0] in fs && b in fs && !Callable(fs[b])
    ensures var was := Refused(fs, chain[0], b);
            forall i :: 1 <= i < |chain| ==> chain[i] in fs && chain[i] in was && fs[chain[i]] == was[chain[i]]
  {
    var was := Refused(fs, chain[0], b);
    forall i | 1 <= i < |chain|
      ensures chain[i] in fs && chain[i] in was && fs[chain[i]] == was[chain[i]]
    {
      assert Waits(fs, chain, i) && chain[0] != chain[i];
      if chain[i] == b {
        assert fs[b].caller.None? ==> fs[b].mode == Root;
      }
    }
  }

  // ----- Errors ---------------------------------------------------------------------------------------------

  lemma {:induction false} FailingFacts(fs: map<nat, Fiber>, running: Option<nat>, chain: seq<nat>)
    requires Failing(fs, running, chain)
    ensures Sound(fs, chain) && Distinct(chain) && running == Some(chain[0])
    ensures forall i :: 0 <= i < |chain| ==> AliveAt(fs, chain, i)
  {
    var fs' := fs[chain[0] := fs[chain[0]].(error := Null)];
    forall i | 0 <= i < |chain| ensures chain[i] in fs && fs[chain[i]].stack != [] && AliveAt(fs, chain, i) {
      assert Waits(fs', chain, i);
      assert i > 0 ==> chain[0] != chain[i];
    }
  }

  /** The loop over the chain has done the first `i` fibers. */
  ghost predicate Marked(was: map<nat, Fiber>, now: map<nat, Fiber>, chain: seq<nat>, e: Value, i: nat)
    requires Sound(was, chain)
  {
    && now.Keys == was.Keys
    && (forall j :: 0 <= j < i && j < |chain| ==> now[chain[j]] == was[chain[j]].(error := e, caller := None))
    && (forall j :: i <= j < |chain| ==> now[chain[j]] == was[chain[j]])
    && (forall a :: a in was && a !in chain ==> now[a] == was[a])
  }

  lemma {:induction false} MarkedAt(was: map<nat, Fiber>, now: map<nat, Fiber>, chain: seq<nat>, e: Value, i: nat)
    requires Sound(was, chain) && i < |chain|
    ensures Marked(was, was, chain, e, 0)
    ensures Marked(was, now, chain, e, i) ==> chain[i] in now && now[chain[i]] == was[chain[i]]
    ensures Marked(was, now, chain, e, i) && i + 1 < |chain| ==>
              chain[i + 1] in now && now[chain[i + 1]] == was[chain[i + 1]]
    ensures Marked(was, now, chain, e, i) && was[chain[0]].error == e ==> chain[0] in now && now[chain[0]].error == e
  {
  }

  lemma {:induction false} MarkedNext(was: map<nat, Fiber>, now: map<nat, Fiber>, now': map<nat, Fiber>,
                                      chain: seq<nat>, e: Value, i: nat)
    requires Sound(was, chain) && Distinct(chain) && i < |chain| && Marked(was, now, chain, e, i)
    requires now' == now[chain[i] := was[chain[i]].(error := e, caller := None)]
    ensures Marked(was, now', chain, e, i + 1)
  {
    forall j | 0 <= j < |chain| && j != i ensures now'[chain[j]] == now[chain[j]] {
      assert chain[i] != chain[j];
    }
  }

  lemma {:induction false} InRest<T>(chain: seq<T>, k: nat, j: nat)
    requires k <= |chain| && j < |chain|
    ensures j >= k ==> chain[j] in chain[k..]
  {
    if j >= k {
      assert chain[j] == chain[k..][j - k];
    }
  }

  /** The nearest tried fiber is found. */
  lemma {:induction false} Caught(was: map<nat, Fiber>, now: map<nat, Fiber>, now': map<nat, Fiber>,
                                  running: Option<nat>, chain: seq<nat>, e: Value, i: nat)
    requires Failing(was, running, chain)
    requires Sound(was, chain) && i < |chain| && Marked(was, now, chain, e, i)
    requires i == FirstTried(was, chain)
    requires was[chain[i]].mode == Try && i + 1 < |chain| && chain[i + 1] != chain[i]
    requires now' == now[chain[i] := was[chain[i]].(error := e)][chain[i + 1] := Top(was[chain[i + 1]], e)]
    requires e != Null
    ensures Unwound(was, now', chain, e)
    ensures Chained(now', Some(chain[i + 1]), chain[i + 1..])
  {
    hide Failing, Chained, FirstTried;
    FailingFacts(was, running, chain);
    CaughtUnwinds(was, now, now', chain, e, i);
    CaughtChain(was, now', running, chain, e, i);
  }

  lemma {:induction false} CaughtUnwinds(was: map<nat, Fiber>, now: map<nat, Fiber>, now': map<nat, Fiber>,
                                         chain: seq<nat>, e: Value, i: nat)
    requires Sound(was, chain) && Distinct(chain) && i + 1 < |chain| && Marked(was, now, chain, e, i)
    requires i == FirstTried(was, chain)
    requires now' == now[chain[i] := was[chain[i]].(error := e)][chain[i + 1] := Top(was[chain[i + 1]], e)]
    ensures Unwound(was, now', chain, e)
  {
    hide FirstTried;
    forall j | 0 <= j < |chain| ensures now'[chain[j]] == UnwoundAt(was, chain, e, j) {
      assert j < i ==> chain[j] != chain[i] && chain[j] != chain[i + 1];
      assert j > i + 1 ==> chain[i] != chain[j] && chain[i + 1] != chain[j];
    }
  }

  /** What is left of the chain. */
  lemma {:induction false} CaughtChain(was: map<nat, Fiber>, now': map<nat, Fiber>, running: Option<nat>,
                                       chain: seq<nat>, e: Value, i: nat)
    requires Failing(was, running, chain) && Sound(was, chain) && Unwound(was, now', chain, e) && e != Null
    requires i == FirstTried(was, chain) && i + 1 < |chain|
    ensures Chained(now', Some(chain[i + 1]), chain[i + 1..])
  {
    hide Failing, FirstTried;
    FailingFacts(was, running, chain);
    var rest := chain[i + 1..];
    forall j | 0 <= j < |rest| ensures Waits(now', rest, j) {
      assert rest[j] == chain[i + 1 + j];
      assert AliveAt(was, chain, i + 1 + j);
      assert now'[chain[i + 1 + j]] == UnwoundAt(was, chain, e, i + 1 + j);
    }
    forall a | a in now' && a !in rest ensures Loose(now'[a]) {
      if a in chain {
        var j :| 0 <= j < |chain| && chain[j] == a;
        InRest(chain, i + 1, j);
        assert AliveAt(was, chain, j);
        assert now'[chain[j]] == UnwoundAt(was, chain, e, j);
      } else {
        FailingLoose(was, running, chain, a);
      }
    }
    forall j, l | 0 <= j < l < |rest| ensures rest[j] != rest[l] {
      assert chain[i + 1 + j] != chain[i + 1 + l];
    }
  }

  lemma {:induction false} FailingLoose(fs: map<nat, Fiber>, running: Option<nat>, chain: seq<nat>, a: nat)
    requires Failing(fs, running, chain) && a in fs && a !in chain
    ensures Loose(fs[a])
  {
    var fs' := fs[chain[0] := fs[chain[0]].(error := Null)];
    assert a in fs' && fs'[a] == fs[a];
  }

  /** No fiber of the chain was tried. */
  lemma {:induction false} Uncaught(was: map<nat, Fiber>, now: map<nat, Fiber>, running: Option<nat>, chain: seq<nat>,
                                    e: Value)
    requires Failing(was, running, chain)
    requires Sound(was, chain) && Marked(was, now, chain, e, |chain|) && FirstTried(was, chain) == |chain|
    ensures Unwound(was, now, chain, e)
    ensures Chained(now, None, [])
  {
    forall a | a in now ensures Loose(now[a]) {
      if a in chain {
        var j :| 0 <= j < |chain| && chain[j] == a;
        FailingFacts(was, running, chain);
        assert AliveAt(was, chain, j);
      } else {
        FailingLoose(was, running, chain, a);
      }
    }
  }

  // ----- The walk along the callers -------------------------------------------------------------------------

  lemma {:induction false} FailingRuns(fs: map<nat, Fiber>, running: Option<nat>, chain: seq<nat>)
    requires Failing(fs, running, chain)
    ensures Sound(fs, chain) && chain != [] && running == Some(chain[0]) && chain[0] in fs
    ensures Marked(fs, fs, chain, fs[chain[0]].error, 0) && fs[chain[0]].error != Null
  {
    FailingFacts(fs, running, chain);
  }

  /** What the walk finds at fiber number `i`. */
  lemma {:induction false} AtFiber(fs: map<nat, Fiber>, now: map<nat, Fiber>, running: Option<nat>, chain: seq<nat>,
                                   e: Value, i: nat)
    requires Failing(fs, running, chain) && Sound(fs, chain) && chain != [] && chain[0] in fs && fs[chain[0]].error == e
    requires i < |chain| && i <= FirstTried(fs, chain) && Marked(fs, now, chain, e, i)
    ensures chain[i] in now && now[chain[i]] == fs[chain[i]] && chain[0] in now && now[chain[0]].error == e
    ensures now[chain[i]].caller == if i + 1 < |chain| then Some(chain[i + 1]) else None
    ensures if now[chain[i]].mode == Try then
              && i + 1 < |chain| && chain[i] != chain[i + 1] && chain[i + 1] in now && now[chain[i + 1]].stack != []
              && now[chain[i + 1]] == fs[chain[i + 1]] && i == FirstTried(fs, chain)
            else i + 1 <= FirstTried(fs, chain)
  {
    hide Chained, FirstTried;
    FailingFacts(fs, running, chain);
    FirstTriedIs(fs, chain);
    MarkedAt(fs, now, chain, e, i);
    assert AliveAt(fs, chain, i);
  }

  lemma {:induction false} NobodyTried(fs: map<nat, Fiber>, running: Option<nat>, chain: seq<nat>)
    ensures FirstTried(fs, chain) <= |chain|
  {
  }

  /** The nearest tried fiber is found: its caller goes on. */
  lemma {:induction false} CaughtThere(was: map<nat, Fiber>, now: map<nat, Fiber>, now': map<nat, Fiber>,
                                       running: Option<nat>, chain: seq<nat>, e: Value, i: nat)
    requires Failing(was, running, chain) && e != Null
    requires Sound(was, chain) && i + 1 < |chain| && Marked(was, now, chain, e, i) && i == FirstTried(was, chain)
    requires was[chain[i]].mode == Try && chain[i + 1] != chain[i]
    requires now' == now[chain[i] := was[chain[i]].(error := e)][chain[i + 1] := Top(was[chain[i + 1]], e)]
    ensures Unwound(was, now', chain, e) && Chained(now', Some(chain[i + 1]), ChainAfter(was, chain))
    ensures exists k :: Leaves(Snapshot(was, chain), Snapshot(now', ChainAfter(was, chain)), k, e)
  {
    hide Chained, Failing, Marked, Unwound, FirstTried, Leaves;
    Caught(was, now, now', running, chain, e, i);
    ErrorLeaves(was, was, now', chain, e);
  }

  lemma {:induction false} UncaughtThere(was: map<nat, Fiber>, now: map<nat, Fiber>, running: Option<nat>,
                                         chain: seq<nat>, e: Value)
    requires Failing(was, running, chain) && chain != []
    requires Sound(was, chain) && Marked(was, now, chain, e, |chain|) && FirstTried(was, chain) == |chain|
    ensures Unwound(was, now, chain, e) && Chained(now, None, []) && ChainAfter(was, chain) == []
    ensures exists k :: Leaves(Snapshot(was, chain), Snapshot(now, []), k, e)
  {
    hide Chained, Failing, Marked, Unwound, FirstTried, Leaves;
    Uncaught(was, now, running, chain, e);
    ErrorLeaves(was, was, now, chain, e);
  }
}

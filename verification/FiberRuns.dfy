/** What a call of a fiber gives, whatever happens until its caller goes on: stated on the stacks alone. */
module FiberRuns {
  import opened Basics
  import opened Fibers

  /** One operation of the interpreter on its fibers: the same fiber goes on, another one is entered, or some leave. */
  ghost predicate Operates(s: Snapshot, t: Snapshot) {
    || Stays(s, t)
    || (exists n :: Enters(s, t, n))
    || (exists k, v :: Leaves(s, t, k, v))
  }

  ghost predicate IsRun(run: seq<Snapshot>) {
    forall i :: 0 <= i < |run| - 1 ==> Operates(run[i], run[i + 1])
  }

  /** Above `rest` other fibers run. */
  ghost predicate Above(s: Snapshot, rest: seq<nat>) {
    |s.chain| > |rest| && s.chain[|s.chain| - |rest|..] == rest
  }

  /** The fibers `rest` are the same. */
  ghost predicate SameFibers(s: Snapshot, t: Snapshot, rest: seq<nat>) {
    forall i :: 0 <= i < |rest| ==> rest[i] in s.fibers && rest[i] in t.fibers && t.fibers[rest[i]] == s.fibers[rest[i]]
  }

  /** Every fiber of `rest` is there. */
  ghost predicate Present(s: Snapshot, rest: seq<nat>) {
    forall i :: 0 <= i < |rest| ==> rest[i] in s.fibers
  }

  lemma {:induction false} StaysAbove(s: Snapshot, t: Snapshot, rest: seq<nat>)
    requires Stays(s, t) && Above(s, rest)
    ensures Above(t, rest) && SameFibers(s, t, rest)
  {
    forall i | 0 <= i < |rest|
      ensures rest[i] in s.fibers && rest[i] in t.fibers && t.fibers[rest[i]] == s.fibers[rest[i]]
    {
      assert rest[i] == s.chain[|s.chain| - |rest| + i];
    }
  }

  lemma {:induction false} EntersAbove(s: Snapshot, t: Snapshot, n: nat, rest: seq<nat>)
    requires Enters(s, t, n) && Above(s, rest)
    ensures Above(t, rest) && SameFibers(s, t, rest)
  {
    var m := |s.chain| - |rest|;
    forall i | 0 <= i < |rest|
      ensures rest[i] in s.fibers && rest[i] in t.fibers && t.fibers[rest[i]] == s.fibers[rest[i]]
      ensures t.chain[m + 1 + i] == rest[i]
    {
      assert rest[i] == s.chain[m + i] == t.chain[1..][m + i];
    }
  }

  lemma {:induction false} LeavesAbove(s: Snapshot, t: Snapshot, k: nat, v: Value, rest: seq<nat>)
    requires Leaves(s, t, k, v) && Above(s, rest) && |t.chain| > |rest|
    ensures Above(t, rest) && SameFibers(s, t, rest)
  {
    var m := |s.chain| - |rest|;
    forall i | 0 <= i < |rest|
      ensures rest[i] in s.fibers && rest[i] in t.fibers && t.fibers[rest[i]] == s.fibers[rest[i]]
      ensures t.chain[m - k + i] == rest[i]
    {
      assert rest[i] == s.chain[m + i] == s.chain[k..][m - k + i];
    }
  }

  /** An operation after which others still run above `rest` leaves the fibers of `rest` alone. */
  lemma {:induction false} OneAbove(s: Snapshot, t: Snapshot, rest: seq<nat>)
    requires Operates(s, t) && Above(s, rest) && |t.chain| > |rest|
    ensures Above(t, rest) && SameFibers(s, t, rest)
  {
    hide Stays, Enters, Leaves, Above, SameFibers;
    if Stays(s, t) {
      StaysAbove(s, t, rest);
    } else if n: nat :| Enters(s, t, n) {
      EntersAbove(s, t, n, rest);
    } else {
      var k: nat, v :| Leaves(s, t, k, v);
      LeavesAbove(s, t, k, v, rest);
    }
  }

  /** As long as others run above `rest`, its fibers stay as they are. */
  lemma {:induction false} WaitingUntouched(run: seq<Snapshot>, rest: seq<nat>)
    requires run != [] && IsRun(run) && Above(run[0], rest) && Present(run[0], rest)
    requires forall i :: 0 <= i < |run| ==> |run[i].chain| > |rest|
    ensures Above(run[|run| - 1], rest) && SameFibers(run[0], run[|run| - 1], rest)
    decreases |run|
  {
    hide Operates, Above;
    if |run| > 1 {
      var shorter := run[..|run| - 1];
      WaitingUntouched(shorter, rest);
      OneAbove(run[|run| - 2], run[|run| - 1], rest);
    }
  }

  /** The fiber that waited goes on: its last slot is what the one above it has left for it. */
  lemma {:induction false} WaitingEnds(s: Snapshot, t: Snapshot, rest: seq<nat>) returns (k: nat, v: Value)
    requires Operates(s, t) && Above(s, rest) && rest != [] && t.chain == rest
    ensures Leaves(s, t, k, v) && Restacked(s, t, rest[0], 1, [v]) && SameFibers(s, t, rest[1..])
  {
    k, v :| Leaves(s, t, k, v);
    var m := |s.chain| - |rest|;
    assert k == m;
    assert forall i :: 0 <= i < |rest| ==> rest[i] == s.chain[m + i];
  }

  /** A fiber enters another one, giving up `n` slots, and is next in charge at the end of the run. Then its stack is
      what it was below those slots, but for the last slot left: that holds the value that was yielded, returned, or
      raised as an error in the operation that ended its wait. Those that waited for it are as they were. */
  lemma {:induction false} CallGivesResult(run: seq<Snapshot>, n: nat)
    returns (k: nat, v: Value)
    requires |run| > 2 && IsRun(run) && Enters(run[0], run[1], n) && Present(run[0], run[0].chain)
    requires forall i :: 0 < i < |run| - 1 ==> |run[i].chain| > |run[0].chain|
    requires run[|run| - 1].chain == run[0].chain && |run[0].fibers[run[0].chain[0]].stack| > n
    ensures Leaves(run[|run| - 2], run[|run| - 1], k, v)
    ensures var a := run[0].chain[0];
            var stack := run[0].fibers[a].stack;
            && a in run[|run| - 1].fibers
            && run[|run| - 1].fibers[a] == run[0].fibers[a].(stack := stack[..|stack| - n - 1] + [v])
    ensures SameFibers(run[0], run[|run| - 1], run[0].chain[1..])
  {
    var rest := run[0].chain;
    var a := rest[0];
    var stack := run[0].fibers[a].stack;
    var mid := run[1..|run| - 1];
    assert forall i :: 0 <= i < |mid| ==> mid[i] == run[i + 1];
    assert run[1].chain[|run[1].chain| - |rest|..] == rest;
    WaitingUntouched(mid, rest);
    k, v := WaitingEnds(run[|run| - 2], run[|run| - 1], rest);
    assert stack[..|stack| - n] + [] == stack[..|stack| - n];
    assert stack[..|stack| - n][..|stack| - n - 1] == stack[..|stack| - n - 1];
    forall i | 0 <= i < |rest[1..]|
      ensures rest[1..][i] in run[0].fibers && rest[1..][i] in run[|run| - 1].fibers
      ensures run[|run| - 1].fibers[rest[1..][i]] == run[0].fibers[rest[1..][i]]
    {
      assert rest[1..][i] == rest[i + 1];
    }
  }
}

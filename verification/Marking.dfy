/** Marking: a depth-first search with an explicit stack reaches exactly the reachable objects. */
module Marking {
  import opened Basics
  import opened Heap

  /** The objects marked so far, and those of them whose edges are still to be followed. */
  datatype Marks = Marks(dark: set<nat>, gray: seq<nat>)

  /** Reaching an object. */
  function Gray(m: Marks, a: nat): Marks {
    if a in m.dark then m else Marks(m.dark + {a}, m.gray + [a])
  }

  function GrayAll(m: Marks, refs: seq<nat>): Marks
    decreases |refs|
  {
    if refs == [] then m else GrayAll(Gray(m, refs[0]), refs[1..])
  }

  lemma {:induction false} GrayNone(m: Marks)
    ensures GrayAll(m, []) == m
  {
  }

  lemma {:induction false} GrayAppend(m: Marks, a: seq<nat>, b: seq<nat>)
    ensures GrayAll(m, a + b) == GrayAll(GrayAll(m, a), b)
    decreases |a|
  {
    if a == [] {
      assert a + b == b;
    } else {
      assert (a + b)[1..] == a[1..] + b;
      GrayAppend(Gray(m, a[0]), a[1..], b);
    }
  }

  /** Reaching objects marks them, and puts those that were not marked on the stack, each once. */
  lemma {:induction false} GrayAllMarks(m: Marks, refs: seq<nat>)
    requires Distinct(m.gray) && (forall x :: x in m.gray ==> x in m.dark)
    ensures var m' := GrayAll(m, refs);
            && m'.dark == m.dark + (set x | x in refs) && Distinct(m'.gray)
            && (forall x :: x in m'.gray <==> x in m.gray || (x in refs && x !in m.dark))
    decreases |refs|
  {
    if refs != [] {
      assert refs == [refs[0]] + refs[1..];
      GrayAllMarks(Gray(m, refs[0]), refs[1..]);
    }
  }

  /** The state of the search: `black` are the objects whose edges have been followed. */
  ghost predicate Searching(h: Objects, roots: seq<nat>, m: Marks, black: seq<nat>) {
    && Distinct(m.gray) && Distinct(black)
    && (forall x :: x in m.dark <==> x in m.gray || x in black)
    && (forall x :: x in m.gray ==> x !in black)
    && (forall x :: x in roots ==> x in m.dark)
    && (forall x :: x in m.dark ==> Reachable(h, roots, x))
    && (forall x :: x in black ==> x in h && forall y :: y in Edges(h[x].body) ==> y in m.dark)
  }

  lemma {:induction false} SearchStart(h: Objects, roots: seq<nat>)
    requires forall x :: x in roots ==> x in h
    ensures Searching(h, roots, GrayAll(Marks({}, []), roots), [])
  {
    GrayAllMarks(Marks({}, []), roots);
    forall x | x in roots ensures Reachable(h, roots, x) {
      assert Path(h, roots, [x]);
    }
  }

  lemma {:induction false} ReachFurther(h: Objects, roots: seq<nat>, x: nat, y: nat)
    requires Reachable(h, roots, x) && x in h && y in Edges(h[x].body) && y in h
    ensures Reachable(h, roots, y)
  {
    hide Edges;
    var p :| Path(h, roots, p) && p[|p| - 1] == x;
    assert Path(h, roots, p + [y]);
  }

  /** Popping an object and following its edges. */
  lemma {:induction false} SearchStep(h: Objects, roots: seq<nat>, m: Marks, black: seq<nat>)
    requires Closed(h) && Searching(h, roots, m, black) && m.gray != []
    ensures var a := m.gray[|m.gray| - 1];
            && a in h
            && Searching(h, roots, GrayAll(Marks(m.dark, m.gray[..|m.gray| - 1]), Edges(h[a].body)), black + [a])
  {
    hide Edges, Typed, Reachable, GrayAll, Distinct;
    var a, rest := m.gray[|m.gray| - 1], m.gray[..|m.gray| - 1];
    assert m.gray == rest + [a];
    assert a in m.dark && Reachable(h, roots, a);
    ReachableIn(h, roots, a);
    DistinctRest(rest, a);
    DistinctMore(black, a);
    GrayAllMarks(Marks(m.dark, rest), Edges(h[a].body));
    forall y | y in Edges(h[a].body) ensures Reachable(h, roots, y) {
      ReachFurther(h, roots, a, y);
    }
  }

  lemma {:induction false} DistinctRest(rest: seq<nat>, a: nat)
    requires Distinct(rest + [a])
    ensures Distinct(rest) && a !in rest
  {
    assert (rest + [a])[|rest|] == a;
    assert forall i :: 0 <= i < |rest| ==> (rest + [a])[i] == rest[i];
  }

  lemma {:induction false} DistinctMore(q: seq<nat>, a: nat)
    requires Distinct(q) && a !in q
    ensures Distinct(q + [a])
  {
  }

  lemma {:induction false} ReachableIn(h: Objects, roots: seq<nat>, a: nat)
    requires Reachable(h, roots, a)
    ensures a in h
  {
  }

  /** When the stack is empty, exactly the reachable objects are marked. */
  lemma {:induction false} SearchEnd(h: Objects, roots: seq<nat>, m: Marks, black: seq<nat>, a: nat)
    requires Searching(h, roots, m, black) && m.gray == []
    ensures a in m.dark <==> Reachable(h, roots, a)
  {
    if Reachable(h, roots, a) {
      var p :| Path(h, roots, p) && p[|p| - 1] == a;
      PathMarked(h, roots, m, black, p, |p| - 1);
    }
  }

  lemma {:induction false} PathMarked(h: Objects, roots: seq<nat>, m: Marks, black: seq<nat>, p: seq<nat>, i: nat)
    requires Searching(h, roots, m, black) && m.gray == [] && Path(h, roots, p) && i < |p|
    ensures p[i] in m.dark
    decreases i
  {
    if i > 0 {
      PathMarked(h, roots, m, black, p, i - 1);
    }
  }

  // ----- Sizes -------------------------------------------------------------------------------------------------

  function Sum(z: Sizes, h: Objects, q: seq<nat>): nat
    requires forall x :: x in q ==> x in h
  {
    if q == [] then 0 else Sum(z, h, q[..|q| - 1]) + Size(z, h[q[|q| - 1]].body)
  }

  function Minus(q: seq<nat>, a: nat): seq<nat> {
    if q == [] then [] else Minus(q[..|q| - 1], a) + if q[|q| - 1] == a then [] else [q[|q| - 1]]
  }

  lemma {:induction false} MinusSum(z: Sizes, h: Objects, q: seq<nat>, a: nat)
    requires (forall x :: x in q ==> x in h) && Distinct(q)
    ensures Distinct(Minus(q, a)) && forall x :: x in Minus(q, a) <==> x in q && x != a
    ensures Sum(z, h, q) == Sum(z, h, Minus(q, a)) + if a in q then Size(z, h[a].body) else 0
  {
    hide Size, Distinct;
    MinusIn(q, a);
    if q != [] {
      var rest, last := q[..|q| - 1], q[|q| - 1];
      assert q == rest + [last];
      DistinctRest(rest, last);
      MinusSum(z, h, rest, a);
      var less := Minus(rest, a);
      assert (less + [last])[..|less|] == less;
      assert less + [] == less;
    }
  }

  lemma {:induction false} MinusIn(q: seq<nat>, a: nat)
    requires Distinct(q)
    ensures Distinct(Minus(q, a)) && forall x :: x in Minus(q, a) <==> x in q && x != a
  {
    hide Distinct;
    if q == [] {
      assert Minus(q, a) == q;
    } else {
      var rest, last := q[..|q| - 1], q[|q| - 1];
      assert q == rest + [last];
      DistinctRest(rest, last);
      MinusIn(rest, a);
      assert Minus(rest, a) + [] == Minus(rest, a);
      if last != a {
        DistinctMore(Minus(rest, a), last);
      }
    }
  }

  lemma {:induction false} First(q: seq<nat>) returns (x: nat)
    requires q != []
    ensures x in q
  {
    x := q[0];
  }

  /** The order in which sizes are added up does not matter. */
  lemma {:induction false} SameSum(z: Sizes, h: Objects, p: seq<nat>, q: seq<nat>)
    requires (forall x :: x in p ==> x in h) && Distinct(p) && Distinct(q) && forall x :: x in p <==> x in q
    ensures Sum(z, h, p) == Sum(z, h, q)
    decreases |p|
  {
    if p == [] {
      if q != [] {
        var x := First(q);
        assert false;
      }
    } else {
      var rest, a := p[..|p| - 1], p[|p| - 1];
      assert p == rest + [a];
      MinusSum(z, h, q, a);
      SameSum(z, h, rest, Minus(q, a));
    }
  }

  // ----- Marks do not matter to what is reachable ----------------------------------------------------------------

  lemma {:induction false} PathSame(h: Objects, h': Objects, roots: seq<nat>, p: seq<nat>)
    requires SameObjects(h, h') && Path(h, roots, p)
    ensures Path(h', roots, p)
  {
    hide Edges;
  }

  lemma {:induction false} ReachSame(h: Objects, h': Objects, roots: seq<nat>, a: nat)
    requires SameObjects(h, h')
    ensures Reachable(h, roots, a) <==> Reachable(h', roots, a)
  {
    if Reachable(h, roots, a) {
      var p :| Path(h, roots, p) && p[|p| - 1] == a;
      PathSame(h, h', roots, p);
    }
    if Reachable(h', roots, a) {
      var p :| Path(h', roots, p) && p[|p| - 1] == a;
      PathSame(h', h, roots, p);
    }
  }

  lemma {:induction false} SearchSame(h: Objects, h': Objects, roots: seq<nat>, m: Marks)
    requires SameObjects(h, h') && Searching(h, roots, m, [])
    ensures Searching(h', roots, m, [])
  {
    forall x | x in m.dark ensures Reachable(h', roots, x) {
      ReachSame(h, h', roots, x);
    }
  }

  lemma {:induction false} ClosedSame(h: Objects, h': Objects)
    requires SameObjects(h, h') && Closed(h)
    ensures Closed(h')
  {
    hide Edges;
  }
}

/** Sweeping: going through the list of all objects keeps the marked ones, in their order. */
module Sweeping {
  import opened Basics
  import opened Wrappers
  import opened Heap
  import opened Marking

  function Last(q: seq<nat>): Option<nat> {
    if q == [] then None else Some(q[|q| - 1])
  }

  /** The marked objects of a list, in its order. */
  function Survivors(h: Objects, order: seq<nat>): seq<nat> {
    if order == [] then []
    else
      var a := order[|order| - 1];
      Survivors(h, order[..|order| - 1]) + if a in h && h[a].isDark then [a] else []
  }

  /** `p` is `q` with some elements left out. */
  predicate Sublist(p: seq<nat>, q: seq<nat>) {
    p == [] || (q != []
      && (if p[|p| - 1] == q[|q| - 1] then Sublist(p[..|p| - 1], q[..|q| - 1]) else Sublist(p, q[..|q| - 1])))
  }

  lemma {:induction false} SurvivorsMore(h: Objects, order: seq<nat>, i: nat)
    requires i < |order| && order[i] in h
    ensures Survivors(h, order[..i + 1]) == Survivors(h, order[..i]) + if h[order[i]].isDark then [order[i]] else []
  {
    assert order[..i + 1][..i] == order[..i];
  }

  lemma {:induction false} SurvivorsIn(h: Objects, order: seq<nat>, a: nat)
    ensures a in Survivors(h, order) <==> a in order && a in h && h[a].isDark
  {
    if order != [] {
      assert order == order[..|order| - 1] + [order[|order| - 1]];
      SurvivorsIn(h, order[..|order| - 1], a);
    }
  }

  lemma {:induction false} SurvivorsOrdered(h: Objects, order: seq<nat>)
    ensures Sublist(Survivors(h, order), order)
  {
    if order != [] {
      var rest, a := order[..|order| - 1], order[|order| - 1];
      var s := Survivors(h, rest);
      SurvivorsOrdered(h, rest);
      if a in h && h[a].isDark {
        assert (s + [a])[..|s|] == s;
      } else {
        assert s + [] == s;
        SublistSkip(s, order);
      }
    }
  }

  /** A sublist of all but the last is a sublist. */
  lemma {:induction false} SublistSkip(p: seq<nat>, q: seq<nat>)
    requires q != [] && Sublist(p, q[..|q| - 1])
    ensures Sublist(p, q)
    decreases |q|, 0
  {
    if p != [] && p[|p| - 1] == q[|q| - 1] {
      var rest := q[..|q| - 1];
      SublistShorter(p, rest);
    }
  }

  lemma {:induction false} SublistShorter(p: seq<nat>, q: seq<nat>)
    requires p != [] && Sublist(p, q)
    ensures Sublist(p[..|p| - 1], q)
    decreases |q|, 1
  {
    if p[|p| - 1] == q[|q| - 1] {
      SublistSkip(p[..|p| - 1], q);
    } else {
      SublistShorter(p, q[..|q| - 1]);
      SublistSkip(p[..|p| - 1], q);
    }
  }

  lemma {:induction false} SplitList(kept: seq<nat>, order: seq<nat>, i: nat)
    requires i < |order|
    ensures order[i..] == [order[i]] + order[i + 1..]
    ensures kept + order[i..] == kept + [order[i]] + order[i + 1..]
  {
  }

  /** The list from the start up to index `i` has been swept: the survivors `kept` are unmarked, the others
      are gone, and the rest is as it was in `h`. */
  ghost predicate Swept(h': Objects, first: Option<nat>, h: Objects, order: seq<nat>, i: nat, kept: seq<nat>) {
    && i <= |order| && kept == Survivors(h, order[..i]) && Linked(h', first, kept + order[i..])
    && (forall a :: a in h' <==> a in kept || a in order[i..])
    && (forall a :: a in h' ==> a in h && h'[a].body == h[a].body)
    && (forall a :: a in kept ==> a in h' && !h'[a].isDark)
    && (forall a :: a in order[i..] ==> a in h && a in h' && h'[a].isDark == h[a].isDark && h'[a].next == h[a].next)
  }

  lemma {:induction false} SweepStart(h: Objects, first: Option<nat>, order: seq<nat>)
    requires Linked(h, first, order) && forall a :: a in h <==> a in order
    ensures Swept(h, first, h, order, 0, []) && first == Head(order, 0) && Last([]) == None
  {
    assert order[..0] == [] && order[0..] == order && [] + order == order;
  }

  lemma {:induction false} SweptHere(h': Objects, first: Option<nat>, h: Objects, order: seq<nat>, i: nat,
                                     kept: seq<nat>)
    requires Swept(h', first, h, order, i, kept) && Linked(h, Head(order, 0), order) && i < |order|
    ensures var a := order[i];
            a in h && a in h' && h'[a].isDark == h[a].isDark && h'[a].next == Head(order, i + 1)
  {
    hide Linked, Survivors;
    SplitList(kept, order, i);
    assert order[i] in order[i..];
    assert h[order[i]].next == Head(order, i + 1) by {
      NextIs(h, Head(order, 0), order, i);
    }
  }

  lemma {:induction false} NextIs(h: Objects, first: Option<nat>, order: seq<nat>, i: nat)
    requires Linked(h, first, order) && i < |order|
    ensures order[i] in h && h[order[i]].next == Head(order, i + 1)
  {
    assert LinkAt(h, order, i);
  }

  /** The link that leads to `a` from `p` goes on to what comes after `a`, which is freed. */
  function Cut(h: Objects, p: nat, a: nat): Objects
    requires p in h && a in h
  {
    h[p := h[p].(next := h[a].next)] - {a}
  }

  /** Which object is where in a list without the one after `kept`. */
  lemma {:induction false} WithoutOne(kept: seq<nat>, a: nat, rest: seq<nat>, i: nat)
    requires i < |kept + rest|
    ensures var q, q', k := kept + [a] + rest, kept + rest, if i < |kept| then i else i + 1;
            && q'[i] == q[k]
            && (i + 1 != |kept| ==> Head(q', i + 1) == Head(q, k + 1))
            && (i + 1 == |kept| ==> Head(q', i + 1) == Head(rest, 0))
  {
  }

  lemma {:induction false} UnlinkedFacts(h: Objects, first: Option<nat>, kept: seq<nat>, a: nat, rest: seq<nat>)
    requires Linked(h, first, kept + [a] + rest)
    ensures a in h && h[a].next == Head(rest, 0) && a !in kept && a !in rest
    ensures forall i, j :: 0 <= i < j < |kept + rest| ==> (kept + rest)[i] != (kept + rest)[j]
    ensures first == (if kept == [] then Some(a) else Head(kept + rest, 0))
  {
    var q := kept + [a] + rest;
    assert q[|kept|] == a;
    NextIs(h, first, q, |kept|);
    forall i, j | 0 <= i < j < |kept + rest| ensures (kept + rest)[i] != (kept + rest)[j] {
      WithoutOne(kept, a, rest, i);
      WithoutOne(kept, a, rest, j);
    }
    forall i | 0 <= i < |kept| ensures kept[i] != a {
      assert q[i] == kept[i];
    }
    forall i | 0 <= i < |rest| ensures rest[i] != a {
      assert q[|kept| + 1 + i] == rest[i];
    }
  }

  /** Unlinking the first object of a list. */
  lemma {:induction false} UnlinkedFirst(h: Objects, first: Option<nat>, a: nat, rest: seq<nat>)
    requires Linked(h, first, [] + [a] + rest)
    ensures a in h && Linked(h - {a}, h[a].next, [] + rest)
  {
    var q, q' := [] + [a] + rest, [] + rest;
    UnlinkedFacts(h, first, [], a, rest);
    assert q' == rest;
    forall i | 0 <= i < |q'| ensures LinkAt(h - {a}, q', i) {
      WithoutOne([], a, rest, i);
      NextIs(h, first, q, i + 1);
    }
  }

  /** Unlinking the object after `kept` from a list. */
  lemma {:induction false} UnlinkedLater(h: Objects, first: Option<nat>, kept: seq<nat>, a: nat, rest: seq<nat>)
    requires Linked(h, first, kept + [a] + rest) && kept != []
    ensures var p := kept[|kept| - 1]; a in h && p in h && Linked(Cut(h, p, a), first, kept + rest)
  {
    UnlinkedFacts(h, first, kept, a, rest);
    NextIs(h, first, kept + [a] + rest, |kept| - 1);
    var h' := Cut(h, kept[|kept| - 1], a);
    forall i | 0 <= i < |kept + rest| ensures LinkAt(h', kept + rest, i) {
      UnlinkedAt(h, first, kept, a, rest, i);
    }
  }

  lemma {:induction false} UnlinkedAt(h: Objects, first: Option<nat>, kept: seq<nat>, a: nat, rest: seq<nat>, i: nat)
    requires Linked(h, first, kept + [a] + rest) && kept != [] && i < |kept + rest|
    ensures var p := kept[|kept| - 1];
            a in h && p in h && LinkAt(Cut(h, p, a), kept + rest, i)
  {
    hide Linked;
    var q, q' := kept + [a] + rest, kept + rest;
    UnlinkedFacts(h, first, kept, a, rest);
    NextIs(h, first, q, |kept| - 1);
    NextIs(h, first, q, if i < |kept| then i else i + 1);
    WithoutOne(kept, a, rest, i);
    assert q'[|kept| - 1] == kept[|kept| - 1];
    if i < |kept| - 1 {
      assert q'[i] != q'[|kept| - 1];
    } else if i > |kept| - 1 {
      assert q'[|kept| - 1] != q'[i];
    }
  }

  /** One turn of the sweep: an unmarked object is unlinked from the one before it. */
  lemma {:induction false} SweptFirst(h': Objects, first: Option<nat>, h: Objects, order: seq<nat>, i: nat)
    requires Swept(h', first, h, order, i, []) && i < |order| && order[i] in h && !h[order[i]].isDark
    ensures var a := order[i]; a in h' && Swept(h' - {a}, h'[a].next, h, order, i + 1, [])
  {
    hide Linked, Survivors;
    var a, rest := order[i], order[i + 1..];
    SplitList([], order, i);
    SurvivorsMore(h, order, i);
    Survivors0(h, order, i);
    UnlinkedFirst(h', first, a, rest);
    UnlinkedFacts(h', first, [], a, rest);
  }

  lemma {:induction false} SweptLater(h': Objects, first: Option<nat>, h: Objects, order: seq<nat>, i: nat,
                                      kept: seq<nat>)
    requires Swept(h', first, h, order, i, kept) && i < |order| && order[i] in h && !h[order[i]].isDark && kept != []
    ensures var a, p := order[i], kept[|kept| - 1];
            a in h' && p in h' && Swept(Cut(h', p, a), first, h, order, i + 1, kept)
  {
    hide Linked, Survivors;
    var a, p, rest := order[i], kept[|kept| - 1], order[i + 1..];
    SplitList(kept, order, i);
    SurvivorsMore(h, order, i);
    Survivors0(h, order, i);
    UnlinkedLater(h', first, kept, a, rest);
    UnlinkedFacts(h', first, kept, a, rest);
    LastApart(h', first, kept, a, rest);
    assert p in kept && a in order[i..];
    var h'' := Cut(h', p, a);
    forall x ensures x in h'' <==> x in kept || x in rest {
      assert x in order[i..] <==> x == a || x in rest;
    }
  }

  /** The last object kept is not one of those to come. */
  lemma {:induction false} LastApart(h: Objects, first: Option<nat>, kept: seq<nat>, a: nat, rest: seq<nat>)
    requires kept != [] && Linked(h, first, kept + [a] + rest)
    ensures kept[|kept| - 1] !in rest
  {
    var p, q := kept[|kept| - 1], kept + [a] + rest;
    assert q[|kept| - 1] == p;
    forall i | 0 <= i < |rest| ensures rest[i] != p {
      assert q[|kept| + 1 + i] == rest[i];
    }
  }

  lemma {:induction false} Survivors0(h: Objects, order: seq<nat>, i: nat)
    requires i < |order|
    ensures Survivors(h, order[..i]) + [] == Survivors(h, order[..i])
  {
  }

  lemma {:induction false} SweptKeep(h': Objects, first: Option<nat>, h: Objects, order: seq<nat>, i: nat,
                                     kept: seq<nat>)
    requires Swept(h', first, h, order, i, kept) && Linked(h, Head(order, 0), order) && i < |order|
    requires order[i] in h && h[order[i]].isDark
    ensures var a := order[i];
            a in h' && Swept(h'[a := h'[a].(isDark := false)], first, h, order, i + 1, kept + [a])
  {
    hide Linked, Survivors;
    var a, rest := order[i], order[i + 1..];
    SplitList(kept, order, i);
    SurvivorsMore(h, order, i);
    UnlinkedFacts(h', first, kept, a, rest);
    LinkedMarked(h', first, kept + order[i..], a, false);
  }

  /** The mark of an object does not matter to the list. */
  lemma {:induction false} LinkedMarked(h: Objects, first: Option<nat>, order: seq<nat>, a: nat, dark: bool)
    requires Linked(h, first, order) && a in h
    ensures Linked(h[a := h[a].(isDark := dark)], first, order)
  {
    var h' := h[a := h[a].(isDark := dark)];
    forall i | 0 <= i < |order| ensures LinkAt(h', order, i) {
      assert LinkAt(h, order, i);
    }
  }

  lemma {:induction false} LinkedSame(h: Objects, h': Objects, first: Option<nat>, order: seq<nat>)
    requires SameObjects(h, h') && Linked(h, first, order)
    ensures Linked(h', first, order)
  {
    forall i | 0 <= i < |order| ensures LinkAt(h', order, i) {
      assert LinkAt(h, order, i);
    }
  }

  lemma {:induction false} LinkedDistinct(h: Objects, first: Option<nat>, order: seq<nat>)
    requires Linked(h, first, order)
    ensures Distinct(order)
  {
  }

  lemma {:induction false} SumSame(z: Sizes, h: Objects, h': Objects, q: seq<nat>)
    requires forall x :: x in q ==> x in h && x in h' && h'[x].body == h[x].body
    ensures Sum(z, h', q) == Sum(z, h, q)
  {
    if q != [] {
      assert q == q[..|q| - 1] + [q[|q| - 1]];
      SumSame(z, h, h', q[..|q| - 1]);
    }
  }

  /** What was counted while marking is the size of what is left. */
  lemma {:induction false} Counted(z: Sizes, h: Objects, h': Objects, first: Option<nat>, kept: seq<nat>,
                                   black: seq<nat>)
    requires Linked(h', first, kept) && Distinct(black)
    requires forall x :: x in black <==> x in kept
    requires forall x :: x in black ==> x in h
    requires forall x :: x in h' ==> x in h && h'[x].body == h[x].body
    ensures (forall x :: x in kept ==> x in h') && Sum(z, h', kept) == Sum(z, h, black)
  {
    LinkedDistinct(h', first, kept);
    forall x | x in kept ensures x in h' {
      var i :| 0 <= i < |kept| && kept[i] == x;
      NextIs(h', first, kept, i);
    }
    SameSum(z, h, kept, black);
    SumSame(z, h, h', kept);
  }
}

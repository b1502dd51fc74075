/** Nodes in the order of their keys. */
module RbOrder {
  import opened Wrappers
  import opened RbShape

  type Key = nat -> int

  /** The nodes have different keys, in ascending order. */
  ghost predicate Sorted(key: Key, s: seq<nat>) {
    forall i, j :: 0 <= i < j < |s| ==> key(s[i]) < key(s[j])
  }

  /** The keys of `s` are all below `k`, or all above it. */
  ghost predicate Below(key: Key, s: seq<nat>, k: int) {
    forall x :: x in s ==> key(x) < k
  }

  ghost predicate Beyond(key: Key, s: seq<nat>, k: int) {
    forall x :: x in s ==> key(x) > k
  }

  lemma {:induction false} SortedParts(key: Key, a: seq<nat>, x: nat, b: seq<nat>)
    ensures Sorted(key, a + [x] + b) <==>
              Sorted(key, a) && Sorted(key, b) && Below(key, a, key(x)) && Beyond(key, b, key(x))
  {
    var s := a + [x] + b;
    if Sorted(key, s) {
      forall y | y in a ensures key(y) < key(x) {
        var i :| 0 <= i < |a| && a[i] == y;
        assert s[i] == y && s[|a|] == x;
      }
      forall y | y in b ensures key(y) > key(x) {
        var i :| 0 <= i < |b| && b[i] == y;
        assert s[|a| + 1 + i] == y && s[|a|] == x;
      }
      forall i, j | 0 <= i < j < |a| ensures key(a[i]) < key(a[j]) {
        assert s[i] == a[i] && s[j] == a[j];
      }
      forall i, j | 0 <= i < j < |b| ensures key(b[i]) < key(b[j]) {
        assert s[|a| + 1 + i] == b[i] && s[|a| + 1 + j] == b[j];
      }
    }
    if Sorted(key, a) && Sorted(key, b) && Below(key, a, key(x)) && Beyond(key, b, key(x)) {
      forall i, j | 0 <= i < j < |s| ensures key(s[i]) < key(s[j]) {
        assert i < |a| ==> s[i] in a;
        assert j > |a| ==> s[j] == b[j - |a| - 1];
        assert i > |a| ==> s[i] == b[i - |a| - 1];
      }
    }
  }

  lemma {:induction false} SortedWithout(key: Key, a: seq<nat>, x: nat, b: seq<nat>)
    requires Sorted(key, a + [x] + b)
    ensures Sorted(key, a + b) && x !in a + b
  {
    SortedParts(key, a, x, b);
    var s := a + b;
    forall i, j | 0 <= i < j < |s| ensures key(s[i]) < key(s[j]) {
      assert i < |a| ==> s[i] in a;
      assert j >= |a| ==> s[j] == b[j - |a|] && s[j] in b;
      assert i >= |a| ==> s[i] == b[i - |a|];
    }
  }

  /** Below a place all keys are between those before it and those after it. */
  lemma {:induction false} Order(key: Key, c: Context, t: Tree)
    requires Sorted(key, InOrder(Plug(c, t))) && t.Tree?
    ensures Sorted(key, InOrder(t.left)) && Sorted(key, InOrder(t.right))
    ensures Below(key, Before(c), key(t.id)) && Beyond(key, After(c), key(t.id))
    ensures Below(key, InOrder(t.left), key(t.id)) && Beyond(key, InOrder(t.right), key(t.id))
    ensures InOrder(Plug(c, t)) == (Before(c) + InOrder(t.left)) + [t.id] + (InOrder(t.right) + After(c))
  {
    PlugInOrder(c, t);
    var a, b := Before(c) + InOrder(t.left), InOrder(t.right) + After(c);
    Split(Before(c), InOrder(t.left), t.id, InOrder(t.right), After(c));
    SortedParts(key, a, t.id, b);
    forall x | x in Before(c) || x in InOrder(t.left) ensures key(x) < key(t.id) {
      assert x in a;
    }
    forall x | x in After(c) || x in InOrder(t.right) ensures key(x) > key(t.id) {
      assert x in b;
    }
    SortedHalves(key, Before(c), InOrder(t.left));
    SortedHalves(key, InOrder(t.right), After(c));
  }

  lemma {:induction false} Split(a: seq<nat>, l: seq<nat>, x: nat, r: seq<nat>, b: seq<nat>)
    ensures a + (l + [x] + r) + b == (a + l) + [x] + (r + b)
  {
  }

  lemma {:induction false} SortedHalves(key: Key, a: seq<nat>, b: seq<nat>)
    requires Sorted(key, a + b)
    ensures Sorted(key, a) && Sorted(key, b)
  {
    var s := a + b;
    forall i, j | 0 <= i < j < |a| ensures key(a[i]) < key(a[j]) {
      assert s[i] == a[i] && s[j] == a[j];
    }
    forall i, j | 0 <= i < j < |b| ensures key(b[i]) < key(b[j]) {
      assert s[|a| + i] == b[i] && s[|a| + j] == b[j];
    }
  }

  /** A node comes to a leaf. */
  lemma {:induction false} SortedInsert(key: Key, a: seq<nat>, x: nat, b: seq<nat>)
    requires Sorted(key, a + b) && Below(key, a, key(x)) && Beyond(key, b, key(x))
    ensures Sorted(key, a + [x] + b)
  {
    SortedHalves(key, a, b);
    SortedParts(key, a, x, b);
  }

  function First(s: seq<nat>): Option<nat> {
    if s == [] then None else Some(s[0])
  }

  function Last(s: seq<nat>): Option<nat> {
    if s == [] then None else Some(s[|s| - 1])
  }

  /** Nothing is around the whole tree. */
  lemma {:induction false} Ends(key: Key, c: Context, k: int)
    requires c.Top?
    ensures Below(key, Before(c), k) && Beyond(key, After(c), k) && Before(c) == [] && After(c) == []
  {
  }

  /** The nodes of a tree are those at a place and those around it. */
  lemma {:induction false} Members(c: Context, t: Tree)
    ensures Ids(Plug(c, t)) == Ids(t) + Around(c)
    ensures forall x :: x in Around(c) <==> x in Before(c) || x in After(c)
    ensures forall x :: x in InOrder(t) <==> x in Ids(t)
    ensures InOrder(Plug(c, t)) == Before(c) + InOrder(t) + After(c)
  {
    PlugApart(c, t);
    PlugInOrder(c, t);
    AroundMembers(c);
  }

  lemma {:induction false} AroundMembers(c: Context)
    ensures forall x :: x in Around(c) <==> x in Before(c) || x in After(c)
  {
    if c.In? {
      AroundMembers(c.up);
    }
  }

  /** The search goes down to the left or to the right. */
  lemma {:induction false} Down(key: Key, c: Context, t: Tree, side: Side, k: int) returns (c': Context, t': Tree)
    requires t.Tree? && Sorted(key, InOrder(Plug(c, t))) && Below(key, Before(c), k) && Beyond(key, After(c), k)
    requires if side.L? then k < key(t.id) else k > key(t.id)
    ensures t' == Sub(t, side) && t' < t && Plug(c', t') == Plug(c, t)
    ensures Below(key, Before(c'), k) && Beyond(key, After(c'), k)
    ensures c' == In(side, t.id, t.red, Sub(t, Opposite(side)), c)
    ensures if side.L? then Before(c') == Before(c) && After(c') == [t.id] + InOrder(t.right) + After(c)
            else Before(c') == Before(c) + (InOrder(t.left) + [t.id]) && After(c') == After(c)
  {
    Order(key, c, t);
    c', t' := In(side, t.id, t.red, Sub(t, Opposite(side)), c), Sub(t, side);
  }

  lemma {:induction false} FirstAfter(key: Key, a: seq<nat>, b: seq<nat>)
    requires Sorted(key, a + b)
    ensures forall y :: b != [] && y in b ==> key(y) >= key(b[0])
  {
    SortedHalves(key, a, b);
  }

  /** A search that ends at a leaf: the nodes after it are those above the key. */
  lemma {:induction false} AtLeaf(key: Key, c: Context, k: int)
    requires Sorted(key, InOrder(Plug(c, Leaf))) && Below(key, Before(c), k) && Beyond(key, After(c), k)
    ensures forall x :: x in Ids(Plug(c, Leaf)) ==> key(x) != k
    ensures var r := First(After(c));
            && (r.Some? ==> r.value in Ids(Plug(c, Leaf)) && key(r.value) >= k
                            && forall x :: x in Ids(Plug(c, Leaf)) && key(x) >= k ==> key(x) >= key(r.value))
            && (r.None? ==> forall x :: x in Ids(Plug(c, Leaf)) ==> key(x) < k)
  {
    Members(c, Leaf);
    FirstAfter(key, Before(c) + InOrder(Leaf), After(c));
  }

  /** A new node at a leaf is in its place. */
  lemma {:induction false} InsertedOrder(key: Key, c: Context, x: nat)
    requires Sorted(key, InOrder(Plug(c, Leaf))) && Below(key, Before(c), key(x)) && Beyond(key, After(c), key(x))
    ensures Sorted(key, InOrder(Plug(c, Tree(Leaf, x, true, Leaf))))
  {
    PlugInOrder(c, Leaf);
    PlugInOrder(c, Tree(Leaf, x, true, Leaf));
    hide Before, After, Plug, Below, Beyond, Sorted;
    assert Before(c) + [] + After(c) == Before(c) + After(c);
    SortedInsert(key, Before(c), x, After(c));
    assert InOrder(Tree(Leaf, x, true, Leaf)) == [x];
  }

  lemma {:induction false} SameIds(t: Tree, t': Tree)
    requires InOrder(t) == InOrder(t')
    ensures Ids(t) == Ids(t')
  {
    forall x ensures x in Ids(t) <==> x in Ids(t') {
      assert x in InOrder(t) <==> x in InOrder(t');
    }
  }

  lemma {:induction false} RemovedOrder(key: Key, was: Tree, now: Tree, a: seq<nat>, x: nat, b: seq<nat>)
    requires Sorted(key, InOrder(was)) && InOrder(was) == a + [x] + b && InOrder(now) == a + b
    ensures Sorted(key, InOrder(now)) && Ids(now) == Ids(was) - {x}
  {
    SortedWithout(key, a, x, b);
    forall y ensures y in Ids(now) <==> y in Ids(was) - {x} {
      assert y in InOrder(was) <==> y in a || y == x || y in b;
      assert y in InOrder(now) <==> y in a || y in b;
    }
  }

  lemma {:induction false} LeafOrder(a: seq<nat>, l: seq<nat>, r: seq<nat>, b: seq<nat>)
    ensures InOrder(Leaf) == []
    ensures l == [] ==> a + r + b == (a + l) + (r + b)
    ensures r == [] ==> a + l + b == (a + l) + (r + b)
  {
  }

  // ----- Neighbours -----------------------------------------------------------------------------------------

  lemma {:induction false} InMiddle(c: Context, t: Tree)
    requires t.Tree?
    ensures InOrder(Plug(c, t)) == (Before(c) + InOrder(t.left)) + [t.id] + (InOrder(t.right) + After(c))
  {
    PlugInOrder(c, t);
    Split(Before(c), InOrder(t.left), t.id, InOrder(t.right), After(c));
  }

  /** The first node of a tree is one with nothing at its left, reached by going left. */
  lemma {:induction false} FirstOf(cc: Context, s: Tree, rest: seq<nat>)
    requires s.Tree? && s.left.Leaf? && Before(cc) == []
    ensures First(InOrder(Plug(cc, s)) + rest) == Some(s.id)
  {
    InMiddle(cc, s);
  }

  lemma {:induction false} LastOf(cc: Context, s: Tree, rest: seq<nat>)
    requires s.Tree? && s.right.Leaf? && After(cc) == []
    ensures Last(rest + InOrder(Plug(cc, s))) == Some(s.id)
  {
    InMiddle(cc, s);
  }

  /** What comes after a place is the node above, if the place is at its left, and otherwise what comes after
      that node; and so for what comes before. */
  lemma {:induction false} AfterUp(c: Context)
    ensures First(After(c)) == if c.Top? then None else if c.side.L? then Some(c.id) else First(After(c.up))
    ensures Last(Before(c)) == if c.Top? then None else if c.side.R? then Some(c.id) else Last(Before(c.up))
    ensures c.In? && c.side.R? ==> After(c) == After(c.up)
    ensures c.In? && c.side.L? ==> Before(c) == Before(c.up)
  {
  }

  lemma {:induction false} AtEnds(t: Tree, after: seq<nat>, before: seq<nat>)
    requires t.Tree?
    ensures t.right.Leaf? ==> First(InOrder(t.right) + after) == First(after)
    ensures t.left.Leaf? ==> Last(before + InOrder(t.left)) == Last(before)
  {
  }

  lemma {:induction false} WalkStart(t: Tree)
    ensures InOrder(t)[0..] == InOrder(t)
  {
  }

  lemma {:induction false} WalkIn(t: Tree, s: seq<nat>, x: nat)
    requires s <= InOrder(t) && Some(x) == First(InOrder(t)[|s|..])
    ensures x in Ids(t)
  {
    assert InOrder(t)[|s|] == x;
    assert x in InOrder(t);
  }

  lemma {:induction false} SameIndex(key: Key, s: seq<nat>, i: nat, j: nat)
    requires Sorted(key, s) && i < |s| && j < |s| && s[i] == s[j]
    ensures i == j
  {
  }

  lemma {:induction false} WalkNext(key: Key, t: Tree, s: seq<nat>, x: nat, y: Option<nat>)
    requires Sorted(key, InOrder(t)) && s <= InOrder(t) && Some(x) == First(InOrder(t)[|s|..])
    requires exists a, b :: InOrder(t) == a + [x] + b && y == First(b)
    ensures s + [x] <= InOrder(t) && y == First(InOrder(t)[|s| + 1..])
  {
    var all := InOrder(t);
    var a, b :| all == a + [x] + b && y == First(b);
    assert all[|s|] == x && all[|a|] == x;
    SameIndex(key, all, |a|, |s|);
    assert all[|s| + 1..] == b;
  }
}

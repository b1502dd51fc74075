/** Red-black trees by the ways down from the root: the independent reading of what balance asks of a tree. */
module RbWays {
  import opened Basics
  import opened RbShape
  import opened RbBalance

  /** The way, from one side to the next, ends below a lowest node. */
  predicate Leads(t: Tree, way: seq<Side>)
    decreases |way|
  {
    if way == [] then t.Leaf? else t.Tree? && Leads(if way[0] == L then t.left else t.right, way[1..])
  }

  /** The black nodes on a way. */
  function Blacks(t: Tree, way: seq<Side>): nat
    decreases |way|
  {
    if t.Leaf? then 0
    else
      (if t.red then 0 else 1) + if way == [] then 0 else Blacks(if way[0] == L then t.left else t.right, way[1..])
  }

  /** The way leads to a red node. */
  predicate RedAt(t: Tree, way: seq<Side>)
    decreases |way|
  {
    t.Tree? && if way == [] then t.red else RedAt(if way[0] == L then t.left else t.right, way[1..])
  }

  ghost predicate SameBlacks(t: Tree) {
    forall v, w :: Leads(t, v) && Leads(t, w) ==> Blacks(t, v) == Blacks(t, w)
  }

  ghost predicate NoRedPair(t: Tree) {
    forall w, side :: RedAt(t, w) ==> !RedAt(t, w + [side])
  }

  lemma {:induction false} SomeWay(t: Tree) returns (way: seq<Side>)
    ensures Leads(t, way)
  {
    way := [];
    if t.Tree? {
      var w := SomeWay(t.left);
      way := [L] + w;
      assert way[1..] == w;
    }
  }

  lemma {:induction false} BlacksAre(t: Tree, way: seq<Side>)
    requires RedBlack(t) && Leads(t, way)
    ensures Blacks(t, way) == Black(t)
    decreases |way|
  {
    if way != [] {
      BlacksAre(if way[0] == L then t.left else t.right, way[1..]);
    }
  }

  lemma {:induction false} RedApart(t: Tree, way: seq<Side>, side: Side)
    requires RedBlack(t) && RedAt(t, way)
    ensures !RedAt(t, way + [side])
    decreases |way|
  {
    var next := way + [side];
    if way == [] {
      assert next[1..] == [];
      assert next[0] == side;
    } else {
      assert next[1..] == way[1..] + [side];
      RedApart(if way[0] == L then t.left else t.right, way[1..], side);
    }
  }

  lemma {:induction false} WayBelow(t: Tree, side: Side, way: seq<Side>)
    requires t.Tree?
    ensures var b := if side == L then t.left else t.right;
            && Leads(t, [side] + way) == Leads(b, way)
            && Blacks(t, [side] + way) == Blacks(b, way) + (if t.red then 0 else 1)
            && RedAt(t, [side] + way) == RedAt(b, way)
  {
    assert ([side] + way)[1..] == way;
  }

  lemma {:induction false} HoldsBelow(t: Tree, side: Side)
    requires t.Tree? && SameBlacks(t) && NoRedPair(t)
    ensures SameBlacks(if side == L then t.left else t.right) && NoRedPair(if side == L then t.left else t.right)
  {
    var b := if side == L then t.left else t.right;
    forall v, w | Leads(b, v) && Leads(b, w) ensures Blacks(b, v) == Blacks(b, w) {
      WayBelow(t, side, v);
      WayBelow(t, side, w);
    }
    forall w, s | RedAt(b, w) ensures !RedAt(b, w + [s]) {
      WayBelow(t, side, w);
      WayBelow(t, side, w + [s]);
      assert [side] + w + [s] == [side] + (w + [s]);
    }
  }

  lemma {:induction false} WaysBalance(t: Tree)
    requires SameBlacks(t) && NoRedPair(t)
    ensures RedBlack(t)
  {
    hide SameBlacks, NoRedPair;
    if t.Tree? {
      HoldsBelow(t, L);
      HoldsBelow(t, R);
      WaysBalance(t.left);
      WaysBalance(t.right);
      var v := SomeWay(t.left);
      var w := SomeWay(t.right);
      BlacksAre(t.left, v);
      BlacksAre(t.right, w);
      WayBelow(t, L, v);
      WayBelow(t, R, w);
      TwoWays(t, [L] + v, [R] + w);
      RedBelow(t);
    }
  }

  lemma {:induction false} TwoWays(t: Tree, v: seq<Side>, w: seq<Side>)
    requires SameBlacks(t) && Leads(t, v) && Leads(t, w)
    ensures Blacks(t, v) == Blacks(t, w)
  {
  }

  lemma {:induction false} RedBelow(t: Tree)
    requires t.Tree? && NoRedPair(t)
    ensures t.red ==> !IsRed(t.left) && !IsRed(t.right)
  {
    if t.red {
      assert RedAt(t, []);
      assert [] + [L] == [L] && [] + [R] == [R];
      assert !RedAt(t, [] + [L]) && !RedAt(t, [] + [R]);
      WayBelow(t, L, []);
      WayBelow(t, R, []);
      assert [L] + [] == [L] && [R] + [] == [R];
    }
  }

  /** A tree is red-black exactly when all ways down from its root have the same number of black nodes and no two red
      nodes follow each other. */
  lemma {:induction false} RedBlackByWays(t: Tree)
    ensures RedBlack(t) <==> SameBlacks(t) && NoRedPair(t)
  {
    if RedBlack(t) {
      forall v, w | Leads(t, v) && Leads(t, w) ensures Blacks(t, v) == Blacks(t, w) {
        BlacksAre(t, v);
        BlacksAre(t, w);
      }
      forall w, side | RedAt(t, w) ensures !RedAt(t, w + [side]) {
        RedApart(t, w, side);
      }
    }
    if SameBlacks(t) && NoRedPair(t) {
      WaysBalance(t);
    }
  }

  // ----- How long a way is ----------------------------------------------------------------------------------

  /** The height is the length of the longest way. */
  lemma {:induction false} HeightIsLongest(t: Tree) returns (longest: seq<Side>)
    ensures Leads(t, longest) && |longest| == Height(t)
    ensures forall way :: Leads(t, way) ==> |way| <= Height(t)
  {
    longest := [];
    if t.Tree? {
      var l := HeightIsLongest(t.left);
      var r := HeightIsLongest(t.right);
      longest := if |l| >= |r| then [L] + l else [R] + r;
      assert longest[1..] == if |l| >= |r| then l else r;
      forall way | Leads(t, way) ensures |way| <= Height(t) {
        assert Leads(if way[0] == L then t.left else t.right, way[1..]);
      }
    }
  }

  /** No way down from the root of a red-black tree of n nodes is longer than 2 lg (n + 1). */
  lemma {:induction false} WayBound(t: Tree, way: seq<Side>)
    requires RedBlack(t) && !IsRed(t) && Leads(t, way)
    ensures Pow2(|way|) <= (|InOrder(t)| + 1) * (|InOrder(t)| + 1)
  {
    var longest := HeightIsLongest(t);
    HeightBound(t);
    PowMonotone(|way|, Height(t));
  }
}

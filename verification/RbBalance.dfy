/** Red and black: what makes a tree balanced, and which changes of colour and shape keep it so. */
module RbBalance {
  import opened Basics
  import opened RbShape

  predicate IsRed(t: Tree) {
    t.Tree? && t.red
  }

  /** The black nodes on the way down the left side. */
  function Black(t: Tree): nat {
    if t.Leaf? then 0 else Black(t.left) + if t.red then 0 else 1
  }

  /** Every way down has the same number of black nodes, and below a red node come black ones. */
  predicate RedBlack(t: Tree) {
    t.Tree? ==>
      && RedBlack(t.left) && RedBlack(t.right) && Black(t.left) == Black(t.right)
      && (t.red ==> !IsRed(t.left) && !IsRed(t.right))
  }

  /** As `RedBlack`, but the root may be red above red nodes. */
  predicate Loose(t: Tree) {
    t.Tree? ==> RedBlack(t.left) && RedBlack(t.right) && Black(t.left) == Black(t.right)
  }

  /** Surroundings that a subtree with `h` black nodes on each way down completes to a red-black tree with a black
      root. */
  predicate Fits(c: Context, h: nat) {
    c.In? ==>
      && RedBlack(c.other) && Black(c.other) == h
      && (c.red ==> !IsRed(c.other) && c.up.In? && !c.up.red)
      && Fits(c.up, h + if c.red then 0 else 1)
  }

  predicate RedAround(c: Context) {
    c.In? && c.red
  }

  lemma {:induction false} MakeRedBlack(side: Side, near: Tree, id: nat, red: bool, far: Tree)
    ensures RedBlack(Make(side, near, id, red, far)) <==>
            RedBlack(near) && RedBlack(far) && Black(near) == Black(far) && (red ==> !IsRed(near) && !IsRed(far))
    ensures Loose(Make(side, near, id, red, far)) <==> RedBlack(near) && RedBlack(far) && Black(near) == Black(far)
    ensures Black(near) == Black(far) ==> Black(Make(side, near, id, red, far)) == Black(near) + if red then 0 else 1
    ensures IsRed(Make(side, near, id, red, far)) == red
  {
  }

  lemma {:induction false} PlugRedBlack(c: Context, t: Tree)
    requires RedBlack(t) && Fits(c, Black(t)) && !(IsRed(t) && RedAround(c))
    ensures RedBlack(Plug(c, t)) && (IsRed(Plug(c, t)) ==> c.Top? && IsRed(t))
    decreases c
  {
    if c.In? {
      MakeRedBlack(c.side, t, c.id, c.red, c.other);
      PlugRedBlack(c.up, Make(c.side, t, c.id, c.red, c.other));
    }
  }

  lemma {:induction false} UnplugRedBlack(c: Context, t: Tree)
    requires RedBlack(Plug(c, t)) && !IsRed(Plug(c, t))
    ensures RedBlack(t) && Fits(c, Black(t)) && !(IsRed(t) && RedAround(c))
    decreases c
  {
    if c.In? {
      UnplugRedBlack(c.up, Make(c.side, t, c.id, c.red, c.other));
      MakeRedBlack(c.side, t, c.id, c.red, c.other);
    }
  }

  function Height(t: Tree): nat {
    if t.Leaf? then 0
    else 1 + if Height(t.left) >= Height(t.right) then Height(t.left) else Height(t.right)
  }

  /** A tree with `b` black nodes on each way down has at least 2^b - 1 nodes and is at most 2b + 1 high. */
  lemma {:induction false} Bounds(t: Tree)
    requires RedBlack(t)
    ensures Size(t) + 1 >= Pow2(Black(t))
    ensures Height(t) <= 2 * Black(t) + if IsRed(t) then 1 else 0
    decreases t
  {
    if t.Tree? {
      Bounds(t.left);
      Bounds(t.right);
    }
  }

  lemma {:induction false} PowDouble(b: nat)
    ensures Pow2(2 * b) == Pow2(b) * Pow2(b)
  {
    if b > 0 {
      PowDouble(b - 1);
      assert Pow2(2 * b) == 2 * Pow2(2 * b - 1) == 4 * Pow2(2 * (b - 1));
      var p := Pow2(b - 1);
      assert (2 * p) * (2 * p) == 4 * (p * p);
    }
  }

  lemma {:induction false} PowMonotone(m: nat, n: nat)
    requires m <= n
    ensures Pow2(m) <= Pow2(n)
  {
    if m < n {
      PowMonotone(m, n - 1);
    }
  }

  /** The height of a tree of n nodes is at most 2 lg (n + 1). */
  lemma {:induction false} HeightBound(t: Tree)
    requires RedBlack(t) && !IsRed(t)
    ensures Pow2(Height(t)) <= (|InOrder(t)| + 1) * (|InOrder(t)| + 1)
  {
    Bounds(t);
    SizeIs(t);
    PowMonotone(Height(t), 2 * Black(t));
    PowDouble(Black(t));
    SquareMonotone(Pow2(Black(t)), Size(t) + 1);
  }

  lemma {:induction false} SizeIs(t: Tree)
    ensures |InOrder(t)| == Size(t)
  {
    if t.Tree? {
      SizeIs(t.left);
      SizeIs(t.right);
    }
  }

  lemma {:induction false} SquareMonotone(m: nat, n: nat)
    requires m <= n
    ensures m * m <= n * n
  {
    assert m * m <= m * n <= n * n;
  }
}

/** Binary trees of numbered nodes, and what is around a place in one. */
module RbShape {
  import opened Basics
  import opened Wrappers

  datatype Side = L | R

  function Opposite(side: Side): Side {
    if side.L? then R else L
  }

  datatype Tree = Leaf | Tree(left: Tree, id: nat, red: bool, right: Tree)

  /** The surroundings of a subtree: it is at `side` of node `id`, whose other subtree is `other`. */
  datatype Context = Top | In(side: Side, id: nat, red: bool, other: Tree, up: Context)

  /** A node with subtree `near` at `side` and `far` opposite. */
  function Make(side: Side, near: Tree, id: nat, red: bool, far: Tree): (t: Tree)
    ensures t.Tree? && t.id == id && t.red == red
  {
    if side.L? then Tree(near, id, red, far) else Tree(far, id, red, near)
  }

  function Sub(t: Tree, side: Side): Tree
    requires t.Tree?
  {
    if side.L? then t.left else t.right
  }

  /** Subtree `t` in its surroundings. */
  function Plug(c: Context, t: Tree): Tree {
    match c
    case Top => t
    case In(side, id, red, other, up) => Plug(up, Make(side, t, id, red, other))
  }

  function RootOf(t: Tree): Option<nat> {
    if t.Leaf? then None else Some(t.id)
  }

  function ParentOf(c: Context): Option<nat> {
    if c.Top? then None else Some(c.id)
  }

  function Size(t: Tree): nat {
    if t.Leaf? then 0 else Size(t.left) + 1 + Size(t.right)
  }

  function Depth(c: Context): nat {
    if c.Top? then 0 else 1 + Depth(c.up)
  }

  // ----- Nodes ----------------------------------------------------------------------------------------------

  function Ids(t: Tree): set<nat> {
    if t.Leaf? then {} else Ids(t.left) + {t.id} + Ids(t.right)
  }

  function Around(c: Context): set<nat> {
    if c.Top? then {} else {c.id} + Ids(c.other) + Around(c.up)
  }

  /** No node is in a tree twice. */
  predicate Apart(t: Tree) {
    t.Tree? ==>
      && Apart(t.left) && Apart(t.right)
      && t.id !in Ids(t.left) && t.id !in Ids(t.right) && Ids(t.left) !! Ids(t.right)
  }

  predicate ApartAround(c: Context) {
    c.In? ==>
      && Apart(c.other) && ApartAround(c.up)
      && c.id !in Ids(c.other) && c.id !in Around(c.up) && Ids(c.other) !! Around(c.up)
  }

  lemma {:induction false} MakeApart(side: Side, near: Tree, id: nat, red: bool, far: Tree)
    ensures RootOf(Make(side, near, id, red, far)) == Some(id)
    ensures Ids(Make(side, near, id, red, far)) == Ids(near) + {id} + Ids(far)
    ensures Apart(Make(side, near, id, red, far)) <==>
            Apart(near) && Apart(far) && id !in Ids(near) && id !in Ids(far) && Ids(near) !! Ids(far)
  {
  }

  lemma {:induction false} PlugApart(c: Context, t: Tree)
    ensures Apart(Plug(c, t)) <==> Apart(t) && ApartAround(c) && Ids(t) !! Around(c)
    ensures Ids(Plug(c, t)) == Ids(t) + Around(c)
    decreases c
  {
    if c.In? {
      PlugApart(c.up, Make(c.side, t, c.id, c.red, c.other));
    }
  }

  // ----- Order ----------------------------------------------------------------------------------------------

  function InOrder(t: Tree): (s: seq<nat>)
    ensures forall x :: x in s <==> x in Ids(t)
  {
    if t.Leaf? then [] else InOrder(t.left) + [t.id] + InOrder(t.right)
  }

  /** The nodes before a place. */
  function Before(c: Context): seq<nat> {
    match c
    case Top => []
    case In(side, id, _, other, up) => Before(up) + if side.L? then [] else InOrder(other) + [id]
  }

  /** The nodes after it. */
  function After(c: Context): seq<nat> {
    match c
    case Top => []
    case In(side, id, _, other, up) => (if side.L? then [id] + InOrder(other) else []) + After(up)
  }

  lemma {:induction false} PlugInOrder(c: Context, t: Tree)
    ensures InOrder(Plug(c, t)) == Before(c) + InOrder(t) + After(c)
    decreases c
  {
    if c.In? {
      PlugInOrder(c.up, Make(c.side, t, c.id, c.red, c.other));
      var t' := InOrder(Make(c.side, t, c.id, c.red, c.other));
      if c.side.L? {
        Assoc3(Before(c.up), InOrder(t), [c.id] + InOrder(c.other), After(c.up));
        Assoc(InOrder(t), [c.id], InOrder(c.other));
      } else {
        Assoc3(Before(c.up), InOrder(c.other) + [c.id], InOrder(t), After(c.up));
      }
    }
  }

  lemma {:induction false} Assoc3(a: seq<nat>, b: seq<nat>, c: seq<nat>, d: seq<nat>)
    ensures a + (b + c) + d == (a + b) + c + d
    ensures a + (b + c) + d == a + b + (c + d)
    ensures a + [] == a && [] + d == d
  {
  }

  /** Turning a tree at a node leaves the order alone. */
  lemma {:induction false} RotateInOrder(side: Side, a: Tree, x: nat, rx: bool, b: Tree, y: nat, ry: bool, d: Tree)
    ensures InOrder(Make(side, a, x, rx, Make(side, b, y, ry, d))) == InOrder(Make(side, Make(side, a, x, rx, b), y,
                                                                                   ry, d))
  {
    if side.L? {
      Assoc(InOrder(a) + [x], InOrder(b) + [y], InOrder(d));
      Assoc(InOrder(a) + [x], InOrder(b), [y]);
    } else {
      Assoc(InOrder(d) + [y], InOrder(b) + [x], InOrder(a));
      Assoc(InOrder(d) + [y], InOrder(b), [x]);
    }
  }

  /** Surroundings within surroundings. */
  function Compose(inner: Context, outer: Context): Context {
    match inner
    case Top => outer
    case In(side, id, red, other, up) => In(side, id, red, other, Compose(up, outer))
  }

  lemma {:induction false} PlugCompose(inner: Context, outer: Context, t: Tree)
    ensures Plug(Compose(inner, outer), t) == Plug(outer, Plug(inner, t))
    decreases inner
  {
    if inner.In? {
      PlugCompose(inner.up, outer, Make(inner.side, t, inner.id, inner.red, inner.other));
    }
  }

  lemma {:induction false} ComposeInOrder(inner: Context, outer: Context)
    ensures Before(Compose(inner, outer)) == Before(outer) + Before(inner)
    ensures After(Compose(inner, outer)) == After(inner) + After(outer)
  {
    if inner.In? {
      ComposeInOrder(inner.up, outer);
    }
  }

  /** A node of a tree is somewhere in it. */
  lemma {:induction false} Locate(t: Tree, x: nat) returns (c: Context, s: Tree)
    requires x in Ids(t)
    ensures Plug(c, s) == t && RootOf(s) == Some(x)
  {
    if x == t.id {
      return Top, t;
    }
    var side := if x in Ids(t.left) then L else R;
    c, s := Locate(Sub(t, side), x);
    PlugCompose(c, In(side, t.id, t.red, Sub(t, Opposite(side)), Top), s);
    c := Compose(c, In(side, t.id, t.red, Sub(t, Opposite(side)), Top));
  }
}

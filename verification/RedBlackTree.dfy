/** libuv's red-black tree: insertion, removal and search on nodes linked to their children and their parent. */
module RedBlackTree {
  import opened Wrappers
  import opened RbShape
  import opened RbMemory
  import opened RbBalance
  import opened RbOrder

  // ----- Reading links --------------------------------------------------------------------------------------

  /** The links at a place. */
  lemma {:induction false} Here(mem: Memory, c: Context, t: Tree)
    requires t.Tree? && Apart(Plug(c, t)) && Rep(mem, Plug(c, t), None)
    ensures t.id in mem && mem[t.id] == Node(RootOf(t.left), RootOf(t.right), ParentOf(c), t.red)
    ensures RootOf(Plug(c, t)) == Some(t.id) <==> c.Top?
  {
    hide Plug;
    RepPlug(mem, c, t);
    PlugApart(c, t);
    if c.In? {
      RootAround(c, t);
    } else {
      PlugTop(t);
    }
  }

  /** The links around it. */
  lemma {:induction false} Near(mem: Memory, c: Context, t: Tree)
    requires c.In? && Apart(Plug(c, t)) && Rep(mem, Plug(c, t), None)
    ensures c.id in mem && mem[c.id] == NodeOf(c.side, t, c.red, c.other, ParentOf(c.up))
    ensures t.Tree? || c.other.Tree? ==> RootOf(t) != RootOf(c.other)
    ensures t.Tree? ==> t.id in mem && mem[t.id].parent == Some(c.id)
    ensures RootOf(t) != RootOf(Plug(c, t))
  {
    hide Plug;
    RepPlug(mem, c, t);
    PlugApart(c, t);
    RootAround(c, t);
  }

  /** The same tree, seen from the place above, and from the one beside. */
  lemma {:induction false} Views(c: Context, t: Tree)
    requires c.In?
    ensures Plug(c, t) == Plug(c.up, Make(c.side, t, c.id, c.red, c.other))
    ensures Plug(c, t) == Plug(In(Opposite(c.side), c.id, c.red, t, c.up), c.other)
  {
  }

  /** The root of a tree is around every place but the root. */
  lemma {:induction false} RootAround(c: Context, t: Tree)
    requires c.In?
    ensures RootOf(Plug(c, t)).Some? && RootOf(Plug(c, t)).value in Around(c)
    decreases c
  {
    if c.up.In? {
      RootAround(c.up, Make(c.side, t, c.id, c.red, c.other));
    }
  }

  /** Make, seen from the other side. */
  lemma {:induction false} Flip(side: Side, near: Tree, id: nat, red: bool, far: Tree)
    ensures Make(Opposite(side), far, id, red, near) == Make(side, near, id, red, far)
    ensures Sub(Make(side, near, id, red, far), side) == near
            && Sub(Make(side, near, id, red, far), Opposite(side)) == far
  {
  }

  // ----- Balance --------------------------------------------------------------------------------------------

  /** A red node below a red one is inserted; the uncle is red: the three change colours, and the grandparent is
      the red node that may be below a red one. */
  lemma {:induction false} RecolorUp(c: Context, t: Tree)
    requires Fits(c, Black(t)) && RedBlack(t) && RedAround(c) && c.up.In? && IsRed(c.up.other)
    ensures var p := Make(c.side, t, c.id, false, c.other);
            var g := Make(c.up.side, p, c.up.id, true, c.up.other.(red := false));
            RedBlack(g) && Fits(c.up.up, Black(g))
  {
    hide Make;
    MakeRedBlack(c.side, t, c.id, false, c.other);
    MakeRedBlack(c.up.side, Make(c.side, t, c.id, false, c.other), c.up.id, true, c.up.other.(red := false));
  }

  /** The uncle is black: after turning, the inserted node is below a black one. */
  lemma {:induction false} RotateUp(c: Context, t: Tree, far: Tree)
    requires Fits(c, Black(t)) && RedBlack(t) && RedAround(c) && !IsRed(c.up.other) && c.up.In?
    requires RedBlack(far) && !IsRed(far) && Black(far) == Black(t)
    ensures var g := Make(Opposite(c.up.side), c.up.other, c.up.id, true, far);
            RedBlack(g) && Black(g) == Black(t) && forall x: nat :: Fits(In(c.up.side, x, false, g, c.up.up), Black(t))
  {
    hide Make;
    MakeRedBlack(Opposite(c.up.side), c.up.other, c.up.id, true, far);
  }

  // ----- The tree -------------------------------------------------------------------------------------------

  class RbTree {
    const key: Key
    var root: Option<nat>
    var mem: Memory
    ghost var tree: Tree

    constructor (key: Key, mem: Memory)
      ensures Valid() && tree == Leaf && this.key == key && this.mem == mem
    {
      this.key, root, this.mem, tree := key, None, mem, Leaf;
    }

    /** The links make up the tree. */
    ghost predicate Linked()
      reads this
    {
      Apart(tree) && Rep(mem, tree, None) && root == RootOf(tree)
    }

    /** The links make up a red-black tree with a black root, in the order of the keys. */
    ghost predicate Valid()
      reads this
    {
      Linked() && RedBlack(tree) && !IsRed(tree) && Sorted(key, InOrder(tree))
    }

    // ----- Search -------------------------------------------------------------------------------------------

    /** The node with key `k`. */
    method Find(k: int) returns (r: Option<nat>)
      requires Valid()
      ensures r.Some? ==> r.value in Ids(tree) && key(r.value) == k
      ensures r.None? ==> forall x :: x in Ids(tree) ==> key(x) != k
    {
      hide Rep, Apart, Plug, RedBlack, InOrder, Below, Beyond, Sorted, Before, After;
      var tmp := root;
      ghost var c, t := Top, tree;
      PlugTop(tree);
      Ends(key, Top, k);
      while tmp.Some?
        invariant tree == Plug(c, t) && RootOf(t) == tmp && Below(key, Before(c), k) && Beyond(key, After(c), k)
        decreases t
      {
        Here(mem, c, t);
        PlugApart(c, t);
        if k < key(tmp.value) {
          tmp := mem[tmp.value].left;
          c, t := Down(key, c, t, L, k);
        } else if k > key(tmp.value) {
          tmp := mem[tmp.value].right;
          c, t := Down(key, c, t, R, k);
        } else {
          return tmp;
        }
      }
      AtLeaf(key, c, k);
      return None;
    }

    /** The first node whose key is not below `k`. */
    method NFind(k: int) returns (r: Option<nat>)
      requires Valid()
      ensures r.Some? ==> r.value in Ids(tree) && key(r.value) >= k
                          && forall x :: x in Ids(tree) && key(x) >= k ==> key(x) >= key(r.value)
      ensures r.None? ==> forall x :: x in Ids(tree) ==> key(x) < k
    {
      hide Rep, Apart, Plug, RedBlack, InOrder, Below, Beyond, Sorted, Before, After;
      var tmp := root;
      r := None;
      ghost var c, t := Top, tree;
      PlugTop(tree);
      Ends(key, Top, k);
      while tmp.Some?
        invariant tree == Plug(c, t) && RootOf(t) == tmp && Below(key, Before(c), k) && Beyond(key, After(c), k)
        invariant r == First(After(c))
        decreases t
      {
        Here(mem, c, t);
        PlugApart(c, t);
        if k < key(tmp.value) {
          r := tmp;
          tmp := mem[tmp.value].left;
          c, t := Down(key, c, t, L, k);
        } else if k > key(tmp.value) {
          tmp := mem[tmp.value].right;
          c, t := Down(key, c, t, R, k);
        } else {
          return tmp;
        }
      }
      AtLeaf(key, c, k);
    }

    /** The node after `x`. */
    method Next(x: nat) returns (r: Option<nat>)
      requires Valid() && x in Ids(tree)
      ensures exists a, b :: InOrder(tree) == a + [x] + b && r == First(b)
    {
      hide Rep, Apart, Plug, RedBlack, InOrder, Sorted, Before, After;
      ghost var c, t := Locate(tree, x);
      Here(mem, c, t);
      InMiddle(c, t);
      if mem[x].right.Some? {
        var elm;
        ghost var cc;
        ghost var s;
        elm, cc, s := Leftmost(x, c, t);
        FirstOf(cc, s, After(c));
        return Some(elm);
      }
      ghost var up, u := c, t;
      AtEnds(t, After(c), Before(c));
      AfterUp(c);
      if c.In? {
        Near(mem, c, t);
      }
      var parent := mem[x].parent;
      if parent.Some? && Some(x) == mem[parent.value].left {
        return parent;
      }
      var elm := x;
      while mem[elm].parent.Some? && (Near(mem, up, u); Some(elm) == mem[mem[elm].parent.value].right)
        invariant tree == Plug(up, u) && RootOf(u) == Some(elm) && elm in mem && mem[elm].parent == ParentOf(up)
        invariant First(After(up)) == First(After(c))
        decreases up
      {
        Views(up, u);
        AfterUp(up);
        elm, up, u := mem[elm].parent.value, up.up, Make(up.side, u, up.id, up.red, up.other);
        Here(mem, up, u);
      }
      AfterUp(up);
      if up.In? {
        Near(mem, up, u);
      }
      return mem[elm].parent;
    }

    /** The node before `x`. */
    method Prev(x: nat) returns (r: Option<nat>)
      requires Valid() && x in Ids(tree)
      ensures exists a, b :: InOrder(tree) == a + [x] + b && r == Last(a)
    {
      hide Rep, Apart, Plug, RedBlack, InOrder, Sorted, Before, After;
      ghost var c, t := Locate(tree, x);
      Here(mem, c, t);
      InMiddle(c, t);
      if mem[x].left.Some? {
        var elm;
        ghost var cc;
        ghost var s;
        elm, cc, s := Rightmost(x, c, t);
        LastOf(cc, s, Before(c));
        return Some(elm);
      }
      ghost var up, u := c, t;
      AtEnds(t, After(c), Before(c));
      AfterUp(c);
      if c.In? {
        Near(mem, c, t);
      }
      var parent := mem[x].parent;
      if parent.Some? && Some(x) == mem[parent.value].right {
        return parent;
      }
      var elm := x;
      while mem[elm].parent.Some? && (Near(mem, up, u); Some(elm) == mem[mem[elm].parent.value].left)
        invariant tree == Plug(up, u) && RootOf(u) == Some(elm) && elm in mem && mem[elm].parent == ParentOf(up)
        invariant Last(Before(up)) == Last(Before(c))
        decreases up
      {
        Views(up, u);
        AfterUp(up);
        elm, up, u := mem[elm].parent.value, up.up, Make(up.side, u, up.id, up.red, up.other);
        Here(mem, up, u);
      }
      AfterUp(up);
      if up.In? {
        Near(mem, up, u);
      }
      return mem[elm].parent;
    }

    /** The last node of the left subtree of node `x`. */
    method Rightmost(x: nat, ghost c: Context, ghost t: Tree) returns (elm: nat, ghost cc: Context, ghost s: Tree)
      requires Linked() && tree == Plug(c, t) && RootOf(t) == Some(x) && t.left.Tree?
      ensures RootOf(s) == Some(elm) && s.right.Leaf? && Plug(cc, s) == t.left && After(cc) == []
    {
      hide Rep, Apart, Plug;
      Here(mem, c, t);
      elm, cc, s := mem[x].left.value, Top, t.left;
      ghost var base := In(L, x, t.red, t.right, c);
      PlugTop(s);
      PlugLeft(c, t);
      PlugCompose(cc, base, s);
      Here(mem, base, s);
      while mem[elm].right.Some?
        invariant RootOf(s) == Some(elm) && Plug(cc, s) == t.left && After(cc) == []
                  && tree == Plug(Compose(cc, base), s)
        invariant elm in mem && mem[elm].right == RootOf(s.right)
        decreases s
      {
        PlugRight(cc, s);
        PlugRight(Compose(cc, base), s);
        elm, cc, s := mem[elm].right.value, In(R, s.id, s.red, s.left, cc), s.right;
        Here(mem, Compose(cc, base), s);
      }
    }

    /** The first node, or the last. */
    method MinMax(side: Side) returns (r: Option<nat>)
      requires Valid()
      ensures r == if side.L? then First(InOrder(tree)) else Last(InOrder(tree))
    {
      hide Rep, Apart, Plug, RedBlack, InOrder, Sorted, Before, After;
      var tmp := root;
      r := None;
      ghost var c, t := Top, tree;
      PlugTop(tree);
      Ends(key, Top, 0);
      while tmp.Some?
        invariant tree == Plug(c, t) && RootOf(t) == tmp && r == ParentOf(c)
        invariant if side.L? then Before(c) == [] else After(c) == []
        invariant c.In? ==> First(if side.L? then After(c) else []) == if side.L? then Some(c.id) else None
        invariant c.In? && side.R? ==> Last(Before(c)) == Some(c.id)
        invariant c.Top? ==> t == tree
        decreases t
      {
        Here(mem, c, t);
        r := tmp;
        tmp := Child(mem[tmp.value], side);
        PlugLeft(c, t);
        PlugRight(c, t);
        c, t := In(side, t.id, t.red, Sub(t, Opposite(side)), c), Sub(t, side);
        AfterUp(c);
      }
      PlugInOrder(c, t);
      LeafOrder(Before(c), [], [], After(c));
    }

    /** A walk over the nodes. */
    method Foreach() returns (s: seq<nat>)
      requires Valid()
      ensures s == InOrder(tree)
    {
      hide Rep, Apart, Plug, RedBlack, InOrder, Sorted, Before, After;
      s := [];
      var x := MinMax(L);
      WalkStart(tree);
      while x.Some?
        invariant s <= InOrder(tree) && x == First(InOrder(tree)[|s|..])
        decreases |InOrder(tree)| - |s|
      {
        WalkIn(tree, s, x.value);
        var y := Next(x.value);
        WalkNext(key, tree, s, x.value, y);
        s := s + [x.value];
        x := y;
      }
    }

    // ----- Insertion and removal ----------------------------------------------------------------------------

    /** Node `elm` comes in, unless there is one with its key already. */
    method Insert(elm: nat) returns (r: Option<nat>)
      requires Valid() && elm !in Ids(tree)
      modifies this
      ensures Valid()
      ensures r.Some? ==> r.value in Ids(tree) && key(r.value) == key(elm)
                          && tree == old(tree) && mem == old(mem) && root == old(root)
      ensures r.None? ==> (forall x :: x in old(Ids(tree)) ==> key(x) != key(elm))
                          && Ids(tree) == old(Ids(tree)) + {elm} && mem.Keys == old(mem.Keys) + {elm}
    {
      hide Rep, Apart, Plug, RedBlack, InOrder, Below, Beyond, Sorted, Before, After, Black, Fits;
      var tmp := root;
      var parent := None;
      ghost var c, t := Top, tree;
      PlugTop(tree);
      Ends(key, Top, key(elm));
      while tmp.Some?
        invariant tree == old(tree) && mem == old(mem) && root == old(root)
        invariant tree == Plug(c, t) && RootOf(t) == tmp && ParentOf(c) == parent
        invariant Below(key, Before(c), key(elm)) && Beyond(key, After(c), key(elm))
        invariant c.In? ==> (c.side.L? <==> key(elm) < key(c.id))
        decreases t
      {
        Here(mem, c, t);
        PlugApart(c, t);
        parent := tmp;
        if key(elm) < key(tmp.value) {
          tmp := mem[tmp.value].left;
          c, t := Down(key, c, t, L, key(elm));
        } else if key(elm) > key(tmp.value) {
          tmp := mem[tmp.value].right;
          c, t := Down(key, c, t, R, key(elm));
        } else {
          return tmp;
        }
      }
      AtLeaf(key, c, key(elm));
      ghost var was := mem;
      HungRep(mem, c, elm);
      ghost var leaf := Tree(Leaf, elm, true, Leaf);
      mem := mem[elm := Node(None, None, parent, true)];
      if parent.Some? {
        var n := mem[parent.value];
        mem := mem[parent.value := if key(elm) < key(parent.value) then n.(left := Some(elm))
            else n.(right := Some(elm))];
      } else {
        root := Some(elm);
      }
      assert mem == Hung(was, c, elm);
      tree := Plug(c, leaf);
      RootHung(c, elm);
      InsertedOrder(key, c, elm);
      UnplugRedBlack(c, Leaf);
      LeafRedBlack(elm);
      InsertColor(elm, c, leaf);
      SameIds(Plug(c, leaf), tree);
      return None;
    }

    /** Node `x` goes out; all others stay, in their order. */
    method Remove(x: nat) returns (r: nat)
      requires Valid() && x in Ids(tree)
      modifies this
      ensures Valid() && r == x
      ensures exists a, b :: old(InOrder(tree)) == a + [x] + b && InOrder(tree) == a + b
      ensures Ids(tree) == old(Ids(tree)) - {x} && mem.Keys == old(mem.Keys)
    {
      hide Rep, Apart, Plug, RedBlack, InOrder, Sorted, Before, After, Black, Fits;
      ghost var c, t := Locate(tree, x);
      ghost var a, b := Before(c) + InOrder(t.left), InOrder(t.right) + After(c);
      Order(key, c, t);
      PlugInOrder(c, t);
      Split(Before(c), InOrder(t.left), x, InOrder(t.right), After(c));
      Cut(x, c, t);
      RemovedOrder(key, old(tree), tree, a, x, b);
      return x;
    }

    /** Node `x` goes out, in the way that its children ask for. */
    method Cut(x: nat, ghost c: Context, ghost t: Tree)
      requires Linked() && tree == Plug(c, t) && RootOf(t) == Some(x) && RedBlack(tree) && !IsRed(tree)
      modifies this
      ensures Linked() && RedBlack(tree) && !IsRed(tree) && mem.Keys == old(mem.Keys)
      ensures InOrder(tree) == (Before(c) + InOrder(t.left)) + (InOrder(t.right) + After(c))
    {
      hide Rep, Apart, Plug, RedBlack, InOrder, Sorted, Before, After, Black, Fits;
      Here(mem, c, t);
      LeafOrder(Before(c), InOrder(t.left), InOrder(t.right), After(c));
      if mem[x].left.None? {
        CutOut(x, mem[x].right, c, L, t.right);
      } else if mem[x].right.None? {
        CutOut(x, mem[x].left, c, R, t.left);
      } else {
        CutSuccessor(x, c, t);
      }
    }

    /** Node `x`, which has no child at `side`, goes out, and its other child takes its place. */
    method CutOut(x: nat, child: Option<nat>, ghost c: Context, ghost side: Side, ghost t: Tree)
      requires Linked() && x in mem && tree == Plug(c, Make(side, Leaf, x, mem[x].red, t)) && RootOf(t) == child
      requires RedBlack(tree) && !IsRed(tree)
      modifies this
      ensures Linked() && RedBlack(tree) && !IsRed(tree)
      ensures InOrder(tree) == Before(c) + InOrder(t) + After(c) && mem.Keys == old(mem.Keys)
    {
      hide Rep, Apart, Plug, RedBlack, InOrder, Before, After, Make, Fits, Black;
      var parent, red := mem[x].parent, mem[x].red;
      UnplugRedBlack(c, Make(side, Leaf, x, red, t));
      MakeColor(side, Leaf, x, red, t, red);
      if c.Top? {
        PlugTop(Make(side, Leaf, x, red, t));
      }
      Splice(x, child, c, side, red, t);
      CutBalanced(c, side, x, red, t);
      PlugInOrder(c, t);
      if !red {
        RemoveColor(parent, child, c, t);
      }
    }

    /** Node `x`, which has two children, goes out, and the node after it takes its place. */
    method CutSuccessor(x: nat, ghost c: Context, ghost t: Tree)
      requires Linked() && tree == Plug(c, t) && RootOf(t) == Some(x) && t.left.Tree? && t.right.Tree?
      requires RedBlack(tree) && !IsRed(tree)
      modifies this
      ensures Linked() && RedBlack(tree) && !IsRed(tree)
      ensures InOrder(tree) == Before(c) + InOrder(t.left) + (InOrder(t.right) + After(c)) && mem.Keys == old(mem.Keys)
    {
      hide Rep, Apart, Plug, RedBlack, InOrder, Before, After, Fits, Black, Compose;
      Here(mem, c, t);
      ghost var cc;
      ghost var s;
      var elm;
      elm, cc, s := Leftmost(x, c, t);
      ghost var place := Compose(cc, In(R, x, t.red, t.left, c));
      Here(mem, place, s);
      var child, parent, red := mem[elm].right, mem[elm].parent, mem[elm].red;
      UnplugRedBlack(place, s);
      NotBelow(cc, c, t, s);
      Place(cc, c, t.left, x, t.red, s);
      Splice(elm, child, place, L, s.red, s.right);
      Place(cc, c, t.left, x, t.red, s.right);
      ghost var r := Plug(cc, s.right);
      Here(mem, c, Tree(t.left, x, t.red, r));
      if mem[elm].parent == Some(x) {
        parent := Some(elm);
      }
      Substitute(x, elm, c, t.left, t.red, r);
      Place(cc, c, t.left, elm, t.red, s.right);
      ghost var place' := Compose(cc, In(R, elm, t.red, t.left, c));
      Renamed(cc, x, elm, t.red, t.left, c, Black(s));
      assert s == Make(L, Leaf, elm, red, s.right);
      CutBalanced(place', L, elm, red, s.right);
      SuccessorOrder(cc, c, t, elm, s);
      if !red {
        RemoveColor(parent, child, place', s.right);
      }
    }

    /** The first node of the right subtree of node `x`. */
    method Leftmost(x: nat, ghost c: Context, ghost t: Tree) returns (elm: nat, ghost cc: Context, ghost s: Tree)
      requires Linked() && tree == Plug(c, t) && RootOf(t) == Some(x) && t.right.Tree?
      ensures RootOf(s) == Some(elm) && s.left.Leaf? && Plug(cc, s) == t.right && Before(cc) == []
      ensures tree == Plug(Compose(cc, In(R, x, t.red, t.left, c)), s)
    {
      hide Rep, Apart, Plug;
      Here(mem, c, t);
      elm, cc, s := mem[x].right.value, Top, t.right;
      ghost var base := In(R, x, t.red, t.left, c);
      PlugTop(s);
      PlugRight(c, t);
      Here(mem, base, s);
      while mem[elm].left.Some?
        invariant RootOf(s) == Some(elm) && Plug(cc, s) == t.right && Before(cc) == []
                  && tree == Plug(Compose(cc, base), s)
        invariant elm in mem && mem[elm].left == RootOf(s.left)
        decreases s
      {
        PlugLeft(cc, s);
        PlugLeft(Compose(cc, base), s);
        elm, cc, s := mem[elm].left.value, In(L, s.id, s.red, s.right, cc), s.left;
        Here(mem, Compose(cc, base), s);
      }
    }

    /** Node `e` takes the place of node `x`. */
    method Substitute(x: nat, e: nat, ghost c: Context, ghost l: Tree, ghost red: bool, ghost r: Tree)
      requires Linked() && tree == Plug(c, Tree(l, x, red, r)) && e !in Ids(tree) && e in mem && l.Tree?
      modifies this
      ensures Linked() && tree == Plug(c, Tree(l, e, red, r)) && mem.Keys == old(mem.Keys)
    {
      hide Rep, Apart, Plug, InOrder, Ids;
      SubstitutedRep(mem, c, l, x, red, r, e);
      SubstitutedRoot(mem, c, l, x, red, r, e);
      ghost var was := mem;
      mem := mem[e := mem[x]];
      var parent := mem[x].parent;
      if parent.Some? {
        var n := mem[parent.value];
        mem := mem[parent.value := if n.left == Some(x) then n.(left := Some(e)) else n.(right := Some(e))];
      } else {
        root := Some(e);
      }
      var left, right := mem[x].left.value, mem[x].right;
      mem := mem[left := mem[left].(parent := Some(e))];
      if right.Some? {
        mem := mem[right.value := mem[right.value].(parent := Some(e))];
      }
      assert mem == Substituted(was, x, e);
      tree := Plug(c, Tree(l, e, red, r));
    }

    /** The links around node `x` go past it. */
    method Splice(x: nat, child: Option<nat>, ghost c: Context, ghost side: Side, ghost red: bool, ghost t: Tree)
      requires Linked() && x in mem && tree == Plug(c, Make(side, Leaf, x, red, t)) && RootOf(t) == child
      modifies this
      ensures Linked() && tree == Plug(c, t) && x !in Ids(tree)
      ensures mem.Keys == old(mem.Keys) && mem[x] == old(mem[x]) && mem[x].parent == ParentOf(c)
    {
      hide Rep, Apart, Plug, Make, InOrder;
      SplicedRep(mem, c, side, x, red, t);
      SplicedRoot(mem, c, side, x, red, t);
      ghost var was := mem;
      var parent := mem[x].parent;
      if child.Some? {
        mem := mem[child.value := mem[child.value].(parent := parent)];
      }
      if parent.Some? {
        var n := mem[parent.value];
        mem := mem[parent.value := if n.left == Some(x) then n.(left := child) else n.(right := child)];
      } else {
        root := child;
      }
      assert mem == Spliced(was, x, child);
      tree := Plug(c, t);
    }

    // ----- Links and colours --------------------------------------------------------------------------------

    /** The colour of node `x` is set. */
    method SetColor(x: nat, red: bool, ghost c: Context, ghost t: Tree)
      requires Linked() && tree == Plug(c, t) && RootOf(t) == Some(x)
      modifies this`mem, this`tree
      ensures Linked() && tree == Plug(c, t.(red := red)) && mem.Keys == old(mem.Keys)
      ensures InOrder(tree) == old(InOrder(tree))
    {
      hide Apart, Rep;
      ColoredRep(mem, c, t, red);
      mem := mem[x := mem[x].(red := red)];
      tree := Plug(c, t.(red := red));
      PlugInOrder(c, t);
      PlugInOrder(c, t.(red := red));
      RootColored(c, t, red);
    }

    /** The tree is turned at node `x`: its child `tmp`, opposite `side`, takes its place. */
    method Rotate(side: Side, x: nat, ghost c: Context, ghost a: Tree, ghost rx: bool, ghost b: Tree, ghost y: nat,
                  ghost ry: bool,
                  ghost d: Tree)
      requires Linked() && tree == Plug(c, Make(side, a, x, rx, Make(side, b, y, ry, d)))
      modifies this
      ensures Linked() && tree == Plug(c, Make(side, Make(side, a, x, rx, b), y, ry, d)) && mem.Keys == old(mem.Keys)
      ensures InOrder(tree) == old(InOrder(tree))
    {
      hide Apart, Rep, Make, Plug, InOrder;
      RotatedRep(mem, c, side, a, x, rx, b, y, ry, d);
      RotatedRoot(mem, c, side, a, x, rx, b, y, ry, d);
      ghost var was := mem;
      var tmp := Child(mem[x], Opposite(side)).value;
      var inner := Child(mem[tmp], side);
      mem := mem[x := WithChild(mem[x], Opposite(side), inner)];
      if inner.Some? {
        mem := mem[inner.value := mem[inner.value].(parent := Some(x))];
      }
      var parent := mem[x].parent;
      mem := mem[tmp := mem[tmp].(parent := parent)];
      if parent.Some? {
        var n := mem[parent.value];
        mem := mem[parent.value := if n.left == Some(x) then n.(left := Some(tmp)) else n.(right := Some(tmp))];
      } else {
        root := Some(tmp);
      }
      mem := mem[tmp := WithChild(mem[tmp], side, Some(x))];
      mem := mem[x := mem[x].(parent := Some(tmp))];
      assert mem == Rotated(was, side, x, y);
      tree := Plug(c, Make(side, Make(side, a, x, rx, b), y, ry, d));
      PlugInOrder(c, Make(side, a, x, rx, Make(side, b, y, ry, d)));
      PlugInOrder(c, Make(side, Make(side, a, x, rx, b), y, ry, d));
      RotateInOrder(side, a, x, rx, b, y, ry, d);
    }
  
    /** Node `elm` is red; so may be its parent. The tree becomes a red-black one again. */
    method InsertColor(start: nat, ghost c0: Context, ghost t0: Tree)
      requires Linked() && tree == Plug(c0, t0) && RootOf(t0) == Some(start)
      requires IsRed(t0) && RedBlack(t0) && Fits(c0, Black(t0))
      modifies this
      ensures Linked() && RedBlack(tree) && !IsRed(tree)
      ensures InOrder(tree) == old(InOrder(tree)) && mem.Keys == old(mem.Keys)
    {
      hide Apart, Rep, InOrder, Plug, RedBlack, Black;
      var elm := start;
      ghost var c, t := c0, t0;
      Here(mem, c, t);
      while mem[elm].parent.Some? && (Near(mem, c, t); mem[mem[elm].parent.value].red)
        invariant Linked() && tree == Plug(c, t) && RootOf(t) == Some(elm) && elm in mem
                  && mem[elm].parent == ParentOf(c)
        invariant IsRed(t) && RedBlack(t) && Fits(c, Black(t))
        invariant InOrder(tree) == old(InOrder(tree)) && mem.Keys == old(mem.Keys)
        decreases Depth(c)
      {
        Near(mem, c, t);
        elm, c, t := InsertStep(elm, c, t);
        Here(mem, c, t);
      }
      if c.In? {
        Near(mem, c, t);
      }
      PlugRedBlack(c, t);
      PlugTop(tree);
      ghost var tree' := tree;
      RootPlugged(c, t);
      SetColor(root.value, false, Top, tree);
      PlugTop(tree);
      PlugTop(tree'.(red := false));
      Blacken(tree');
    }

    method InsertStep(elm: nat, ghost c: Context, ghost t: Tree) returns (elm': nat, ghost c': Context, ghost t': Tree)
      requires Linked() && tree == Plug(c, t) && RootOf(t) == Some(elm)
      requires IsRed(t) && RedBlack(t) && Fits(c, Black(t)) && RedAround(c)
      modifies this
      ensures Linked() && tree == Plug(c', t') && RootOf(t') == Some(elm')
      ensures IsRed(t') && RedBlack(t') && Fits(c', Black(t')) && Depth(c') < Depth(c)
      ensures InOrder(tree) == old(InOrder(tree)) && mem.Keys == old(mem.Keys)
    {
      hide Apart, Rep, InOrder, Plug, RedBlack, Black, Make;
      Near(mem, c, t);
      var parent := mem[elm].parent.value;
      ghost var p := Make(c.side, t, parent, true, c.other);
      Views(c, t);
      Near(mem, c.up, p);
      MakeApart(c.side, t, parent, true, c.other);
      var gparent := mem[parent].parent.value;
      var side := if mem[gparent].left == Some(parent) then L else R;
      var tmp := Child(mem[gparent], Opposite(side));
      Views(c.up, p);
      if tmp.Some? && (Here(mem, In(Opposite(side), gparent, false, p, c.up.up), c.up.other); mem[tmp.value].red) {
        t' := RecolorUncle(side, parent, gparent, tmp.value, c, t);
        elm', c' := gparent, c.up.up;
      } else {
        elm', c', t' := RotateUncle(side, elm, parent, gparent, c, t);
      }
    }

    /** The uncle is red: it and the parent become black, the grandparent red. */
    method RecolorUncle(side: Side, parent: nat, gparent: nat, tmp: nat, ghost c: Context,
                        ghost t: Tree) returns (ghost t': Tree)
      requires Linked() && tree == Plug(c, t)
      requires IsRed(t) && RedBlack(t) && Fits(c, Black(t)) && RedAround(c) && c.up.In?
      requires c.id == parent && c.up.side == side && c.up.id == gparent && RootOf(c.up.other) == Some(tmp)
               && IsRed(c.up.other)
      modifies this
      ensures Linked() && tree == Plug(c.up.up, t') && RootOf(t') == Some(gparent)
      ensures IsRed(t') && RedBlack(t') && Fits(c.up.up, Black(t'))
      ensures InOrder(tree) == old(InOrder(tree)) && mem.Keys == old(mem.Keys)
    {
      hide Apart, Rep, InOrder, Plug, RedBlack, Black, Make;
      ghost var u, up := c.up.other, c.up.up;
      ghost var p := Make(c.side, t, parent, true, c.other);
      ghost var cu := In(Opposite(side), gparent, false, p, up);
      Views(c, t);
      Views(c.up, p);
      SetColor(tmp, false, cu, u);
      ghost var u' := u.(red := false);
      Views(cu, u');
      ghost var cp := In(side, gparent, false, u', up);
      MakeColor(c.side, t, parent, true, c.other, false);
      SetColor(parent, false, cp, p);
      ghost var p' := Make(c.side, t, parent, false, c.other);
      Views(cp, p');
      MakeColor(side, p', gparent, false, u', true);
      SetColor(gparent, true, up, Make(side, p', gparent, false, u'));
      t' := Make(side, p', gparent, true, u');
      RecolorUp(c, t);
      MakeColor(side, p', gparent, true, u', true);
    }

    /** The uncle is black: one turn or two, and the red node is below a black one. */
    method RotateUncle(side: Side, elm: nat, parent: nat, gparent: nat, ghost c: Context, ghost t: Tree)
      returns (elm': nat, ghost c': Context, ghost t': Tree)
      requires Linked() && tree == Plug(c, t) && RootOf(t) == Some(elm)
      requires IsRed(t) && RedBlack(t) && Fits(c, Black(t)) && RedAround(c) && c.up.In?
      requires c.id == parent && c.up.side == side && c.up.id == gparent && !IsRed(c.up.other)
      modifies this
      ensures Linked() && tree == Plug(c', t') && RootOf(t') == Some(elm')
      ensures IsRed(t') && RedBlack(t') && Fits(c', Black(t')) && Depth(c') < Depth(c)
      ensures InOrder(tree) == old(InOrder(tree)) && mem.Keys == old(mem.Keys)
    {
      hide Apart, Rep, InOrder, Plug, RedBlack, Black, Make;
      var parent' := parent;
      elm' := elm;
      ghost var u, up, far := c.up.other, c.up.up, c.other;
      t' := t;
      Views(c, t);
      Near(mem, c, t);
      if Child(mem[parent], Opposite(side)) == Some(elm) {
        InnerTurn(c, t);
        Rotate(side, parent, c.up, c.other, true, Sub(t, side), elm, true, Sub(t, Opposite(side)));
        t', far := Make(side, c.other, parent, true, Sub(t, side)), Sub(t, Opposite(side));
        parent', elm' := elm, parent;
      }
      OuterTurn(c, t, far);
      MakeColor(side, t', parent', true, far, false);
      SetColor(parent', false, c.up, Make(side, t', parent', true, far));
      ghost var p' := Make(side, t', parent', false, far);
      Views(c.up, p');
      MakeColor(side, p', gparent, false, u, true);
      SetColor(gparent, true, up, Make(side, p', gparent, false, u));
      Flip(side, p', gparent, true, u);
      Flip(side, t', parent', false, far);
      Rotate(Opposite(side), gparent, up, u, true, far, parent', false, t');
      ghost var g := Make(Opposite(side), u, gparent, true, far);
      Flip(side, t', parent', false, g);
      c' := In(side, parent', false, g, up);
      Views(c', t');
    }

    /** The ways down through node `elm`, below `parent`, have one black node too few, or `elm` is red. */
    method RemoveColor(above: Option<nat>, start: Option<nat>, ghost c0: Context, ghost t0: Tree)
      requires Linked() && tree == Plug(c0, t0) && RootOf(t0) == start && ParentOf(c0) == above
      requires Loose(t0) && Fits(c0, Black(t0) + 1)
      modifies this
      ensures Linked() && RedBlack(tree) && !IsRed(tree)
      ensures InOrder(tree) == old(InOrder(tree)) && mem.Keys == old(mem.Keys)
    {
      hide Apart, Rep, InOrder, Plug, RedBlack, Black, Fits, Loose;
      var elm, parent := start, above;
      ghost var c, t := c0, t0;
      if elm.Some? {
        Here(mem, c, t);
      }
      while (elm.None? || !mem[elm.value].red) && elm != root
        invariant Linked() && tree == Plug(c, t) && RootOf(t) == elm && ParentOf(c) == parent
        invariant elm.Some? ==> elm.value in mem && mem[elm.value].red == IsRed(t)
        invariant Loose(t) && Fits(c, Black(t) + 1)
        invariant InOrder(tree) == old(InOrder(tree)) && mem.Keys == old(mem.Keys)
        decreases Depth(c) + if IsRed(t) then 0 else 1
      {
        if c.Top? {
          PlugTop(t);
        }
        var done;
        elm, parent, done, c, t := RemoveStep(elm, parent.value, c, t);
        if done {
          break;
        }
        if elm.Some? {
          Here(mem, c, t);
        }
      }
      if c.In? && elm == root {
        Near(mem, c, t);
      }
      Finished(c, t);
      if elm.Some? {
        SetColor(elm.value, false, c, t);
      }
    }

    method RemoveStep(elm: Option<nat>, parent: nat, ghost c: Context, ghost t: Tree)
      returns (elm': Option<nat>, parent': Option<nat>, done: bool, ghost c': Context, ghost t': Tree)
      requires Linked() && tree == Plug(c, t) && RootOf(t) == elm && ParentOf(c) == Some(parent)
      requires !IsRed(t) && Loose(t) && Fits(c, Black(t) + 1)
      modifies this
      ensures Linked() && tree == Plug(c', t') && RootOf(t') == elm'
      ensures Loose(t') && Fits(c', Black(t') + 1)
      ensures if done then c'.Top? && elm' == root
              else ParentOf(c') == parent' && Depth(c') + (if IsRed(t') then 0 else 1) < Depth(c) + 1
      ensures InOrder(tree) == old(InOrder(tree)) && mem.Keys == old(mem.Keys)
    {
      hide Apart, Rep, InOrder, Plug, RedBlack, Black, Make, Fits, Loose;
      Near(mem, c, t);
      Sibling(c, t);
      Views(c, t);
      var side := if mem[parent].left == elm then L else R;
      ghost var c1 := c;
      var tmp := Child(mem[parent], Opposite(side)).value;
      Here(mem, In(Opposite(c.side), c.id, c.red, t, c.up), c.other);
      if mem[tmp].red {
        tmp, c1 := RedSibling(side, parent, tmp, c, t);
      }
      elm', parent', done, c', t' := BlackSibling(side, parent, tmp, c1, t);
    }

    /** The sibling is red: turned, so that the node has a black one. */
    method RedSibling(side: Side, parent: nat, tmp: nat, ghost c: Context, ghost t: Tree) returns (tmp': nat,
                      ghost c': Context)
      requires Linked() && tree == Plug(c, t) && c.In? && c.side == side && c.id == parent
               && RootOf(c.other) == Some(tmp)
      requires IsRed(c.other) && !IsRed(t) && Loose(t) && Fits(c, Black(t) + 1)
      modifies this
      ensures Linked() && tree == Plug(c', t) && c'.In? && c'.side == side && c'.id == parent
              && RootOf(c'.other) == Some(tmp')
      ensures c'.red && !IsRed(c'.other) && Fits(c', Black(t) + 1) && Depth(c') == Depth(c) + 1
      ensures InOrder(tree) == old(InOrder(tree)) && mem.Keys == old(mem.Keys)
    {
      hide Apart, Rep, InOrder, Plug, RedBlack, Black, Make, Fits, Loose;
      RedSiblingTurn(c, t);
      ghost var n, f := Sub(c.other, side), Sub(c.other, Opposite(side));
      ghost var cw := In(Opposite(side), parent, false, t, c.up);
      Views(c, t);
      SetColor(tmp, false, cw, c.other);
      ghost var w' := c.other.(red := false);
      Views(cw, w');
      Flip(side, t, parent, false, w');
      MakeColor(side, t, parent, false, w', true);
      SetColor(parent, true, c.up, Make(side, t, parent, false, w'));
      Rotate(side, parent, c.up, t, true, n, tmp, false, f);
      ghost var up' := In(side, tmp, false, f, c.up);
      Views(up', Make(side, t, parent, true, n));
      c' := In(side, parent, true, n, up');
      Views(c', t);
      Near(mem, c', t);
      tmp' := Child(mem[parent], Opposite(side)).value;
    }

    /** The sibling is black: it becomes red when its children are black, and the trouble moves up; otherwise turning
        ends it. */
    method BlackSibling(side: Side, parent: nat, tmp: nat, ghost c: Context, ghost t: Tree)
      returns (elm': Option<nat>, parent': Option<nat>, done: bool, ghost c': Context, ghost t': Tree)
      requires Linked() && tree == Plug(c, t) && c.In? && c.side == side && c.id == parent
               && RootOf(c.other) == Some(tmp)
      requires !IsRed(c.other) && !IsRed(t) && Loose(t) && Fits(c, Black(t) + 1)
      modifies this
      ensures Linked() && tree == Plug(c', t') && RootOf(t') == elm'
      ensures Loose(t') && Fits(c', Black(t') + 1)
      ensures if done then c'.Top? && elm' == root
              else ParentOf(c') == parent' && c' == c.up && IsRed(t') == c.red
      ensures InOrder(tree) == old(InOrder(tree)) && mem.Keys == old(mem.Keys)
    {
      hide Apart, Rep, InOrder, Plug, RedBlack, Black, Make, Fits, Loose;
      Views(c, t);
      ghost var cw := In(Opposite(side), parent, c.red, t, c.up);
      Nephews(mem, cw, c.other, side);
      var near, far := Child(mem[tmp], side), Child(mem[tmp], Opposite(side));
      if (near.None? || !mem[near.value].red) && (far.None? || !mem[far.value].red) {
        SetColor(tmp, true, cw, c.other);
        ghost var w' := c.other.(red := true);
        Views(cw, w');
        Flip(side, t, parent, c.red, w');
        SiblingRecolored(c, t);
        c', t' := c.up, Make(side, t, parent, c.red, w');
        MakeColor(side, t, parent, c.red, w', true);
        elm', done := Some(parent), false;
        Here(mem, c', t');
        parent' := mem[parent].parent;
      } else {
        TurnSibling(side, parent, tmp, c, t);
        elm', parent', done, c', t' := root, None, true, Top, tree;
        PlugTop(tree);
        TopFits(tree);
      }
    }

    /** A child of the sibling is red: one turn or two, and nothing lacks a black node any more. */
    method TurnSibling(side: Side, parent: nat, start: nat, ghost c: Context, ghost t: Tree)
      requires Linked() && tree == Plug(c, t) && c.In? && c.side == side && c.id == parent
               && RootOf(c.other) == Some(start)
      requires !IsRed(c.other) && !IsRed(t) && Loose(t) && Fits(c, Black(t) + 1)
      requires IsRed(Sub(c.other, side)) || IsRed(Sub(c.other, Opposite(side)))
      modifies this
      ensures Linked() && RedBlack(tree) && !IsRed(tree)
      ensures InOrder(tree) == old(InOrder(tree)) && mem.Keys == old(mem.Keys)
    {
      hide Apart, Rep, InOrder, Plug, RedBlack, Black, Make, Fits, Loose;
      var tmp := start;
      ghost var n, f := Sub(c.other, side), Sub(c.other, Opposite(side));
      ghost var cw := In(Opposite(side), parent, c.red, t, c.up);
      Views(c, t);
      Nephews(mem, cw, c.other, side);
      NephewsBalanced(c, t);
      var far := Child(mem[tmp], Opposite(side));
      if far.None? || !mem[far.value].red {
        NearTurned(n, start, f, side);
        tmp := TurnNear(side, parent, tmp, cw, n, f);
        n, f := Sub(n, side), Make(side, Sub(n, Opposite(side)), start, true, f);
      }
      TurnFar(side, parent, tmp, c, t, n, f);
    }

    /** The red child of the sibling is the one nearer to the place: turned, so that the other one is red. */
    method TurnNear(side: Side, parent: nat, tmp: nat, ghost c: Context, ghost n: Tree,
                    ghost f: Tree) returns (tmp': nat)
      requires Linked() && tree == Plug(c, Make(side, n, tmp, false, f)) && IsRed(n)
      requires c.In? && c.side == Opposite(side) && c.id == parent
      modifies this
      ensures Linked() && n.id == tmp'
      ensures tree == Plug(c, Make(side, Sub(n, side), tmp', false, Make(side, Sub(n, Opposite(side)), tmp, true, f)))
      ensures InOrder(tree) == old(InOrder(tree)) && mem.Keys == old(mem.Keys)
    {
      hide Apart, Rep, InOrder, Plug, Make;
      ghost var w := Make(side, n, tmp, false, f);
      ghost var cn := In(side, tmp, false, f, c);
      Views(cn, n);
      Near(mem, cn, n);
      var oleft := Child(mem[tmp], side);
      if oleft.Some? {
        SetColor(oleft.value, false, cn, n);
      }
      ghost var n' := n.(red := false);
      Views(cn, n');
      MakeColor(side, n', tmp, false, f, true);
      SetColor(tmp, true, c, Make(side, n', tmp, false, f));
      ghost var nn, nf := Sub(n, side), Sub(n, Opposite(side));
      Parts(n', side);
      Flip(side, n', tmp, true, f);
      Flip(side, nn, n.id, false, nf);
      Rotate(Opposite(side), tmp, c, f, true, nf, n.id, false, nn);
      Flip(side, nf, tmp, true, f);
      ghost var w' := Make(side, nf, tmp, true, f);
      Flip(side, nn, n.id, false, w');
      Views(c, Make(side, nn, n.id, false, w'));
      Near(mem, c, Make(side, nn, n.id, false, w'));
      MakeColor(side, nn, n.id, false, w', false);
      tmp' := Child(mem[parent], Opposite(side)).value;
    }

    /** The sibling's far child is red: the sibling takes the place and the colour of the parent. */
    method TurnFar(side: Side, parent: nat, tmp: nat, ghost c: Context, ghost t: Tree, ghost n: Tree, ghost f: Tree)
      requires Linked() && c.In? && c.side == side && c.id == parent
      requires tree == Plug(In(Opposite(side), parent, c.red, t, c.up), Make(side, n, tmp, false, f))
      requires !IsRed(t) && Loose(t) && Fits(c, Black(t) + 1)
      requires IsRed(f) && RedBlack(n) && RedBlack(f) && Black(n) == Black(t) && Black(f) == Black(t)
      modifies this
      ensures Linked() && RedBlack(tree) && !IsRed(tree)
      ensures InOrder(tree) == old(InOrder(tree)) && mem.Keys == old(mem.Keys)
    {
      hide Apart, Rep, InOrder, Plug, RedBlack, Black, Make, Fits, Loose;
      ghost var red := c.red;
      ghost var cw := In(Opposite(side), parent, red, t, c.up);
      Near(mem, cw, Make(side, n, tmp, false, f));
      MakeColor(side, n, tmp, false, f, red);
      SetColor(tmp, mem[parent].red, cw, Make(side, n, tmp, false, f));
      ghost var w := Make(side, n, tmp, red, f);
      Views(cw, w);
      Flip(side, t, parent, red, w);
      MakeColor(side, t, parent, red, w, false);
      SetColor(parent, false, c.up, Make(side, t, parent, red, w));
      ghost var cp := In(Opposite(side), parent, false, t, c.up);
      ghost var cf := In(Opposite(side), tmp, red, n, cp);
      Flip(side, t, parent, false, w);
      Flip(side, n, tmp, red, f);
      Views(cp, w);
      Views(cf, f);
      Near(mem, cf, f);
      var far := Child(mem[tmp], Opposite(side));
      if far.Some? {
        SetColor(far.value, false, cf, f);
      }
      ghost var f' := f.(red := false);
      Views(cf, f');
      Flip(side, n, tmp, red, f');
      Views(cp, Make(side, n, tmp, red, f'));
      Flip(side, t, parent, false, Make(side, n, tmp, red, f'));
      Rotate(side, parent, c.up, t, false, n, tmp, red, f');
      FarTurned(c, t, n, tmp, f);
    }
  }

  /** A place that lacks a black node has a sibling. */
  lemma {:induction false} Sibling(c: Context, t: Tree)
    requires c.In? && Fits(c, Black(t) + 1)
    ensures c.other.Tree?
  {
  }

  lemma {:induction false} NephewsBalanced(c: Context, t: Tree)
    requires c.In? && c.other.Tree? && !IsRed(c.other) && Fits(c, Black(t) + 1)
    ensures var n, f := Sub(c.other, c.side), Sub(c.other, Opposite(c.side));
            RedBlack(n) && RedBlack(f) && Black(n) == Black(t) && Black(f) == Black(t)
  {
  }

  lemma {:induction false} Parts(t: Tree, side: Side)
    requires t.Tree?
    ensures t == Make(side, Sub(t, side), t.id, t.red, Sub(t, Opposite(side)))
  {
  }

  lemma {:induction false} NearTurned(n: Tree, w: nat, f: Tree, side: Side)
    requires IsRed(n) && RedBlack(n) && RedBlack(f) && Black(n) == Black(f) && !IsRed(f)
    ensures RedBlack(Sub(n, side)) && Black(Sub(n, side)) == Black(n)
    ensures var f' := Make(side, Sub(n, Opposite(side)), w, true, f);
            IsRed(f') && RedBlack(f') && Black(f') == Black(n)
  {
    MakeRedBlack(side, Sub(n, Opposite(side)), w, true, f);
  }

  lemma {:induction false} FarTurned(c: Context, t: Tree, n: Tree, w: nat, f: Tree)
    requires c.In? && !IsRed(t) && Loose(t) && Fits(c, Black(t) + 1)
    requires IsRed(f) && RedBlack(n) && RedBlack(f) && Black(n) == Black(t) && Black(f) == Black(t)
    ensures var t' := Plug(c.up, Make(c.side, Make(c.side, t, c.id, false, n), w, c.red, f.(red := false)));
            RedBlack(t') && !IsRed(t')
  {
    var inner := Make(c.side, t, c.id, false, n);
    MakeRedBlack(c.side, t, c.id, false, n);
    MakeRedBlack(c.side, inner, w, c.red, f.(red := false));
    PlugRedBlack(c.up, Make(c.side, inner, w, c.red, f.(red := false)));
  }

  lemma {:induction false} TopFits(t: Tree)
    requires RedBlack(t)
    ensures Loose(t) && Fits(Top, Black(t) + 1)
  {
  }

  /** The end of the loop. */
  lemma {:induction false} Finished(c: Context, t: Tree)
    requires Loose(t) && Fits(c, Black(t) + 1) && (c.Top? || IsRed(t))
    ensures t.Leaf? ==> RedBlack(Plug(c, t)) && !IsRed(Plug(c, t))
    ensures t.Tree? ==> RedBlack(Plug(c, t.(red := false))) && !IsRed(Plug(c, t.(red := false)))
  {
    if t.Tree? {
      PlugRedBlack(c, t.(red := false));
    }
  }

  lemma {:induction false} RedSiblingTurn(c: Context, t: Tree)
    requires c.In? && IsRed(c.other) && Fits(c, Black(t) + 1)
    ensures var n, f := Sub(c.other, c.side), Sub(c.other, Opposite(c.side));
            && !c.red
            && c.other == Make(c.side, n, c.other.id, true, f)
               && c.other.(red := false) == Make(c.side, n, c.other.id, false, f)
            && n.Tree? && !IsRed(n)
            && Fits(In(c.side, c.id, true, n, In(c.side, c.other.id, false, f, c.up)), Black(t) + 1)
  {
    MakeRedBlack(c.side, Sub(c.other, c.side), c.other.id, true, Sub(c.other, Opposite(c.side)));
  }

  lemma {:induction false} SiblingRecolored(c: Context, t: Tree)
    requires c.In? && c.other.Tree? && !IsRed(c.other) && Fits(c, Black(t) + 1) && !IsRed(t) && Loose(t)
    requires !IsRed(c.other.left) && !IsRed(c.other.right)
    ensures var t' := Make(c.side, t, c.id, c.red, c.other.(red := true));
            Loose(t') && Fits(c.up, Black(t') + 1)
  {
    MakeRedBlack(c.side, t, c.id, c.red, c.other.(red := true));
  }

  /** The children of a node, and their colours. */
  lemma {:induction false} Nephews(mem: Memory, c: Context, w: Tree, side: Side)
    requires w.Tree? && Apart(Plug(c, w)) && Rep(mem, Plug(c, w), None)
    ensures w.id in mem
    ensures var n, f := Sub(w, side), Sub(w, Opposite(side));
            && Child(mem[w.id], side) == RootOf(n) && Child(mem[w.id], Opposite(side)) == RootOf(f)
            && (n.Tree? ==> n.id in mem && mem[n.id].red == n.red) && (f.Tree? ==>
                 f.id in mem && mem[f.id].red == f.red)
            && w == Make(side, n, w.id, w.red, f)
            && (IsRed(w.left) || IsRed(w.right) <==> IsRed(n) || IsRed(f))
  {
    hide Plug;
    RepPlug(mem, c, w);
  }

  lemma {:induction false} MakeColor(side: Side, near: Tree, id: nat, red: bool, far: Tree, red': bool)
    ensures Make(side, near, id, red, far).Tree? && RootOf(Make(side, near, id, red, far)) == Some(id)
    ensures Make(side, near, id, red, far).(red := red') == Make(side, near, id, red', far)
    ensures IsRed(Make(side, near, id, red, far)) == red
  {
  }

  /** A red node on the inner side of its red parent. */
  lemma {:induction false} InnerTurn(c: Context, t: Tree)
    requires IsRed(t) && RedBlack(t) && Fits(c, Black(t)) && RedAround(c) && c.up.In? && c.side == Opposite(c.up.side)
    ensures var side := c.up.side;
            var b, d := Sub(t, side), Sub(t, Opposite(side));
            && t == Make(side, b, t.id, true, d)
            && Make(c.side, t, c.id, true, c.other) == Make(side, c.other, c.id, true, t)
            && var t' := Make(side, c.other, c.id, true, b);
               && IsRed(t') && RootOf(t') == Some(c.id) && RedBlack(t') && Black(t') == Black(t)
               && RedBlack(d) && !IsRed(d) && Black(d) == Black(t)
  {
    MakeRedBlack(c.up.side, c.other, c.id, true, Sub(t, c.up.side));
  }

  lemma {:induction false} OuterTurn(c: Context, t: Tree, far: Tree)
    requires IsRed(t) && RedBlack(t) && Fits(c, Black(t)) && RedAround(c) && c.up.In? && !IsRed(c.up.other)
    requires far == c.other || (RedBlack(far) && !IsRed(far) && Black(far) == Black(t))
    ensures var g := Make(Opposite(c.up.side), c.up.other, c.up.id, true, far);
            forall x: nat :: Fits(In(c.up.side, x, false, g, c.up.up), Black(t))
    ensures Depth(c.up.up) + 1 < Depth(c) && !c.up.red && c.red
  {
    RotateUp(c, t, far);
  }

  lemma {:induction false} RootPlugged(c: Context, t: Tree)
    requires t.Tree?
    ensures Plug(c, t).Tree?
  {
    if c.In? {
      RootAround(c, t);
    }
  }

  lemma {:induction false} Blacken(t: Tree)
    requires t.Tree? && Loose(t)
    ensures RedBlack(t.(red := false)) && !IsRed(t.(red := false))
  {
  }

  lemma {:induction false} PlugRight(c: Context, t: Tree)
    requires t.Tree?
    ensures Plug(In(R, t.id, t.red, t.left, c), t.right) == Plug(c, t) && Before(Top) == []
    ensures Compose(Top, In(R, t.id, t.red, t.left, c)) == In(R, t.id, t.red, t.left, c)
  {
  }

  lemma {:induction false} NotBelow(cc: Context, c: Context, t: Tree, s: Tree)
    requires t.Tree? && Apart(Plug(c, t)) && Plug(cc, s) == t.right
    ensures cc.In? ==> cc.id != t.id
  {
    hide Plug;
    PlugApart(c, t);
    PlugApart(cc, s);
  }

  lemma {:induction false} PlugLeft(c: Context, t: Tree)
    requires t.Tree?
    ensures Plug(In(L, t.id, t.red, t.right, c), t.left) == Plug(c, t)
  {
  }

  /** A place below the right child of node `x`. */
  lemma {:induction false} Place(cc: Context, c: Context, l: Tree, x: nat, red: bool, s: Tree)
    ensures Plug(Compose(cc, In(R, x, red, l, c)), s) == Plug(c, Tree(l, x, red, Plug(cc, s)))
    ensures ParentOf(Compose(cc, In(R, x, red, l, c))) == if cc.Top? then Some(x) else Some(cc.id)
  {
    PlugCompose(cc, In(R, x, red, l, c), s);
  }

  /** What fits a place fits it when a node around is another one. */
  lemma {:induction false} Renamed(cc: Context, x: nat, e: nat, red: bool, l: Tree, c: Context, h: nat)
    requires Fits(Compose(cc, In(R, x, red, l, c)), h)
    ensures Fits(Compose(cc, In(R, e, red, l, c)), h)
    decreases cc
  {
    if cc.In? {
      Renamed(cc.up, x, e, red, l, c, h + if cc.red then 0 else 1);
    }
  }

  /** The node after `x` leaves its place and takes that of `x`. */
  lemma {:induction false} SuccessorOrder(cc: Context, c: Context, t: Tree, e: nat, s: Tree)
    requires t.Tree? && RootOf(s) == Some(e) && s.left.Leaf? && Plug(cc, s) == t.right && Before(cc) == []
    ensures InOrder(Plug(c,
        Tree(t.left, e, t.red, Plug(cc, s.right)))) == Before(c) + InOrder(t.left) + (InOrder(t.right) + After(c))
  {
    hide Before, After, Plug;
    PlugInOrder(cc, s);
    PlugInOrder(cc, s.right);
    PlugInOrder(c, Tree(t.left, e, t.red, Plug(cc, s.right)));
    Moved(Before(c), InOrder(t.left), e, InOrder(s.right), After(cc), After(c));
  }

  lemma {:induction false} Moved(a: seq<nat>, l: seq<nat>, e: nat, r: seq<nat>, b: seq<nat>, d: seq<nat>)
    ensures a + (l + [e] + ([] + r + b)) + d == a + l + (([] + ([] + [e] + r) + b) + d)
  {
  }

  lemma {:induction false} SubstitutedRoot(mem: Memory, c: Context, l: Tree, x: nat, red: bool, r: Tree, e: nat)
    requires var was := Plug(c, Tree(l, x, red, r)); Apart(was) && Rep(mem, was, None) && e !in Ids(was)
    ensures x in mem && mem[x] == Node(RootOf(l), RootOf(r), ParentOf(c), red) && e != x
    ensures c.In? ==> c.id in mem && c.id != x && c.id != e
    ensures l.Tree? ==> l.id in mem && l.id != x && l.id != e
    ensures r.Tree? ==> r.id in mem && r.id != x && r.id != e
    ensures RootOf(Plug(c, Tree(l, e, red, r))) == if c.In? then RootOf(Plug(c, Tree(l, x, red, r))) else Some(e)
  {
    hide Plug;
    RepPlug(mem, c, Tree(l, x, red, r));
    PlugApart(c, Tree(l, x, red, r));
    RootPlug(c, Tree(l, x, red, r), Tree(l, e, red, r));
    InAround(mem, c, Some(x));
    InTree(mem, l, Some(x));
    InTree(mem, r, Some(x));
    if c.Top? {
      PlugTop(Tree(l, e, red, r));
    }
  }

  lemma {:induction false} SplicedRoot(mem: Memory, c: Context, side: Side, x: nat, red: bool, t: Tree)
    requires var was := Plug(c, Make(side, Leaf, x, red, t)); Apart(was) && Rep(mem, was, None)
    ensures x in mem && mem[x].parent == ParentOf(c)
    ensures c.In? ==> c.id in mem && c.id != x
    ensures t.Tree? ==> t.id in mem && t.id != x && Some(t.id) != ParentOf(c)
    ensures RootOf(Plug(c, t)) == if c.In? then RootOf(Plug(c, Make(side, Leaf, x, red, t))) else RootOf(t)
  {
    hide Plug;
    var was := Make(side, Leaf, x, red, t);
    RepPlug(mem, c, was);
    PlugApart(c, was);
    RootPlug(c, was, t);
    InAround(mem, c, Some(x));
    InTree(mem, t, Some(x));
    if c.Top? {
      PlugTop(t);
    }
  }

  lemma {:induction false} CutBalanced(c: Context, side: Side, x: nat, red: bool, t: Tree)
    requires RedBlack(Make(side, Leaf, x, red, t)) && Fits(c, Black(Make(side, Leaf, x, red, t)))
    ensures !red ==> Loose(t) && Fits(c, Black(t) + 1)
    ensures red && c.In? ==> RedBlack(Plug(c, t)) && !IsRed(Plug(c, t))
  {
    MakeRedBlack(side, Leaf, x, red, t);
    if red && c.In? {
      PlugRedBlack(c, t);
    }
  }

  lemma {:induction false} RootHung(c: Context, x: nat)
    ensures RootOf(Plug(c, Tree(Leaf, x, true, Leaf))) == if c.In? then RootOf(Plug(c, Leaf)) else Some(x)
  {
    RootPlug(c, Leaf, Tree(Leaf, x, true, Leaf));
  }

  lemma {:induction false} LeafRedBlack(x: nat)
    ensures var t := Tree(Leaf, x, true, Leaf); RedBlack(t) && Black(t) == Black(Leaf) && IsRed(t)
  {
  }

  lemma {:induction false} RootColored(c: Context, t: Tree, red: bool)
    requires t.Tree?
    ensures RootOf(Plug(c, t.(red := red))) == RootOf(Plug(c, t))
  {
    RootPlug(c, t, t.(red := red));
  }

  /** Where the root is depends on the surroundings alone. */
  lemma {:induction false} RootPlug(c: Context, t: Tree, t': Tree)
    ensures c.In? || RootOf(t) == RootOf(t') ==> RootOf(Plug(c, t)) == RootOf(Plug(c, t'))
    decreases c
  {
    if c.In? {
      RootPlug(c.up, Make(c.side, t, c.id, c.red, c.other), Make(c.side, t', c.id, c.red, c.other));
    }
  }

  lemma {:induction false} RotatedRoot(mem: Memory, c: Context, side: Side, a: Tree, x: nat, rx: bool, b: Tree, y: nat,
                                       ry: bool, d: Tree)
    requires var t := Plug(c, Make(side, a, x, rx, Make(side, b, y, ry, d))); Apart(t) && Rep(mem, t, None)
    ensures x in mem && y in mem && x != y && Child(mem[x], Opposite(side)) == Some(y) && mem[x].parent == ParentOf(c)
    ensures Child(mem[y], side) == RootOf(b) && (b.Tree? ==>
              b.id in mem && b.id != x && b.id != y && Some(b.id) != ParentOf(c))
    ensures c.In? ==> c.id in mem && c.id != x && c.id != y
    ensures var t := Plug(c, Make(side, a, x, rx, Make(side, b, y, ry, d)));
            var t' := Plug(c, Make(side, Make(side, a, x, rx, b), y, ry, d));
            RootOf(t') == if c.In? then RootOf(t) else Some(y)
  {
    hide Plug;
    var t, t' := Make(side, a, x, rx, Make(side, b, y, ry, d)), Make(side, Make(side, a, x, rx, b), y, ry, d);
    RepPlug(mem, c, t);
    PlugApart(c, t);
    RootPlug(c, t, t');
    InAround(mem, c, Some(x));
    InTree(mem, b, Some(y));
    assert c.Top? ==> Plug(c, t') == t' by { PlugTop(t'); }
  }

  lemma {:induction false} PlugTop(t: Tree)
    ensures Plug(Top, t) == t
  {
  }
}

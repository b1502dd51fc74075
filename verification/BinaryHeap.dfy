/** libuv's binary heap of linked nodes: a complete binary tree whose nodes point to their children and
    their parent. */
module BinaryHeap {
  import opened Basics
  import opened Wrappers

  datatype Node = Node(left: Option<nat>, right: Option<nat>, parent: Option<nat>)

  type Memory = map<nat, Node>

  // ----- Layout ------------------------------------------------------------------------------------------------

  /** The nodes of a complete tree are numbered row by row; `order[i]` is the node numbered `i`. */
  function Slot(order: seq<nat>, i: nat): Option<nat> {
    if i < |order| then Some(order[i]) else None
  }

  function Up(i: nat): nat
    requires i > 0
  {
    (i - 1) / 2
  }

  function NodeOf(order: seq<nat>, i: nat): Node
    requires i < |order|
  {
    Node(Slot(order, 2 * i + 1), Slot(order, 2 * i + 2), if i == 0 then None else Some(order[Up(i)]))
  }

  predicate NodeAt(mem: Memory, order: seq<nat>, i: nat)
    requires i < |order|
  {
    order[i] in mem && mem[order[i]] == NodeOf(order, i)
  }

  /** The links make the nodes `order` a complete binary tree. */
  ghost predicate Layout(mem: Memory, min: Option<nat>, order: seq<nat>) {
    && Distinct(order) && min == Slot(order, 0)
    && forall i :: 0 <= i < |order| ==> NodeAt(mem, order, i)
  }

  lemma {:induction false} Apart(order: seq<nat>, i: nat, j: nat)
    requires Distinct(order) && i < |order| && j < |order| && i != j
    ensures order[i] != order[j]
  {
  }

  // ----- Order -------------------------------------------------------------------------------------------------

  /** The node numbered `i` does not come before its parent. */
  predicate Above(key: nat -> int, order: seq<nat>, i: nat)
    requires i < |order|
  {
    i > 0 ==> key(order[Up(i)]) <= key(order[i])
  }

  ghost predicate Ordered(key: nat -> int, order: seq<nat>) {
    forall i :: 0 <= i < |order| ==> Above(key, order, i)
  }

  /** The first node of an ordered heap is the least. */
  lemma {:induction false} RootIsLeast(key: nat -> int, order: seq<nat>, i: nat)
    requires Ordered(key, order) && i < |order|
    ensures key(order[0]) <= key(order[i])
    decreases i
  {
    if i > 0 {
      assert Above(key, order, i);
      RootIsLeast(key, order, Up(i));
    }
  }

  // ----- Paths -------------------------------------------------------------------------------------------------

  /** The value of the lowest `k` bits of `path`, the lowest one being the most significant. */
  function Reversed(path: nat, k: nat): nat {
    if k == 0 then 0 else path % 2 * Pow2(k - 1) + Reversed(path / 2, k - 1)
  }

  lemma {:induction false} PathStep(n: nat, path: nat, k: nat)
    ensures Reversed(2 * path + n % 2, k + 1) == n % 2 * Pow2(k) + Reversed(path, k)
    ensures n / 2 * Pow2(k + 1) + n % 2 * Pow2(k) == n * Pow2(k)
  {
    assert (2 * path + n % 2) / 2 == path;
    var p := Pow2(k);
    assert n == 2 * (n / 2) + n % 2;
    Distribute(n / 2, n % 2, p);
  }

  lemma {:induction false} Distribute(a: nat, b: nat, p: nat)
    ensures (2 * a + b) * p == a * (2 * p) + b * p
  {
  }

  lemma {:induction false} WalkStep(x: nat, path: nat, k: nat)
    requires k > 0
    ensures x * Pow2(k) + Reversed(path, k) == (2 * x + path % 2) * Pow2(k - 1) + Reversed(path / 2, k - 1)
    ensures x >= 1 ==> 2 * x <= x * Pow2(k)
  {
    var p := Pow2(k - 1);
    PowPositive(k - 1);
    Distribute(x, path % 2, p);
    AtLeast(x, p);
  }

  lemma {:induction false} WalkEnds(x: nat, path: nat)
    ensures x * Pow2(0) + Reversed(path, 0) == x
  {
  }

  lemma {:induction false} WalkStarts(path: nat, k: nat)
    ensures 1 * Pow2(k) + Reversed(path, k) == Pow2(k) + Reversed(path, k)
  {
  }

  lemma {:induction false} AtLeast(x: nat, p: nat)
    requires p >= 1
    ensures 2 * x <= x * (2 * p)
  {
  }

  lemma {:induction false} PowPositive(k: nat)
    ensures Pow2(k) >= 1
  {
    if k > 0 {
      PowPositive(k - 1);
    }
  }

  /** A pointer to a pointer: to the root, or to a child of a node. */
  datatype Link = ToMin | ToLeft(a: nat) | ToRight(a: nat)

  /** The link leads to the place numbered `i`. */
  predicate LinksTo(link: Link, q: seq<nat>, i: nat) {
    match link
    case ToMin => i == 0
    case ToLeft(a) => i > 0 && i % 2 == 1 && Up(i) < |q| && q[Up(i)] == a
    case ToRight(a) => i > 0 && i % 2 == 0 && Up(i) < |q| && q[Up(i)] == a
  }

  predicate InMemory(m: Memory, link: Link) {
    match link
    case ToMin => true
    case ToLeft(a) => a in m
    case ToRight(a) => a in m
  }

  function StoredMem(m: Memory, link: Link, value: Option<nat>): Memory
    requires InMemory(m, link)
  {
    match link
    case ToMin => m
    case ToLeft(a) => m[a := m[a].(left := value)]
    case ToRight(a) => m[a := m[a].(right := value)]
  }

  function StoredMin(min: Option<nat>, link: Link, value: Option<nat>): Option<nat> {
    if link.ToMin? then value else min
  }

  /** The path to the node numbered `n`, from 1 on: its bits below the highest, the first step lowest. */
  method PathTo(total: nat) returns (path: nat, k: nat)
    requires total >= 1
    ensures Pow2(k) + Reversed(path, k) == total && path < Pow2(k) <= total
  {
    path, k := 0, 0;
    var n := total;
    while n >= 2
      invariant n >= 1 && n * Pow2(k) + Reversed(path, k) == total
      invariant path < Pow2(k) && n * Pow2(k) <= total
      decreases n
    {
      PathStep(n, path, k);
      PowPositive(k);
      path := 2 * path + n % 2;
      k := k + 1;
      n := n / 2;
    }
  }

  class Heap {
    var mem: Memory
    var min: Option<nat>
    var nelts: nat
    const key: nat -> int

    ghost var order: seq<nat>

    /** The nodes of the heap are a complete tree of `nelts` nodes with consistent links. */
    ghost predicate Linked()
      reads this
    {
      Layout(mem, min, order) && nelts == |order|
    }

    ghost predicate Valid()
      reads this
    {
      Linked() && Ordered(key, order)
    }

    ghost function Nodes(): set<nat>
      reads this
    {
      set a | a in order
    }

    constructor (mem: Memory, key: nat -> int)
      ensures Valid() && this.mem == mem && this.key == key && order == []
    {
      this.mem, this.key, min, nelts, order := mem, key, None, 0, [];
    }

    method Min() returns (r: Option<nat>)
      requires Valid()
      ensures r.None? <==> order == []
      ensures r.Some? ==> r.value in order && forall a :: a in order ==> key(r.value) <= key(a)
    {
      forall i | 0 <= i < |order| ensures key(order[0]) <= key(order[i]) {
        RootIsLeast(key, order, i);
      }
      r := min;
    }

    function Deref(link: Link): Option<nat>
      requires InMemory(mem, link)
      reads this
    {
      match link
      case ToMin => min
      case ToLeft(a) => mem[a].left
      case ToRight(a) => mem[a].right
    }

    method Store(link: Link, value: Option<nat>)
      requires InMemory(mem, link)
      modifies this`mem, this`min
      ensures mem == StoredMem(old(mem), link, value) && min == StoredMin(old(min), link, value)
    {
      match link
      case ToMin => min := value;
      case ToLeft(a) => mem := mem[a := mem[a].(left := value)];
      case ToRight(a) => mem := mem[a := mem[a].(right := value)];
    }

    /** Follows the path to the place numbered `total`, from 1 on, which is taken or the next free one. */
    method Follow(total: nat) returns (link: Link, parent: Link)
      requires Linked() && 1 <= total <= nelts + 1
      ensures InMemory(mem, link) && LinksTo(link, order, total - 1)
      ensures InMemory(mem, parent) && (if total == 1 then parent == ToMin else LinksTo(parent, order, Up(total - 1)))
    {
      hide Pow2, Reversed, Layout, NodeAt;
      var path, k := PathTo(total);
      WalkStarts(path, k);
      link, parent := ToMin, ToMin;
      ghost var x := 1;
      while k > 0
        invariant x >= 1 && x * Pow2(k) + Reversed(path, k) == total
        invariant InMemory(mem, link) && LinksTo(link, order, x - 1)
        invariant InMemory(mem, parent) && (if x == 1 then parent == ToMin else LinksTo(parent, order, Up(x - 1)))
        decreases k
      {
        Descend(link, x, path, k, total);
        parent := link;
        var a := Deref(link).value;
        if path % 2 == 1 {
          link := ToRight(a);
        } else {
          link := ToLeft(a);
        }
        x := 2 * x + path % 2;
        path := path / 2;
        k := k - 1;
      }
      WalkEnds(x, path);
    }

    /** The walk goes on from a node of the tree. */
    lemma {:induction false} Descend(link: Link, x: nat, path: nat, k: nat, total: nat)
      requires Layout(mem, min, order) && InMemory(mem, link) && x >= 1 && LinksTo(link, order, x - 1) && k > 0
      requires x * Pow2(k) + Reversed(path, k) == total <= |order| + 1
      ensures (2 * x + path % 2) * Pow2(k - 1) + Reversed(path / 2, k - 1) == total
      ensures x - 1 < |order| && Deref(link) == Some(order[x - 1]) && order[x - 1] in mem
      ensures Up(2 * x + path % 2 - 1) == x - 1
    {
      hide Pow2, Reversed;
      WalkStep(x, path, k);
      DerefAt(link, x - 1);
      assert NodeAt(mem, order, x - 1);
    }

    lemma {:induction false} DerefAt(link: Link, i: nat)
      requires Layout(mem, min, order) && InMemory(mem, link) && LinksTo(link, order, i)
      ensures Deref(link) == Slot(order, i)
    {
      if i > 0 {
        assert NodeAt(mem, order, Up(i));
      }
    }

    // ----- Swapping ----------------------------------------------------------------------------------------------

    /** Exchanges a node with one of its children by relinking them and their neighbours. */
    method NodeSwap(parent: nat, child: nat, ghost i: nat, ghost j: nat)
      requires Linked() && i < j < |order| && Up(j) == i && order[i] == parent && order[j] == child
      modifies this`mem, this`min, this`order
      ensures Linked() && order == NewOrder(old(order), i, j) && mem.Keys == old(mem).Keys
    {
      hide Layout, Replaced, NodeOf, Slot;
      SwapReady(mem, min, order, i, j);
      SwapLayout(mem, min, order, i, j);
      var sibling := Exchange(parent, child);
      Adopt(sibling, child);
      Adopt(mem[parent].left, parent);
      Adopt(mem[parent].right, parent);
      if mem[child].parent.None? {
        min := Some(child);
      } else {
        Replace(mem[child].parent.value, parent, child);
      }
      order := NewOrder(order, i, j);
    }

    /** Exchanges the links of the two nodes, and makes the one that was the parent the other's child. */
    method Exchange(parent: nat, child: nat) returns (sibling: Option<nat>)
      requires parent in mem && child in mem && parent != child
      modifies this`mem
      ensures mem == Exchanged(old(mem), parent, child) && sibling == SiblingOf(old(mem)[parent], child)
    {
      mem := mem[parent := mem[child]][child := mem[parent]];
      mem := mem[parent := mem[parent].(parent := Some(child))];
      if mem[child].left == Some(child) {
        mem := mem[child := mem[child].(left := Some(parent))];
        sibling := mem[child].right;
      } else {
        mem := mem[child := mem[child].(right := Some(parent))];
        sibling := mem[child].left;
      }
    }

    predicate LessThan(a: nat, b: nat) { key(a) < key(b) }

    // ----- Insertion -----------------------------------------------------------------------------------------------

    /** Moves a node up until it does not come before its parent. */
    method SiftUp(node: nat, ghost i: nat)
      requires Linked() && i < |order| && order[i] == node && UpOk(key, order, i)
      modifies this`mem, this`min, this`order
      ensures Valid() && mem.Keys == old(mem).Keys && forall a :: a in order <==> a in old(order)
    {
      hide Layout, UpOk, NodeAt;
      ghost var pos: nat := i;
      UpHere(pos);
      while mem[node].parent.Some? && LessThan(node, mem[node].parent.value)
        invariant Linked() && pos < |order| && order[pos] == node && UpOk(key, order, pos)
        invariant node in mem && mem[node] == NodeOf(order, pos)
        invariant mem.Keys == old(mem).Keys && forall a :: a in order <==> a in old(order)
        decreases pos
      {
        UpStep(key, order, pos);
        SameNodes(order, Up(pos), pos);
        NodeSwap(mem[node].parent.value, node, Up(pos), pos);
        pos := Up(pos);
        UpHere(pos);
      }
      UpDone(key, order, pos);
    }

    lemma {:induction false} UpHere(i: nat)
      requires Layout(mem, min, order) && i < |order|
      ensures order[i] in mem && mem[order[i]] == NodeOf(order, i)
    {
      assert NodeAt(mem, order, i);
    }

    /** Adds a node. */
    method Insert(newnode: nat)
      requires Valid() && newnode in mem && newnode !in order
      modifies this
      ensures Valid() && nelts == old(nelts) + 1 && mem.Keys == old(mem).Keys
      ensures forall a :: a in order <==> a in old(order) || a == newnode
    {
      hide Layout, NodeAt, Ordered;
      ghost var m := mem;
      LayoutElsewhere(m, min, order, newnode, Node(None, None, None));
      mem := mem[newnode := Node(None, None, None)];
      var link, parent := Follow(nelts + 1);
      DerefParent(parent, |order|);
      var up := Deref(parent);
      mem := mem[newnode := mem[newnode].(parent := up)];
      LayoutElsewhere(m, min, order, newnode, Node(None, None, up));
      assert mem == m[newnode := Node(None, None, up)];
      AppendLayout(mem, min, order, newnode, link);
      Store(link, Some(newnode));
      nelts := nelts + 1;
      AppendOrder(key, order, newnode);
      order := order + [newnode];
      SiftUp(newnode, |order| - 1);
    }

    lemma {:induction false} DerefParent(parent: Link, n: nat)
      requires Layout(mem, min, order) && InMemory(mem, parent) && n == |order|
      requires if n == 0 then parent == ToMin else LinksTo(parent, order, Up(n))
      ensures Deref(parent) == if n == 0 then None else Some(order[Up(n)])
    {
      if n > 0 {
        DerefAt(parent, Up(n));
      }
    }

    // ----- Removal ---------------------------------------------------------------------------------------------------

    /** Moves a node down until none of its children comes before it. */
    method SiftDown(child: nat, ghost i: nat) returns (ghost pos: nat)
      requires Linked() && i < |order| && order[i] == child && DownOk(key, order, i)
      modifies this`mem, this`min, this`order
      ensures Linked() && pos < |order| && order[pos] == child && UpOk(key, order, pos)
      ensures mem.Keys == old(mem).Keys && forall a :: a in order <==> a in old(order)
    {
      hide Layout, DownOk, UpOk, NodeAt, Distinct;
      pos := i;
      var done := false;
      while !done
        invariant Linked() && pos < |order| && order[pos] == child
        invariant if done then UpOk(key, order, pos) else DownOk(key, order, pos)
        invariant mem.Keys == old(mem).Keys && forall a :: a in order <==> a in old(order)
        decreases !done, |order| - pos
      {
        UpHere(pos);
        var smallest := child;
        ghost var j := pos;
        if mem[child].left.Some? && LessThan(mem[child].left.value, smallest) {
          smallest, j := mem[child].left.value, 2 * pos + 1;
        }
        if mem[child].right.Some? && LessThan(mem[child].right.value, smallest) {
          smallest, j := mem[child].right.value, 2 * pos + 2;
        }
        if smallest == child {
          DownDone(key, order, pos);
          done := true;
        } else {
          DownStep(key, order, pos, j);
          SameNodes(order, pos, j);
          NodeSwap(child, smallest, pos, j);
          pos := j;
        }
      }
    }

    /** Puts `child` in the place of `node`. */
    method Substitute(node: nat, child: nat, ghost i: nat)
      requires Linked() && i < |order| && order[i] == node && child in mem && child !in order
      modifies this`mem, this`min, this`order
      ensures Linked() && order == old(order)[i := child] && mem.Keys == old(mem).Keys
    {
      hide Layout, Replaced, NodeOf, Slot;
      SubstituteReady(mem, min, order, i, child);
      SubstituteLayout(mem, min, order, i, child);
      mem := mem[child := mem[node]];
      Adopt(mem[child].left, child);
      Adopt(mem[child].right, child);
      if mem[node].parent.None? {
        min := Some(child);
      } else {
        Replace(mem[node].parent.value, node, child);
      }
      order := order[i := child];
    }

    /** Removes a node, whichever it is. */
    method Remove(node: nat)
      requires Valid() && (nelts > 0 ==> node in order)
      modifies this
      ensures Valid() && mem.Keys == old(mem).Keys && nelts == if old(nelts) == 0 then 0 else old(nelts) - 1
      ensures forall a :: a in order <==> a in old(order) && a != node
    {
      hide Layout, NodeAt, Ordered, UpOk, DownOk, Distinct;
      if nelts == 0 {
        return;
      }
      ghost var q := order;
      var link, parent := Follow(nelts);
      nelts := nelts - 1;
      DerefAt(link, |q| - 1);
      DropLayout(mem, min, q, link);
      LastNode(mem, min, q);
      LayoutDistinct(mem, min, q);
      var child := Deref(link).value;
      Store(link, None);
      order := q[..|q| - 1];
      if child == node {
        // `heap_remove` clears `min` once more here; it is clear: the link to an only node is `min` itself.
        assert min != Some(child);
        PrefixOrder(key, q);
        return;
      }
      SubstituteNodes(q, node);
      ghost var i: nat :| i < |q| - 1 && q[i] == node;
      Substitute(node, child, i);
      SubstituteOrder(key, q, i);
      ghost var pos := SiftDown(child, i);
      SiftUp(child, pos);
    }

    method Dequeue()
      requires Valid() && nelts > 0
      modifies this
      ensures Valid() && nelts == old(nelts) - 1 && old(min).Some?
      ensures forall a :: a in order <==> a in old(order) && a != old(min).value
      ensures forall a :: a in old(order) ==> key(old(min).value) <= key(a)
    {
      forall i | 0 <= i < |order| ensures key(order[0]) <= key(order[i]) {
        RootIsLeast(key, order, i);
      }
      Remove(min.value);
    }

    /** Tells a node, if there is one, who its parent is. */
    method Adopt(a: Option<nat>, parent: nat)
      requires a.Some? ==> a.value in mem
      modifies this`mem
      ensures mem == Adopted(old(mem), a, parent)
    {
      if a.Some? {
        mem := mem[a.value := mem[a.value].(parent := Some(parent))];
      }
    }

    /** Makes the link from `above` that led to `from` lead to `to`. */
    method Replace(above: nat, from: nat, to: nat)
      requires above in mem
      modifies this`mem
      ensures mem == Replaced(old(mem), above, from, to)
    {
      if mem[above].left == Some(from) {
        mem := mem[above := mem[above].(left := Some(to))];
      } else {
        mem := mem[above := mem[above].(right := Some(to))];
      }
    }
  }

  // ----- The memory after a swap -----------------------------------------------------------------------------------

  function Adopted(m: Memory, a: Option<nat>, parent: nat): (r: Memory)
    requires a.Some? ==> a.value in m
    ensures r.Keys == m.Keys
    ensures forall x :: x in m ==>
              r[x].left == m[x].left && r[x].right == m[x].right && (a != Some(x) ==> r[x].parent == m[x].parent)
  {
    if a.Some? then m[a.value := m[a.value].(parent := Some(parent))] else m
  }

  function Replaced(m: Memory, above: nat, from: nat, to: nat): (r: Memory)
    requires above in m
    ensures r.Keys == m.Keys
  {
    if m[above].left == Some(from) then m[above := m[above].(left := Some(to))]
    else m[above := m[above].(right := Some(to))]
  }

  /** The two nodes have exchanged their links, and the one that was the child has the other as a child. */
  function Exchanged(m: Memory, p: nat, c: nat): (r: Memory)
    requires p in m && c in m
    ensures r.Keys == m.Keys
  {
    var high := if m[p].left == Some(c) then m[p].(left := Some(p)) else m[p].(right := Some(p));
    m[p := m[c].(parent := Some(c))][c := high]
  }

  function SiblingOf(n: Node, c: nat): Option<nat> {
    if n.left == Some(c) then n.right else n.left
  }

  /** A neighbour of the two nodes is another node. */
  predicate Third(m: Memory, p: nat, c: nat, a: Option<nat>) {
    a.Some? ==> a.value in m && a.value != p && a.value != c
  }

  predicate Apart2(a: Option<nat>, b: Option<nat>) {
    a.Some? ==> a != b
  }

  predicate SwapOk(m: Memory, p: nat, c: nat) {
    && p in m && c in m && p != c
    && var s, l, r, a := SiblingOf(m[p], c), m[c].left, m[c].right, m[p].parent;
       && Third(m, p, c, s) && Third(m, p, c, l) && Third(m, p, c, r) && Third(m, p, c, a)
       && Apart2(s, l) && Apart2(s, r) && Apart2(s, a) && Apart2(l, r) && Apart2(l, a) && Apart2(r, a)
  }

  /** What a swap makes of a node. */
  function NewNode(m: Memory, p: nat, c: nat, x: nat): Node
    requires SwapOk(m, p, c) && x in m
  {
    if x == p then m[c].(parent := Some(c))
    else if x == c then (if m[p].left == Some(c) then m[p].(left := Some(p)) else m[p].(right := Some(p)))
    else if SiblingOf(m[p], c) == Some(x) then m[x].(parent := Some(c))
    else if m[c].left == Some(x) || m[c].right == Some(x) then m[x].(parent := Some(p))
    else if m[p].parent == Some(x) then
      (if m[x].left == Some(p) then m[x].(left := Some(c)) else m[x].(right := Some(c)))
    else m[x]
  }

  lemma {:induction false} AdoptedAt(m: Memory, a: Option<nat>, parent: nat, x: nat)
    requires (a.Some? ==> a.value in m) && x in m
    ensures Adopted(m, a, parent)[x] == if a == Some(x) then m[x].(parent := Some(parent)) else m[x]
  {
  }

  lemma {:induction false} ExchangedAt(m: Memory, p: nat, c: nat, x: nat)
    requires p in m && c in m && x in m && p != c
    ensures Exchanged(m, p, c)[x]
         == if x == p then m[c].(parent := Some(c))
            else if x == c then (if m[p].left == Some(c) then m[p].(left := Some(p)) else m[p].(right := Some(p)))
            else m[x]
  {
  }

  lemma {:induction false} ReplacedAt(m: Memory, above: nat, from: nat, to: nat, x: nat)
    requires above in m && x in m
    ensures Replaced(m, above, from, to)[x]
         == if x != above then m[x]
            else if m[x].left == Some(from) then m[x].(left := Some(to)) else m[x].(right := Some(to))
  {
  }

  lemma {:induction false} SwapLookup(m: Memory, p: nat, c: nat, x: nat)
    requires SwapOk(m, p, c) && x in m
    ensures x in SwapMem(m, p, c) && SwapMem(m, p, c)[x] == NewNode(m, p, c, x)
  {
    hide Adopted, Exchanged, Replaced;
    var m1 := Exchanged(m, p, c);
    var m2 := Adopted(m1, SiblingOf(m[p], c), c);
    var m3 := Adopted(m2, m[c].left, p);
    var m4 := Adopted(m3, m[c].right, p);
    ExchangedAt(m, p, c, x);
    AdoptedAt(m1, SiblingOf(m[p], c), c, x);
    AdoptedAt(m2, m[c].left, p, x);
    AdoptedAt(m3, m[c].right, p, x);
    if m[p].parent.Some? {
      ReplacedAt(m4, m[p].parent.value, p, c, x);
    }
  }

  function SwapMem(m: Memory, p: nat, c: nat): (r: Memory)
    requires SwapOk(m, p, c)
  {
    var m1 := Exchanged(m, p, c);
    var m2 := Adopted(m1, SiblingOf(m[p], c), c);
    var m3 := Adopted(m2, m[c].left, p);
    var m4 := Adopted(m3, m[c].right, p);
    if m[p].parent.None? then m4 else Replaced(m4, m[p].parent.value, p, c)
  }

  /** The other child of node `i`. */
  function Sibling(i: nat, j: nat): nat {
    if j == 2 * i + 1 then 2 * i + 2 else 2 * i + 1
  }

  lemma {:induction false} SwapReady(m: Memory, min: Option<nat>, q: seq<nat>, i: nat, j: nat)
    requires Layout(m, min, q) && i < j < |q| && Up(j) == i
    ensures SwapOk(m, q[i], q[j])
    ensures SiblingOf(m[q[i]], q[j]) == Slot(q, Sibling(i, j))
    ensures m[q[i]].left == Some(q[j]) <==> j == 2 * i + 1
  {
    hide Layout, Distinct;
    assert Distinct(q) by {
      LayoutDistinct(m, min, q);
    }
    var s, l, r := Sibling(i, j), 2 * j + 1, 2 * j + 2;
    Here(m, min, q, i);
    Here(m, min, q, j);
    Here(m, min, q, s);
    Here(m, min, q, l);
    Here(m, min, q, r);
    Differ(q, i, j);
    Differ(q, j, 2 * i + 1);
    Differ(q, i, s);
    Differ(q, j, s);
    Differ(q, i, l);
    Differ(q, j, l);
    Differ(q, i, r);
    Differ(q, j, r);
    Differ(q, s, l);
    Differ(q, s, r);
    Differ(q, l, r);
    if i > 0 {
      var u := Up(i);
      Here(m, min, q, u);
      Differ(q, i, u);
      Differ(q, j, u);
      Differ(q, s, u);
      Differ(q, l, u);
      Differ(q, r, u);
    }
  }

  lemma {:induction false} LayoutDistinct(m: Memory, min: Option<nat>, q: seq<nat>)
    requires Layout(m, min, q)
    ensures Distinct(q)
  {
  }

  lemma {:induction false} Differ(q: seq<nat>, i: nat, j: nat)
    requires Distinct(q)
    ensures i < |q| && j < |q| && i != j ==> q[i] != q[j]
  {
  }

  lemma {:induction false} Here(m: Memory, min: Option<nat>, q: seq<nat>, i: nat)
    requires Layout(m, min, q)
    ensures i < |q| ==> q[i] in m && m[q[i]] == NodeOf(q, i)
  {
    assert i < |q| ==> NodeAt(m, q, i);
  }

  function NewOrder(q: seq<nat>, i: nat, j: nat): seq<nat>
    requires i < |q| && j < |q|
  {
    q[i := q[j]][j := q[i]]
  }

  /** The two nodes that are swapped are laid out as in the new order. */
  lemma {:induction false} SwapPair(m: Memory, min: Option<nat>, q: seq<nat>, i: nat, j: nat)
    requires Layout(m, min, q) && i < j < |q| && Up(j) == i
    requires SwapOk(m, q[i], q[j]) && Distinct(q)
    ensures NewNode(m, q[i], q[j], q[j]) == NodeOf(NewOrder(q, i, j), i)
    ensures NewNode(m, q[i], q[j], q[i]) == NodeOf(NewOrder(q, i, j), j)
  {
    hide Distinct, Layout;
    SwapReady(m, min, q, i, j);
    Here(m, min, q, i);
    Here(m, min, q, j);
    Differ(q, i, j);
  }

  /** And so are all other nodes, whether they are neighbours or not. */
  lemma {:induction false} SwapOther(m: Memory, min: Option<nat>, q: seq<nat>, i: nat, j: nat, k: nat)
    requires Layout(m, min, q) && i < j < |q| && Up(j) == i && k < |q| && k != i && k != j
    requires SwapOk(m, q[i], q[j]) && Distinct(q) && q[k] in m
    ensures NewNode(m, q[i], q[j], q[k]) == NodeOf(NewOrder(q, i, j), k)
  {
    hide Distinct, Layout;
    SwapReady(m, min, q, i, j);
    Here(m, min, q, i);
    Here(m, min, q, j);
    Here(m, min, q, k);
    Differ(q, k, i);
    Differ(q, k, j);
    Differ(q, k, Sibling(i, j));
    Differ(q, k, 2 * j + 1);
    Differ(q, k, 2 * j + 2);
    Differ(q, i, 2 * k + 1);
    if i > 0 {
      Differ(q, k, Up(i));
    }
  }

  lemma {:induction false} SwapLayout(m: Memory, min: Option<nat>, q: seq<nat>, i: nat, j: nat)
    requires Layout(m, min, q) && i < j < |q| && Up(j) == i
    ensures SwapOk(m, q[i], q[j])
    ensures Layout(SwapMem(m, q[i], q[j]), if i == 0 then Some(q[j]) else min, NewOrder(q, i, j))
    ensures SwapMem(m, q[i], q[j]).Keys == m.Keys
    ensures m[q[i]].parent.None? <==> i == 0
  {
    hide NewNode, SwapMem, SwapOk;
    SwapReady(m, min, q, i, j);
    SwapKeys(m, q[i], q[j]);
    Here(m, min, q, i);
    Here(m, min, q, j);
    var m', q' := SwapMem(m, q[i], q[j]), NewOrder(q, i, j);
    forall k | 0 <= k < |q| ensures NodeAt(m', q', k) {
      var x := if k == i then j else if k == j then i else k;
      Here(m, min, q, k);
      SwapLookup(m, q[i], q[j], q[x]);
      if k == i || k == j {
        SwapPair(m, min, q, i, j);
      } else {
        SwapOther(m, min, q, i, j, k);
      }
    }
  }

  lemma {:induction false} SwapKeys(m: Memory, p: nat, c: nat)
    requires SwapOk(m, p, c)
    ensures SwapMem(m, p, c).Keys == m.Keys
  {
  }

  // ----- Order while a node moves ------------------------------------------------------------------------------------

  /** Only the node numbered `pos` may come before its parent, and its children do not come before that
      parent either. */
  ghost predicate UpOk(key: nat -> int, q: seq<nat>, pos: nat) {
    && (forall k :: 0 <= k < |q| && k != pos ==> Above(key, q, k))
    && Under(key, q, pos)
  }

  ghost predicate DownOk(key: nat -> int, q: seq<nat>, pos: nat) {
    && (forall k :: 0 <= k < |q| && k != pos && (k > 0 ==> Up(k) != pos) ==> Above(key, q, k))
    && Under(key, q, pos)
  }

  ghost predicate Under(key: nat -> int, q: seq<nat>, pos: nat) {
    0 < pos < |q| ==> forall k :: 0 < k < |q| && Up(k) == pos ==> key(q[Up(pos)]) <= key(q[k])
  }

  lemma {:induction false} UpStep(key: nat -> int, q: seq<nat>, pos: nat)
    requires 0 < pos < |q| && UpOk(key, q, pos) && key(q[pos]) < key(q[Up(pos)])
    ensures UpOk(key, NewOrder(q, Up(pos), pos), Up(pos))
  {
    var i := Up(pos);
    var q' := NewOrder(q, i, pos);
    forall k | 0 <= k < |q'| && k != i ensures Above(key, q', k) {
      assert Above(key, q, k) || k == pos;
      assert k > 0 && Up(k) == i ==> key(q[i]) <= key(q[k]) || k == pos;
    }
    if i > 0 {
      assert Above(key, q, i);
      forall k | 0 < k < |q'| && Up(k) == i ensures key(q'[Up(i)]) <= key(q'[k]) {
        assert Above(key, q, k) || k == pos;
      }
    }
  }

  lemma {:induction false} UpDone(key: nat -> int, q: seq<nat>, pos: nat)
    requires pos < |q| && UpOk(key, q, pos) && (pos > 0 ==> key(q[pos]) >= key(q[Up(pos)]))
    ensures Ordered(key, q)
  {
  }

  lemma {:induction false} DownStep(key: nat -> int, q: seq<nat>, pos: nat, j: nat)
    requires pos < j < |q| && Up(j) == pos && DownOk(key, q, pos) && key(q[j]) < key(q[pos])
    requires var s := Sibling(pos, j); s < |q| ==> key(q[j]) <= key(q[s])
    ensures DownOk(key, NewOrder(q, pos, j), j)
  {
    var q' := NewOrder(q, pos, j);
    forall k | 0 <= k < |q'| && k != j && (k > 0 ==> Up(k) != j) ensures Above(key, q', k) {
      if k > 0 && Up(k) == pos {
        assert k == Sibling(pos, j);
      } else if k == pos {
      } else {
        assert Above(key, q, k);
      }
    }
    forall k | 0 < k < |q'| && Up(k) == j ensures key(q'[Up(j)]) <= key(q'[k]) {
      assert Above(key, q, k);
    }
  }

  lemma {:induction false} DownDone(key: nat -> int, q: seq<nat>, pos: nat)
    requires pos < |q| && DownOk(key, q, pos)
    requires 2 * pos + 1 < |q| ==> key(q[pos]) <= key(q[2 * pos + 1])
    requires 2 * pos + 2 < |q| ==> key(q[pos]) <= key(q[2 * pos + 2])
    ensures UpOk(key, q, pos)
  {
    forall k | 0 <= k < |q| && k != pos ensures Above(key, q, k) {
      if k > 0 && Up(k) == pos {
        assert k == 2 * pos + 1 || k == 2 * pos + 2;
      }
    }
  }

  lemma {:induction false} PrefixOrder(key: nat -> int, q: seq<nat>)
    requires Ordered(key, q) && q != []
    ensures Ordered(key, q[..|q| - 1])
  {
    var q' := q[..|q| - 1];
    forall k | 0 <= k < |q'| ensures Above(key, q', k) {
      assert Above(key, q, k);
    }
  }

  /** A new last node. */
  lemma {:induction false} AppendOrder(key: nat -> int, q: seq<nat>, a: nat)
    requires Ordered(key, q)
    ensures UpOk(key, q + [a], |q|)
  {
    forall k | 0 <= k < |q| ensures Above(key, q + [a], k) {
      assert Above(key, q, k);
    }
  }

  /** The last node in the place of another. */
  lemma {:induction false} SubstituteOrder(key: nat -> int, q: seq<nat>, i: nat)
    requires Ordered(key, q) && i < |q| - 1
    ensures DownOk(key, q[..|q| - 1][i := q[|q| - 1]], i)
  {
    var q' := q[..|q| - 1][i := q[|q| - 1]];
    forall k | 0 <= k < |q'| && k != i && (k > 0 ==> Up(k) != i) ensures Above(key, q', k) {
      assert Above(key, q, k);
    }
    if i > 0 {
      forall k | 0 < k < |q'| && Up(k) == i ensures key(q'[Up(i)]) <= key(q'[k]) {
        assert Above(key, q, k) && Above(key, q, i);
      }
    }
  }

  lemma {:induction false} SameNodes(q: seq<nat>, i: nat, j: nat)
    requires i < |q| && j < |q|
    ensures forall a :: a in NewOrder(q, i, j) <==> a in q
  {
    var q' := NewOrder(q, i, j);
    forall a | a in q ensures a in q' {
      var k :| 0 <= k < |q| && q[k] == a;
      assert q'[if k == i then j else if k == j then i else k] == a;
    }
  }

  // ----- Layout when nodes come and go -----------------------------------------------------------------------------

  lemma {:induction false} LayoutElsewhere(m: Memory, min: Option<nat>, q: seq<nat>, a: nat, n: Node)
    requires Layout(m, min, q) && a !in q
    ensures Layout(m[a := n], min, q)
  {
    var m' := m[a := n];
    forall k | 0 <= k < |q| ensures NodeAt(m', q, k) {
      assert NodeAt(m, q, k);
    }
  }

  lemma {:induction false} AppendLayout(m: Memory, min: Option<nat>, q: seq<nat>, a: nat, link: Link)
    requires Layout(m, min, q) && a !in q && a in m && InMemory(m, link) && LinksTo(link, q, |q|)
    requires m[a] == Node(None, None, if q == [] then None else Some(q[Up(|q|)]))
    ensures Layout(StoredMem(m, link, Some(a)), StoredMin(min, link, Some(a)), q + [a])
  {
    var m', q' := StoredMem(m, link, Some(a)), q + [a];
    forall k | 0 <= k < |q'| ensures NodeAt(m', q', k) {
      if k < |q| {
        assert NodeAt(m, q, k);
        if |q| > 0 {
          Differ(q, k, Up(|q|));
        }
      }
    }
  }

  lemma {:induction false} DropLayout(m: Memory, min: Option<nat>, q: seq<nat>, link: Link)
    requires Layout(m, min, q) && q != [] && InMemory(m, link) && LinksTo(link, q, |q| - 1)
    ensures Layout(StoredMem(m, link, None), StoredMin(min, link, None), q[..|q| - 1])
  {
    var m', q' := StoredMem(m, link, None), q[..|q| - 1];
    forall k | 0 <= k < |q'| ensures NodeAt(m', q', k) {
      assert NodeAt(m, q, k);
      if |q| > 1 {
        Differ(q, k, Up(|q| - 1));
      }
    }
  }

  lemma {:induction false} LastNode(m: Memory, min: Option<nat>, q: seq<nat>)
    requires Layout(m, min, q) && q != []
    ensures var last := q[|q| - 1];
            && last in m && last !in q[..|q| - 1] && (forall a :: a in q <==> a in q[..|q| - 1] || a == last)
            && (|q| > 1 ==> min == Some(q[0]) && q[0] != last)
  {
    assert NodeAt(m, q, |q| - 1);
    assert q == q[..|q| - 1] + [q[|q| - 1]];
  }

  /** The nodes after another one has taken the place of the last. */
  lemma {:induction false} SubstituteNodes(q: seq<nat>, node: nat)
    requires q != [] && Distinct(q) && node in q && node != q[|q| - 1]
    ensures exists i: nat :: i < |q| - 1 && q[i] == node
    ensures forall i, a :: 0 <= i < |q| - 1 && q[i] == node ==>
              (a in q[..|q| - 1][i := q[|q| - 1]] <==> a in q && a != node)
  {
    forall i, a | 0 <= i < |q| - 1 && q[i] == node ensures a in q[..|q| - 1][i := q[|q| - 1]] <==> a in q && a != node {
      var q' := q[..|q| - 1][i := q[|q| - 1]];
      if a in q && a != node {
        var k :| 0 <= k < |q| && q[k] == a;
        assert q'[if k == |q| - 1 then i else k] == a;
      }
      if a in q' {
        var k :| 0 <= k < |q'| && q'[k] == a;
        Differ(q, k, i);
        assert a == q[if k == i then |q| - 1 else k];
      }
    }
  }

  predicate SubstituteOk(m: Memory, node: nat, child: nat) {
    && node in m && child in m && node != child
    && var n := m[node];
       && Third(m, node, child, n.left) && Third(m, node, child, n.right) && Third(m, node, child, n.parent)
       && Apart2(n.left, n.right) && Apart2(n.left, n.parent) && Apart2(n.right, n.parent)
  }

  function SubstituteMem(m: Memory, node: nat, child: nat): (r: Memory)
    requires SubstituteOk(m, node, child)
  {
    var m1 := m[child := m[node]];
    var m2 := Adopted(m1, m[node].left, child);
    var m3 := Adopted(m2, m[node].right, child);
    if m[node].parent.None? then m3 else Replaced(m3, m[node].parent.value, node, child)
  }

  /** What the substitution makes of a node. */
  lemma {:induction false} SubstituteLookup(m: Memory, node: nat, child: nat, x: nat)
    requires SubstituteOk(m, node, child) && x in m
    ensures x in SubstituteMem(m, node, child)
    ensures var n := m[node];
            SubstituteMem(m, node, child)[x]
              == if x == child then n
                 else if n.left == Some(x) || n.right == Some(x) then m[x].(parent := Some(child))
                 else if n.parent == Some(x) then
                   (if m[x].left == Some(node) then m[x].(left := Some(child)) else m[x].(right := Some(child)))
                 else m[x]
  {
    hide Adopted, Replaced;
    var m1 := m[child := m[node]];
    var m2 := Adopted(m1, m[node].left, child);
    var m3 := Adopted(m2, m[node].right, child);
    AdoptedAt(m1, m[node].left, child, x);
    AdoptedAt(m2, m[node].right, child, x);
    if m[node].parent.Some? {
      ReplacedAt(m3, m[node].parent.value, node, child, x);
    }
  }

  lemma {:induction false} SubstituteReady(m: Memory, min: Option<nat>, q: seq<nat>, i: nat, child: nat)
    requires Layout(m, min, q) && i < |q| && child in m && child !in q
    ensures SubstituteOk(m, q[i], child)
    ensures m[q[i]].parent.None? <==> i == 0
  {
    hide Layout, Distinct;
    assert Distinct(q) by {
      LayoutDistinct(m, min, q);
    }
    var l, r := 2 * i + 1, 2 * i + 2;
    Here(m, min, q, i);
    Here(m, min, q, l);
    Here(m, min, q, r);
    Differ(q, i, l);
    Differ(q, i, r);
    Differ(q, l, r);
    if i > 0 {
      var u := Up(i);
      Here(m, min, q, u);
      Differ(q, i, u);
      Differ(q, l, u);
      Differ(q, r, u);
    }
  }

  lemma {:induction false} SubstituteAt(m: Memory, min: Option<nat>, q: seq<nat>, i: nat, child: nat, k: nat)
    requires Layout(m, min, q) && Distinct(q) && i < |q| && child in m && child !in q && k < |q|
    requires SubstituteOk(m, q[i], child)
    ensures NodeAt(SubstituteMem(m, q[i], child), q[i := child], k)
  {
    hide Layout, Distinct, SubstituteMem, SubstituteOk;
    Here(m, min, q, i);
    Here(m, min, q, k);
    Differ(q, k, i);
    Differ(q, k, 2 * i + 1);
    Differ(q, k, 2 * i + 2);
    Differ(q, i, 2 * k + 1);
    if i > 0 {
      Differ(q, k, Up(i));
    }
    SubstituteLookup(m, q[i], child, if k == i then child else q[k]);
  }

  lemma {:induction false} SubstituteLayout(m: Memory, min: Option<nat>, q: seq<nat>, i: nat, child: nat)
    requires Layout(m, min, q) && i < |q| && child in m && child !in q
    ensures SubstituteOk(m, q[i], child)
    ensures Layout(SubstituteMem(m, q[i], child), if i == 0 then Some(child) else min, q[i := child])
    ensures SubstituteMem(m, q[i], child).Keys == m.Keys
  {
    SubstituteReady(m, min, q, i, child);
    SubstituteKeys(m, q[i], child);
    var m', q' := SubstituteMem(m, q[i], child), q[i := child];
    forall k | 0 <= k < |q| ensures NodeAt(m', q', k) {
      SubstituteAt(m, min, q, i, child, k);
    }
  }

  lemma {:induction false} SubstituteKeys(m: Memory, node: nat, child: nat)
    requires SubstituteOk(m, node, child)
    ensures SubstituteMem(m, node, child).Keys == m.Keys
  {
  }
}

/** Trees in memory: nodes linked to their children and their parent. */
module RbMemory {
  import opened Wrappers
  import opened RbShape

  datatype Node = Node(left: Option<nat>, right: Option<nat>, parent: Option<nat>, red: bool)

  type Memory = map<nat, Node>

  function Child(n: Node, side: Side): Option<nat> {
    if side.L? then n.left else n.right
  }

  function WithChild(n: Node, side: Side, v: Option<nat>): Node {
    if side.L? then n.(left := v) else n.(right := v)
  }

  /** The links make up tree `t`, below `parent`. */
  predicate Rep(mem: Memory, t: Tree, parent: Option<nat>) {
    t.Tree? ==>
      && t.id in mem && mem[t.id] == Node(RootOf(t.left), RootOf(t.right), parent, t.red)
      && Rep(mem, t.left, Some(t.id)) && Rep(mem, t.right, Some(t.id))
  }

  /** The links make up the surroundings of a subtree whose root is `focus`. */
  predicate RepAround(mem: Memory, c: Context, focus: Option<nat>) {
    c.In? ==>
      && c.id in mem
      && mem[c.id] == (if c.side.L? then Node(focus, RootOf(c.other), ParentOf(c.up), c.red)
                       else Node(RootOf(c.other), focus, ParentOf(c.up), c.red))
      && Rep(mem, c.other, Some(c.id)) && RepAround(mem, c.up, Some(c.id))
  }

  lemma {:induction false} RepPlug(mem: Memory, c: Context, t: Tree)
    ensures Rep(mem, Plug(c, t), None) <==> Rep(mem, t, ParentOf(c)) && RepAround(mem, c, RootOf(t))
    decreases c
  {
    if c.In? {
      RepPlug(mem, c.up, Make(c.side, t, c.id, c.red, c.other));
    }
  }

  function NodeOf(side: Side, near: Tree, red: bool, far: Tree, parent: Option<nat>): Node {
    if side.L? then Node(RootOf(near), RootOf(far), parent, red) else Node(RootOf(far), RootOf(near), parent, red)
  }

  lemma {:induction false} MakeRep(mem: Memory, side: Side, near: Tree, id: nat, red: bool, far: Tree,
                                   parent: Option<nat>)
    ensures Rep(mem, Make(side, near, id, red, far), parent) <==>
            id in mem && mem[id] == NodeOf(side, near, red, far, parent) && Rep(mem, near, Some(id))
              && Rep(mem, far, Some(id))
  {
  }

  /** The same nodes are in memory, and those of `ids` are the same. */
  ghost predicate Same(mem: Memory, mem': Memory, ids: set<nat>) {
    forall x :: x in ids && x in mem ==> x in mem' && mem'[x] == mem[x]
  }

  lemma {:induction false} RepSame(mem: Memory, mem': Memory, t: Tree, parent: Option<nat>)
    requires Rep(mem, t, parent) && Same(mem, mem', Ids(t))
    ensures Rep(mem', t, parent)
    decreases t
  {
    if t.Tree? {
      RepSame(mem, mem', t.left, Some(t.id));
      RepSame(mem, mem', t.right, Some(t.id));
    }
  }

  lemma {:induction false} RepAroundSame(mem: Memory, mem': Memory, c: Context, focus: Option<nat>)
    requires RepAround(mem, c, focus) && Same(mem, mem', Around(c))
    ensures RepAround(mem', c, focus)
    decreases c
  {
    if c.In? {
      RepSame(mem, mem', c.other, Some(c.id));
      RepAroundSame(mem, mem', c.up, Some(c.id));
    }
  }

  /** Every node of a tree is in memory. */
  lemma {:induction false} RepIn(mem: Memory, t: Tree, parent: Option<nat>)
    requires Rep(mem, t, parent)
    ensures Ids(t) <= mem.Keys
    decreases t
  {
    if t.Tree? {
      RepIn(mem, t.left, Some(t.id));
      RepIn(mem, t.right, Some(t.id));
    }
  }

  // ----- Changes of links -----------------------------------------------------------------------------------

  function SetParent(mem: Memory, x: Option<nat>, parent: Option<nat>): Memory {
    if x.Some? && x.value in mem then mem[x.value := mem[x.value].(parent := parent)] else mem
  }

  /** The link from `parent` to its child `from` goes to `to`. */
  function Relink(mem: Memory, parent: Option<nat>, from: nat, to: Option<nat>): Memory {
    if parent.None? || parent.value !in mem then mem
    else
      var n := mem[parent.value];
      mem[parent.value := if n.left == Some(from) then n.(left := to) else n.(right := to)]
  }

  lemma {:induction false} Reparented(mem: Memory, mem': Memory, t: Tree, parent: Option<nat>, parent': Option<nat>)
    requires Rep(mem, t, parent) && Apart(t)
    requires Same(SetParent(mem, RootOf(t), parent'), mem', Ids(t))
    ensures Rep(mem', t, parent')
  {
    if t.Tree? {
      RepSame(mem, mem', t.left, Some(t.id));
      RepSame(mem, mem', t.right, Some(t.id));
    }
  }

  lemma {:induction false} Relinked(mem: Memory, mem': Memory, c: Context, from: nat, to: Option<nat>)
    requires RepAround(mem, c, Some(from)) && ApartAround(c) && from !in Around(c)
    requires Same(Relink(mem, ParentOf(c), from, to), mem', Around(c))
    ensures RepAround(mem', c, to)
  {
    if c.In? {
      assert RootOf(c.other) != Some(from);
      RepSame(mem, mem', c.other, Some(c.id));
      RepAroundSame(mem, mem', c.up, Some(c.id));
    }
  }

  /** A leaf of the surroundings is linked to a node. */
  lemma {:induction false} LeafLinked(mem: Memory, mem': Memory, c: Context, to: Option<nat>)
    requires RepAround(mem, c, None) && ApartAround(c)
    requires c.In? ==> c.id in mem && Same(mem[c.id := WithChild(mem[c.id], c.side, to)], mem', Around(c))
    ensures RepAround(mem', c, to)
  {
    if c.In? {
      RepSame(mem, mem', c.other, Some(c.id));
      RepAroundSame(mem, mem', c.up, Some(c.id));
    }
  }

  /** The links of a tree turned at node `x`: its child `y`, opposite `side`, takes its place. */
  function Rotated(mem: Memory, side: Side, x: nat, y: nat): Memory
    requires x in mem && y in mem
  {
    var b := Child(mem[y], side);
    var parent := mem[x].parent;
    var m1 := mem[x := WithChild(mem[x], Opposite(side), b)];
    var m2 := SetParent(m1, b, Some(x));
    var m3 := m2[y := m2[y].(parent := parent)];
    var m4 := Relink(m3, parent, x, Some(y));
    var m5 := m4[y := WithChild(m4[y], side, Some(x))];
    m5[x := m5[x].(parent := Some(y))]
  }

  /** What the turn makes of each link. */
  lemma {:induction false} RotatedAt(mem: Memory, side: Side, x: nat, y: nat)
    requires x in mem && y in mem && x != y
    requires var b := Child(mem[y], side); b != Some(x) && b != Some(y) && (b.Some? ==> b != mem[x].parent)
    requires mem[x].parent != Some(x) && mem[x].parent != Some(y)
    ensures var mem' := Rotated(mem, side, x, y);
            var b := Child(mem[y], side);
            && mem'.Keys == mem.Keys
            && mem'[x] == WithChild(mem[x], Opposite(side), b).(parent := Some(y))
            && mem'[y] == WithChild(mem[y], side, Some(x)).(parent := mem[x].parent)
            && forall z :: z in mem && z != x && z != y ==>
                 mem'[z] == if b == Some(z) then mem[z].(parent := Some(x)) else Relink(mem, mem[x].parent, x,
                                                                                        Some(y))[z]
  {
  }

  lemma {:induction false} RotatedRep(mem: Memory, c: Context, side: Side, a: Tree, x: nat, rx: bool, b: Tree, y: nat,
                                      ry: bool, d: Tree)
    requires var t := Plug(c, Make(side, a, x, rx, Make(side, b, y, ry, d))); Apart(t) && Rep(mem, t, None)
    ensures x in mem && y in mem && Child(mem[x], Opposite(side)) == Some(y)
    ensures Rep(Rotated(mem, side, x, y), Plug(c, Make(side, Make(side, a, x, rx, b), y, ry, d)), None)
    ensures Apart(Plug(c, Make(side, Make(side, a, x, rx, b), y, ry, d)))
    ensures Rotated(mem, side, x, y).Keys == mem.Keys
  {
    hide Rotated, Plug, Make, Apart, Ids;
    var t := Make(side, a, x, rx, Make(side, b, y, ry, d));
    var t' := Make(side, Make(side, a, x, rx, b), y, ry, d);
    MakeApart(side, a, x, rx, Make(side, b, y, ry, d));
    MakeApart(side, Make(side, a, x, rx, b), y, ry, d);
    PlugApart(c, t);
    PlugApart(c, t');
    RepPlug(mem, c, t);
    RotatedParts(mem, c, side, a, x, rx, b, y, ry, d);
    RepPlug(Rotated(mem, side, x, y), c, t');
    Turned(side, a, x, rx, b, y, ry, d);
  }

  lemma {:induction false} Turned(side: Side, a: Tree, x: nat, rx: bool, b: Tree, y: nat, ry: bool, d: Tree)
    ensures var t := Make(side, a, x, rx, Make(side, b, y, ry, d));
            var t' := Make(side, Make(side, a, x, rx, b), y, ry, d);
            Ids(t) == Ids(t') && (Apart(t) ==> Apart(t'))
  {
    hide Make;
    MakeApart(side, b, y, ry, d);
    MakeApart(side, a, x, rx, Make(side, b, y, ry, d));
    MakeApart(side, a, x, rx, b);
    MakeApart(side, Make(side, a, x, rx, b), y, ry, d);
  }

  /** A place to turn: node `x` with subtree `a` and child `y`, which has the subtrees `b` and `d`. */
  predicate Turning(mem: Memory, c: Context, side: Side, a: Tree, x: nat, rx: bool, b: Tree, y: nat, ry: bool,
                    d: Tree) {
    && x in mem && mem[x] == NodeOf(side, a, rx, Tree(Leaf, y, ry, Leaf), ParentOf(c))
    && y in mem && mem[y] == NodeOf(side, b, ry, d, Some(x))
    && Rep(mem, a, Some(x)) && Rep(mem, b, Some(y)) && Rep(mem, d, Some(y)) && RepAround(mem, c, Some(x))
    && Apart(a) && Apart(b) && Apart(d) && ApartAround(c)
    && x != y && x !in Ids(a) && x !in Ids(b) && x !in Ids(d) && y !in Ids(a) && y !in Ids(b) && y !in Ids(d)
    && Ids(a) !! Ids(b) && Ids(a) !! Ids(d) && Ids(b) !! Ids(d)
    && x !in Around(c) && y !in Around(c) && Ids(a) !! Around(c) && Ids(b) !! Around(c) && Ids(d) !! Around(c)
  }

  lemma {:induction false} RotatedParts(mem: Memory, c: Context, side: Side, a: Tree, x: nat, rx: bool, b: Tree,
                                        y: nat, ry: bool, d: Tree)
    requires var t := Make(side, a, x, rx, Make(side, b, y, ry, d));
             && Apart(t) && ApartAround(c) && Ids(t) !! Around(c)
             && Rep(mem, t, ParentOf(c)) && RepAround(mem, c, RootOf(t))
    ensures x in mem && y in mem && Child(mem[x], Opposite(side)) == Some(y)
    ensures var mem' := Rotated(mem, side, x, y);
            mem'.Keys == mem.Keys
            && Rep(mem', Make(side, Make(side, a, x, rx, b), y, ry, d), ParentOf(c)) && RepAround(mem', c, Some(y))
  {
    hide Rotated, Make, RepAround, Rep, Apart, ApartAround, Around, Ids;
    MakeApart(side, b, y, ry, d);
    MakeApart(side, a, x, rx, Make(side, b, y, ry, d));
    MakeRep(mem, side, b, y, ry, d, Some(x));
    MakeRep(mem, side, a, x, rx, Make(side, b, y, ry, d), ParentOf(c));
    assert Turning(mem, c, side, a, x, rx, b, y, ry, d);
    var mem' := Rotated(mem, side, x, y);
    TurnedParts(mem, c, side, a, x, rx, b, y, ry, d);
    MakeRep(mem', side, a, x, rx, b, Some(y));
    MakeRep(mem', side, Make(side, a, x, rx, b), y, ry, d, ParentOf(c));
  }

  lemma {:induction false} TurnedParts(mem: Memory, c: Context, side: Side, a: Tree, x: nat, rx: bool, b: Tree, y: nat,
                                       ry: bool, d: Tree)
    requires Turning(mem, c, side, a, x, rx, b, y, ry, d)
    ensures var mem' := Rotated(mem, side, x, y);
            && mem'.Keys == mem.Keys
            && mem'[x] == NodeOf(side, a, rx, b, Some(y))
               && mem'[y] == NodeOf(side, Tree(Leaf, x, rx, Leaf), ry, d, ParentOf(c))
            && Rep(mem', a, Some(x)) && Rep(mem', b, Some(x)) && Rep(mem', d, Some(y)) && RepAround(mem', c, Some(y))
  {
    hide Rotated, Rep, RepAround, Apart, ApartAround, Same, Ids, Around;
    var mem' := Rotated(mem, side, x, y);
    TurnedLinks(mem, c, side, a, x, rx, b, y, ry, d);
    TurnedSame(mem, c, side, a, x, rx, b, y, ry, d);
    RepSame(mem, mem', a, Some(x));
    RepSame(mem, mem', d, Some(y));
    Reparented(mem, mem', b, Some(y), Some(x));
    Relinked(mem, mem', c, x, Some(y));
  }

  /** The parent of the place is not in it, and the subtree that changes sides is not around it. */
  lemma {:induction false} TurnedLinks(mem: Memory, c: Context, side: Side, a: Tree, x: nat, rx: bool, b: Tree, y: nat,
                                       ry: bool, d: Tree)
    requires Turning(mem, c, side, a, x, rx, b, y, ry, d)
    ensures var mem' := Rotated(mem, side, x, y);
            && mem'.Keys == mem.Keys
            && mem'[x] == NodeOf(side, a, rx, b, Some(y))
               && mem'[y] == NodeOf(side, Tree(Leaf, x, rx, Leaf), ry, d, ParentOf(c))
            && forall z :: z in mem && z != x && z != y ==>
                 mem'[z] == if RootOf(b) == Some(z) then mem[z].(parent := Some(x)) else Relink(mem, ParentOf(c), x,
                                                                                                Some(y))[z]
    ensures c.In? ==> c.id in mem && c.id in Around(c)
    ensures b.Tree? ==> b.id in mem && b.id in Ids(b)
  {
    hide Rotated;
    RotatedAt(mem, side, x, y);
  }

  lemma {:induction false} TurnedSame(mem: Memory, c: Context, side: Side, a: Tree, x: nat, rx: bool, b: Tree, y: nat,
                                      ry: bool, d: Tree)
    requires Turning(mem, c, side, a, x, rx, b, y, ry, d)
    ensures var mem' := Rotated(mem, side, x, y);
            && Same(mem, mem', Ids(a)) && Same(mem, mem', Ids(d))
            && Same(SetParent(mem, RootOf(b), Some(x)), mem', Ids(b))
            && Same(Relink(mem, ParentOf(c), x, Some(y)), mem', Around(c))
  {
    hide Rotated, Rep, RepAround, Apart, ApartAround, NodeOf, Ids, Around;
    TurnedLinks(mem, c, side, a, x, rx, b, y, ry, d);
  }

  // ----- Other changes --------------------------------------------------------------------------------------

  /** Node `x`, which has one subtree at most, is cut out: `t` takes its place. */
  function Spliced(mem: Memory, x: nat, child: Option<nat>): Memory
    requires x in mem
  {
    Relink(SetParent(mem, child, mem[x].parent), mem[x].parent, x, child)
  }

  lemma {:induction false} SplicedRep(mem: Memory, c: Context, side: Side, x: nat, red: bool, t: Tree)
    requires var was := Plug(c, Make(side, Leaf, x, red, t)); Apart(was) && Rep(mem, was, None)
    ensures x in mem && mem[x] == NodeOf(side, Leaf, red, t, ParentOf(c)) && x !in Ids(Plug(c, t))
    ensures var mem' := Spliced(mem, x, RootOf(t));
            && mem'.Keys == mem.Keys && Rep(mem', Plug(c, t), None) && Apart(Plug(c, t)) && mem'[x] == mem[x]
  {
    hide Plug, Make, Spliced, Rep, RepAround, Apart, ApartAround, Ids, Around;
    PlugApart(c, Make(side, Leaf, x, red, t));
    MakeApart(side, Leaf, x, red, t);
    PlugApart(c, t);
    RepPlug(mem, c, Make(side, Leaf, x, red, t));
    MakeRep(mem, side, Leaf, x, red, t, ParentOf(c));
    SplicedParts(mem, c, side, x, red, t);
    RepPlug(Spliced(mem, x, RootOf(t)), c, t);
  }

  lemma {:induction false} SplicedParts(mem: Memory, c: Context, side: Side, x: nat, red: bool, t: Tree)
    requires x in mem && mem[x] == NodeOf(side, Leaf, red, t, ParentOf(c))
    requires Rep(mem, t, Some(x)) && RepAround(mem, c, Some(x)) && Apart(t) && ApartAround(c)
    requires x !in Ids(t) && x !in Around(c) && Ids(t) !! Around(c)
    ensures var mem' := Spliced(mem, x, RootOf(t));
            && mem'.Keys == mem.Keys && mem'[x] == mem[x]
            && Rep(mem', t, ParentOf(c)) && RepAround(mem', c, RootOf(t))
  {
    var mem' := Spliced(mem, x, RootOf(t));
    InTree(mem, t, Some(x));
    InAround(mem, c, Some(x));
    assert Same(SetParent(mem, RootOf(t), ParentOf(c)), mem', Ids(t))
           && Same(Relink(mem, ParentOf(c), x, RootOf(t)), mem', Around(c)) by {
      hide Rep, RepAround, Apart, ApartAround, Ids, Around;
    }
    hide Spliced, Same, SetParent, Relink;
    Reparented(mem, mem', t, Some(x), ParentOf(c));
    Relinked(mem, mem', c, x, RootOf(t));
  }

  lemma {:induction false} InTree(mem: Memory, t: Tree, parent: Option<nat>)
    requires Rep(mem, t, parent)
    ensures RootOf(t).Some? ==> RootOf(t).value in mem && RootOf(t).value in Ids(t)
  {
  }

  lemma {:induction false} InAround(mem: Memory, c: Context, focus: Option<nat>)
    requires RepAround(mem, c, focus)
    ensures ParentOf(c).Some? ==> ParentOf(c).value in mem && ParentOf(c).value in Around(c)
  {
  }

  /** Node `e`, which is in no tree, takes the place of node `x`. */
  function Substituted(mem: Memory, x: nat, e: nat): Memory
    requires x in mem
  {
    var n := mem[x];
    SetParent(SetParent(Relink(mem[e := n], n.parent, x, Some(e)), n.left, Some(e)), n.right, Some(e))
  }

  lemma {:induction false} SubstitutedRep(mem: Memory, c: Context, l: Tree, x: nat, red: bool, r: Tree, e: nat)
    requires var was := Plug(c, Tree(l, x, red, r)); Apart(was) && Rep(mem, was, None) && e !in Ids(was) && e in mem
    ensures x in mem && mem[x] == Node(RootOf(l), RootOf(r), ParentOf(c), red)
    ensures var mem' := Substituted(mem, x, e);
            mem'.Keys == mem.Keys && Rep(mem', Plug(c, Tree(l, e, red, r)), None) && Apart(Plug(c, Tree(l, e, red, r)))
  {
    hide Plug, Substituted, RepAround, ApartAround, Around;
    PlugApart(c, Tree(l, x, red, r));
    PlugApart(c, Tree(l, e, red, r));
    RepPlug(mem, c, Tree(l, x, red, r));
    SubstitutedParts(mem, c, l, x, red, r, e);
    RepPlug(Substituted(mem, x, e), c, Tree(l, e, red, r));
  }

  lemma {:induction false} SubstitutedParts(mem: Memory, c: Context, l: Tree, x: nat, red: bool, r: Tree, e: nat)
    requires x in mem && mem[x] == Node(RootOf(l), RootOf(r), ParentOf(c), red) && e in mem
    requires Rep(mem, l, Some(x)) && Rep(mem, r, Some(x)) && RepAround(mem, c, Some(x)) && Apart(l) && Apart(r)
             && ApartAround(c)
    requires x !in Ids(l) && x !in Ids(r) && Ids(l) !! Ids(r) && x !in Around(c) && Ids(l) !! Around(c)
             && Ids(r) !! Around(c)
    requires e != x && e !in Ids(l) && e !in Ids(r) && e !in Around(c)
    ensures var mem' := Substituted(mem, x, e);
            && mem'.Keys == mem.Keys && mem'[e] == mem[x]
            && Rep(mem', l, Some(e)) && Rep(mem', r, Some(e)) && RepAround(mem', c, Some(e))
  {
    var mem' := Substituted(mem, x, e);
    InTree(mem, l, Some(x));
    InTree(mem, r, Some(x));
    InAround(mem, c, Some(x));
    SubstitutedSame(mem, c, l, x, red, r, e);
    hide *;
    Reparented(mem, mem', l, Some(x), Some(e));
    Reparented(mem, mem', r, Some(x), Some(e));
    Relinked(mem, mem', c, x, Some(e));
  }

  lemma {:induction false} SubstitutedSame(mem: Memory, c: Context, l: Tree, x: nat, red: bool, r: Tree, e: nat)
    requires x in mem && mem[x] == Node(RootOf(l), RootOf(r), ParentOf(c), red) && e in mem
    requires RootOf(l).Some? ==> RootOf(l).value in Ids(l) && RootOf(l).value in mem
    requires RootOf(r).Some? ==> RootOf(r).value in Ids(r) && RootOf(r).value in mem
    requires ParentOf(c).Some? ==> ParentOf(c).value in Around(c) && ParentOf(c).value in mem
    requires x !in Ids(l) && x !in Ids(r) && Ids(l) !! Ids(r) && x !in Around(c) && Ids(l) !! Around(c)
             && Ids(r) !! Around(c)
    requires e != x && e !in Ids(l) && e !in Ids(r) && e !in Around(c)
    ensures var mem' := Substituted(mem, x, e);
            && mem'.Keys == mem.Keys && mem'[e] == mem[x]
            && Same(SetParent(mem, RootOf(l), Some(e)), mem', Ids(l))
            && Same(SetParent(mem, RootOf(r), Some(e)), mem', Ids(r))
            && Same(Relink(mem, ParentOf(c), x, Some(e)), mem', Around(c))
  {
    hide Ids, Around, Substituted, RootOf, ParentOf;
    SubstitutedAt(mem, x, e);
  }

  lemma {:induction false} SubstitutedAt(mem: Memory, x: nat, e: nat)
    requires x in mem && e in mem && e != x
    requires var n := mem[x]; n.parent != Some(e) && n.left != Some(e) && n.right != Some(e)
    requires var n := mem[x]; n.parent.Some? ==> n.parent != n.left && n.parent != n.right
    requires var n := mem[x]; n.left.Some? ==> n.left != n.right
    ensures var mem' := Substituted(mem, x, e);
            var n := mem[x];
            && mem'.Keys == mem.Keys && mem'[e] == n
            && forall z :: z in mem && z != e ==>
                 mem'[z] == if n.left == Some(z) || n.right == Some(z) then mem[z].(parent := Some(e))
                            else Relink(mem, n.parent, x, Some(e))[z]
  {
  }

  /** A new leaf, `x`, below `parent`. */
  function Hung(mem: Memory, c: Context, x: nat): Memory {
    var m1 := mem[x := Node(None, None, ParentOf(c), true)];
    if c.In? && c.id in m1 then m1[c.id := WithChild(m1[c.id], c.side, Some(x))] else m1
  }

  lemma {:induction false} HungRep(mem: Memory, c: Context, x: nat)
    requires Apart(Plug(c, Leaf)) && Rep(mem, Plug(c, Leaf), None) && x !in Ids(Plug(c, Leaf))
    ensures c.In? ==> c.id in mem && c.id != x
    ensures var mem' := Hung(mem, c, x);
            var t := Plug(c, Tree(Leaf, x, true, Leaf));
            Rep(mem', t, None) && Apart(t) && Ids(t) == Ids(Plug(c, Leaf)) + {x} && mem'.Keys == mem.Keys + {x}
  {
    hide Plug, Hung, RepAround, ApartAround, Around;
    var t := Tree(Leaf, x, true, Leaf);
    PlugApart(c, Leaf);
    PlugApart(c, t);
    RepPlug(mem, c, Leaf);
    ContextThere(mem, c);
    HungSame(mem, c, x);
    var mem' := Hung(mem, c, x);
    LeafLinked(mem, mem', c, Some(x));
    assert Rep(mem', t, ParentOf(c));
    RepPlug(mem', c, t);
  }

  lemma {:induction false} ContextThere(mem: Memory, c: Context)
    requires RepAround(mem, c, None)
    ensures c.In? ==> c.id in mem && c.id in Around(c)
  {
  }

  lemma {:induction false} HungSame(mem: Memory, c: Context, x: nat)
    requires x !in Around(c) && (c.In? ==> c.id in mem && c.id in Around(c))
    ensures var mem' := Hung(mem, c, x);
            && mem'.Keys == mem.Keys + {x} && mem'[x] == Node(None, None, ParentOf(c), true)
            && (c.In? ==> Same(mem[c.id := WithChild(mem[c.id], c.side, Some(x))], mem', Around(c)))
  {
    hide Around;
  }

  lemma {:induction false} ColoredRep(mem: Memory, c: Context, t: Tree, red: bool)
    requires t.Tree? && Apart(Plug(c, t)) && Rep(mem, Plug(c, t), None)
    ensures t.id in mem
    ensures Rep(mem[t.id := mem[t.id].(red := red)], Plug(c, t.(red := red)), None) && Apart(Plug(c, t.(red := red)))
    ensures Ids(Plug(c, t.(red := red))) == Ids(Plug(c, t))
  {
    hide Plug;
    var t' := t.(red := red);
    PlugApart(c, t);
    PlugApart(c, t');
    RepPlug(mem, c, t);
    var mem' := mem[t.id := mem[t.id].(red := red)];
    RepSame(mem, mem', t.left, Some(t.id));
    RepSame(mem, mem', t.right, Some(t.id));
    RepAroundSame(mem, mem', c, Some(t.id));
    RepPlug(mem', c, t');
  }
}

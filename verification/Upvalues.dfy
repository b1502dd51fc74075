/** Variables on a fiber's stack, and the upvalues through which closures share them. */
module Upvalues {
  import opened Wrappers
  import opened Closures
  import opened FunctionSyntax

  /** Where an upvalue's variable is: in a slot of a stack, or in the upvalue itself once it is closed. */
  datatype Pointer = Slot(stack: array<Value>, index: nat) | Own

  class Upvalue {
    var value: Pointer
    var closed: Value
    var next: Upvalue?

    constructor (value: Pointer)
      ensures this.value == value && closed == Null && next == null
    {
      this.value, closed, next := value, Null, null;
    }
  }

  /** An upvalue's fields. */
  datatype Node = Node(value: Pointer, closed: Value, next: Upvalue?)

  /**
    * A fiber's stack and upvalues, and what they mean: every slot and every upvalue stands for a variable, and
    * a variable has one value, wherever that is kept.
    */
  datatype State = State(stack: array<Value>, mem: seq<Value>, head: Upvalue?, nodes: map<Upvalue, Node>,
                         open: seq<Upvalue>, slots: seq<nat>, vars: map<Upvalue, nat>, cells: seq<Value>)

  // ----- The invariant --------------------------------------------------------------------------------------

  function At(open: seq<Upvalue>, i: nat): Upvalue? {
    if i < |open| then open[i] else null
  }

  /** Slot `i` holds the value of its variable. */
  predicate SlotHolds(s: State, i: nat)
    requires i < |s.slots| <= |s.mem|
  {
    s.slots[i] < |s.cells| && s.mem[i] == s.cells[s.slots[i]]
  }

  ghost predicate SlotsHold(s: State) {
    && |s.slots| <= |s.mem|
    && (forall i :: 0 <= i < |s.slots| ==> SlotHolds(s, i))
    && (forall i, j :: 0 <= i < j < |s.slots| ==> s.slots[i] != s.slots[j])
  }

  /** Where the open upvalue numbered `i` points to. */
  function IndexOf(s: State, i: nat): (k: int)
    requires i < |s.open|
  {
    if s.open[i] in s.nodes && s.nodes[s.open[i]].value.Slot? then s.nodes[s.open[i]].value.index else -1
  }

  predicate Linked(s: State, i: nat)
    requires i < |s.open|
  {
    var u := s.open[i];
    && u in s.nodes
    && s.nodes[u].value.Slot? && s.nodes[u].value.stack == s.stack && s.nodes[u].value.index < |s.slots|
    && s.nodes[u].next == At(s.open, i + 1)
  }

  /** The list of open upvalues goes down the stack. */
  ghost predicate ListDescends(s: State) {
    && s.head == At(s.open, 0)
    && (forall i :: 0 <= i < |s.open| ==> Linked(s, i))
    && (forall i, j :: 0 <= i < j < |s.open| ==> IndexOf(s, i) > IndexOf(s, j))
  }

  /** An open upvalue is on the list and points to its variable's slot; a closed one holds its variable's value,
      and no slot stands for that variable any more. */
  predicate Stands(s: State, u: Upvalue)
    requires u in s.vars && u in s.nodes
  {
    && s.vars[u] < |s.cells|
    && match s.nodes[u].value
       case Slot(_, i) => u in s.open && i < |s.slots| && s.vars[u] == s.slots[i]
       case Own => s.nodes[u].closed == s.cells[s.vars[u]] && s.vars[u] !in s.slots
  }

  /** Every upvalue stands for its variable, and no two for the same one. */
  ghost predicate UpvaluesStand(s: State) {
    && s.nodes.Keys == s.vars.Keys
    && (forall u :: u in s.vars ==> Stands(s, u))
    && (forall u, w :: u in s.vars && w in s.vars && u != w ==> s.vars[u] != s.vars[w])
  }

  ghost predicate Good(s: State) {
    SlotsHold(s) && ListDescends(s) && UpvaluesStand(s)
  }

  // ----- Steps ----------------------------------------------------------------------------------------------

  lemma {:induction false} ReadSlot(s: State, i: nat)
    requires Good(s) && i < |s.slots|
    ensures SlotHolds(s, i)
  {
  }

  lemma {:induction false} ReadUpvalue(s: State, u: Upvalue)
    requires Good(s) && u in s.vars
    ensures u in s.nodes && Stands(s, u)
    ensures s.nodes[u].value.Slot? ==>
              && s.nodes[u].value.stack == s.stack && s.nodes[u].value.index < |s.slots| <= |s.mem|
              && SlotHolds(s, s.nodes[u].value.index)
  {
    if s.nodes[u].value.Slot? {
      var k :| 0 <= k < |s.open| && s.open[k] == u;
      assert Linked(s, k);
    }
  }

  /** A slot is written: its variable has the new value, for the upvalue that stands for it too. */
  lemma {:induction false} WriteSlot(s: State, s': State, i: nat, v: Value)
    requires Good(s) && i < |s.slots| && i < |s.mem| && s.slots[i] < |s.cells|
    requires s' == s.(mem := s.mem[i := v], cells := s.cells[s.slots[i] := v])
    ensures Good(s')
  {
    forall j | 0 <= j < |s.slots| ensures SlotHolds(s', j) {
      assert SlotHolds(s, j);
      assert i < j ==> s.slots[i] != s.slots[j];
      assert j < i ==> s.slots[j] != s.slots[i];
    }
    forall k | 0 <= k < |s.open| ensures Linked(s', k) && IndexOf(s', k) == IndexOf(s, k) {
      assert Linked(s, k);
    }
    forall u | u in s.vars ensures Stands(s', u) {
      assert Stands(s, u);
    }
  }

  /** A closed upvalue is written. */
  lemma {:induction false} WriteOwn(s: State, s': State, u: Upvalue, v: Value)
    requires Good(s) && u in s.vars && s.vars[u] < |s.cells| && s.nodes[u].value.Own?
    requires s' == s.(nodes := s.nodes[u := s.nodes[u].(closed := v)], cells := s.cells[s.vars[u] := v])
    ensures Good(s')
  {
    assert Stands(s, u);
    forall j | 0 <= j < |s.slots| ensures SlotHolds(s', j) {
      assert SlotHolds(s, j);
      assert s.slots[j] != s.vars[u];
    }
    forall k | 0 <= k < |s.open| ensures Linked(s', k) && IndexOf(s', k) == IndexOf(s, k) {
      assert Linked(s, k);
    }
    forall w | w in s.vars ensures Stands(s', w) {
      assert Stands(s, w);
    }
  }

  /** A value is pushed: a new variable. */
  lemma {:induction false} PushSlot(s: State, s': State, v: Value)
    requires Good(s) && |s.slots| < |s.mem|
    requires s' == s.(mem := s.mem[|s.slots| := v], slots := s.slots + [|s.cells|], cells := s.cells + [v])
    ensures Good(s')
  {
    forall j | 0 <= j < |s'.slots| ensures SlotHolds(s', j) {
      assert j < |s.slots| ==> SlotHolds(s, j);
    }
    forall i, j | 0 <= i < j < |s'.slots| ensures s'.slots[i] != s'.slots[j] {
      assert SlotHolds(s, i);
    }
    forall k | 0 <= k < |s.open| ensures Linked(s', k) && IndexOf(s', k) == IndexOf(s, k) {
      assert Linked(s, k);
    }
    forall w | w in s.vars ensures Stands(s', w) {
      assert Stands(s, w);
    }
  }

  /** The slots from `k` on are given up; no open upvalue points to one. */
  lemma {:induction false} Truncate(s: State, s': State, k: nat)
    requires Good(s) && k <= |s.slots|
    requires s.open != [] ==> IndexOf(s, 0) < k
    requires s' == s.(slots := s.slots[..k])
    ensures Good(s')
  {
    forall j | 0 <= j < k ensures SlotHolds(s', j) {
      assert SlotHolds(s, j);
    }
    forall i, j | 0 <= i < j < k ensures s'.slots[i] != s'.slots[j] {
      assert s.slots[i] != s.slots[j];
    }
    forall i | 0 <= i < |s.open| ensures Linked(s', i) && IndexOf(s', i) == IndexOf(s, i) && IndexOf(s, i) < k {
      assert Linked(s, i);
      assert i > 0 ==> IndexOf(s, 0) > IndexOf(s, i);
    }
    forall w | w in s.vars ensures Stands(s', w) {
      assert Stands(s, w);
      if s.nodes[w].value.Slot? {
        var i :| 0 <= i < |s.open| && s.open[i] == w;
        assert Linked(s, i) && IndexOf(s, i) < k;
      }
    }
  }

  /** The first open upvalue is closed; its slot and those above are given up. */
  lemma {:induction false} CloseFirst(s: State, s': State, k: nat)
    requires Good(s) && s.open != [] && k == IndexOf(s, 0)
    requires s.open[0] in s.nodes && k < |s.slots| <= |s.mem|
    requires var u := s.open[0];
             s' == s.(nodes := s.nodes[u := Node(Own, s.mem[k], s.nodes[u].next)], head := s.nodes[u].next,
                      open := s.open[1..], slots := s.slots[..k])
    ensures Good(s')
  {
    var u := s.open[0];
    assert Linked(s, 0);
    assert Stands(s, u) && SlotHolds(s, k);
    forall j | 0 <= j < k ensures SlotHolds(s', j) && s.slots[j] != s.slots[k] {
      assert SlotHolds(s, j);
    }
    forall i, j | 0 <= i < j < k ensures s'.slots[i] != s'.slots[j] {
      assert s.slots[i] != s.slots[j];
    }
    forall i | 0 <= i < |s'.open| ensures Linked(s', i) && IndexOf(s', i) == IndexOf(s, i + 1) {
      assert Linked(s, i + 1);
      assert IndexOf(s, 0) > IndexOf(s, i + 1);
      assert s.open[i + 1] != u;
    }
    forall w | w in s.vars ensures Stands(s', w) {
      assert Stands(s, w);
      if w != u && s.nodes[w].value.Slot? {
        var i :| 0 <= i < |s.open| && s.open[i] == w;
        assert s'.open[i - 1] == w;
        assert Linked(s, i) && IndexOf(s, 0) > IndexOf(s, i);
      }
    }
  }

  lemma {:induction false} OpenIndex(s: State, j: nat)
    requires ListDescends(s) && j < |s.open|
    ensures s.open[j] in s.nodes && s.nodes[s.open[j]].value.Slot? && s.nodes[s.open[j]].value.stack == s.stack
    ensures s.nodes[s.open[j]].value.index == IndexOf(s, j) < |s.slots|
    ensures s.nodes[s.open[j]].next == At(s.open, j + 1)
  {
    assert Linked(s, j);
  }

  /** A node for `u` is made and linked in after the first `k` of the list. */
  ghost predicate Relinked(s: State, nodes: map<Upvalue, Node>, u: Upvalue, i: nat, k: nat)
    requires k <= |s.open|
  {
    && nodes.Keys == s.nodes.Keys + {u}
    && nodes[u] == Node(Slot(s.stack, i), Null, At(s.open, k))
    && (forall w :: w in s.nodes ==>
          nodes[w] == if k > 0 && w == s.open[k - 1] then s.nodes[w].(next := u) else s.nodes[w])
  }

  lemma {:induction false} Between(s: State, i: nat, k: nat)
    requires ListDescends(s) && k <= |s.open|
    requires k > 0 ==> IndexOf(s, k - 1) > i
    requires k < |s.open| ==> IndexOf(s, k) < i
    ensures forall j :: 0 <= j < |s.open| ==> IndexOf(s, j) != i
  {
    forall j | 0 <= j < |s.open| ensures IndexOf(s, j) != i {
      assert j < k - 1 ==> IndexOf(s, j) > IndexOf(s, k - 1);
      assert j > k ==> IndexOf(s, k) > IndexOf(s, j);
    }
  }

  lemma {:induction false} InsertedAt(s: State, s': State, u: Upvalue, i: nat, k: nat, j: nat)
    requires ListDescends(s) && i < |s.slots| && u !in s.nodes && k <= |s.open| && j <= |s.open|
    requires Relinked(s, s'.nodes, u, i, k)
    requires s' == s.(nodes := s'.nodes, head := s'.head, open := s.open[..k] + [u] + s.open[k..], vars := s'.vars)
    ensures IndexOf(s', j) == (if j < k then IndexOf(s, j) else if j == k then i else IndexOf(s, j - 1))
    ensures Linked(s', j)
  {
    var o, o' := s.open, s'.open;
    if j < k {
      assert o'[j] == o[j] && Linked(s, j);
      assert j < k - 1 ==> IndexOf(s, j) > IndexOf(s, k - 1) && o[j] != o[k - 1];
      assert At(o', j + 1) == if j + 1 < k then o[j + 1] else u;
    } else if j > k {
      assert o'[j] == o[j - 1] && Linked(s, j - 1);
      assert k > 0 ==> IndexOf(s, k - 1) > IndexOf(s, j - 1) && o[j - 1] != o[k - 1];
      assert At(o', j + 1) == At(o, j);
    } else {
      assert At(o', k + 1) == At(o, k);
    }
  }

  lemma {:induction false} Inserted(s: State, s': State, u: Upvalue, i: nat, k: nat)
    requires ListDescends(s) && i < |s.slots| && u !in s.nodes && k <= |s.open|
    requires k > 0 ==> IndexOf(s, k - 1) > i
    requires k < |s.open| ==> IndexOf(s, k) < i
    requires Relinked(s, s'.nodes, u, i, k)
    requires s' == s.(nodes := s'.nodes, head := if k == 0 then u else s.head,
                      open := s.open[..k] + [u] + s.open[k..], vars := s'.vars)
    ensures ListDescends(s')
  {
    hide Linked, IndexOf;
    var o' := s'.open;
    forall j | 0 <= j < |o'|
      ensures IndexOf(s', j) == (if j < k then IndexOf(s, j) else if j == k then i else IndexOf(s, j - 1))
      ensures Linked(s', j)
    {
      InsertedAt(s, s', u, i, k, j);
    }
    forall j, l | 0 <= j < l < |o'| ensures IndexOf(s', j) > IndexOf(s', l) {
      InsertedAt(s, s', u, i, k, j);
      InsertedAt(s, s', u, i, k, l);
      var j', l' := if j < k then j else j - 1, if l < k then l else l - 1;
      if j == k {
        assert l' > k ==> IndexOf(s, k) > IndexOf(s, l');
      } else if l == k {
        assert j' < k - 1 ==> IndexOf(s, j') > IndexOf(s, k - 1);
      } else {
        assert IndexOf(s, j') > IndexOf(s, l');
      }
    }
  }

  /** The list up to `k` points above slot `i`, and the rest below it: `u` becomes the upvalue for the slot. */
  lemma {:induction false} LinkIn(s: State, s': State, u: Upvalue, i: nat, k: nat)
    requires Good(s) && i < |s.slots| && u !in s.vars && k <= |s.open|
    requires k > 0 ==> IndexOf(s, k - 1) > i
    requires k < |s.open| ==> IndexOf(s, k) < i
    requires Relinked(s, s'.nodes, u, i, k)
    requires s' == s.(nodes := s'.nodes, head := if k == 0 then u else s.head,
                      open := s.open[..k] + [u] + s.open[k..], vars := s.vars[u := s.slots[i]])
    ensures Good(s')
  {
    hide Linked, IndexOf, Stands, At;
    ReadSlot(s, i);
    Between(s, i, k);
    Inserted(s, s', u, i, k);
    forall j | 0 <= j < |s.slots| ensures SlotHolds(s', j) {
      assert SlotHolds(s, j);
    }
    forall w | w in s.vars ensures Stands(s', w) && s.vars[w] != s.slots[i] {
      StillStands(s, s', u, i, k, w);
    }
    NewStands(s, s', u, i, k);
  }

  lemma {:induction false} NewStands(s: State, s': State, u: Upvalue, i: nat, k: nat)
    requires i < |s.slots| <= |s.mem| && SlotHolds(s, i) && k <= |s.open|
    requires Relinked(s, s'.nodes, u, i, k)
    requires s' == s.(nodes := s'.nodes, head := s'.head, open := s.open[..k] + [u] + s.open[k..],
                      vars := s.vars[u := s.slots[i]])
    ensures Stands(s', u)
  {
    assert s'.open[k] == u;
  }

  lemma {:induction false} StillStands(s: State, s': State, u: Upvalue, i: nat, k: nat, w: Upvalue)
    requires Good(s) && i < |s.slots| && u !in s.vars && k <= |s.open|
    requires forall j :: 0 <= j < |s.open| ==> IndexOf(s, j) != i
    requires Relinked(s, s'.nodes, u, i, k)
    requires s' == s.(nodes := s'.nodes, head := s'.head, open := s.open[..k] + [u] + s.open[k..],
                      vars := s.vars[u := s.slots[i]])
    requires w in s.vars
    ensures Stands(s', w) && s.vars[w] != s.slots[i]
  {
    assert Stands(s, w);
    if s.nodes[w].value.Slot? {
      var j :| 0 <= j < |s.open| && s.open[j] == w;
      assert s'.open[if j < k then j else j + 1] == w;
      OpenIndex(s, j);
    }
  }

  /** An upvalue once the first `n` of the list have moved to stack `now`. */
  function MovedNode(s: State, u: Upvalue, now: array<Value>, n: nat): Node
    requires u in s.nodes && n <= |s.open|
  {
    if u in s.open[..n] && s.nodes[u].value.Slot? then s.nodes[u].(value := Slot(now, s.nodes[u].value.index))
    else s.nodes[u]
  }

  lemma {:induction false} MovedNext(s: State, now: array<Value>, n: nat)
    requires Good(s) && n < |s.open|
    ensures s.open[n] in s.nodes && s.nodes[s.open[n]].value.Slot?
    ensures MovedNode(s, s.open[n], now, n) == s.nodes[s.open[n]]
    ensures MovedNode(s, s.open[n], now, n + 1)
         == s.nodes[s.open[n]].(value := Slot(now, s.nodes[s.open[n]].value.index))
    ensures forall u :: u in s.nodes && u != s.open[n] ==> MovedNode(s, u, now, n + 1) == MovedNode(s, u, now, n)
  {
    OpenIndex(s, n);
    forall j | 0 <= j < n ensures s.open[j] != s.open[n] {
      assert IndexOf(s, j) > IndexOf(s, n);
    }
    assert s.open[..n + 1] == s.open[..n] + [s.open[n]];
  }

  /** The stack moves to `now`, and every open upvalue with it. */
  lemma {:induction false} Moved(s: State, s': State, now: array<Value>)
    requires Good(s)
    requires |s.slots| <= |s'.mem| && s'.mem[..|s.slots|] == s.mem[..|s.slots|]
    requires s'.nodes.Keys == s.nodes.Keys
    requires forall u :: u in s.nodes ==> s'.nodes[u] == MovedNode(s, u, now, |s.open|)
    requires s' == s.(stack := now, mem := s'.mem, nodes := s'.nodes)
    ensures Good(s')
  {
    forall j | 0 <= j < |s.slots| ensures SlotHolds(s', j) {
      assert SlotHolds(s, j);
      assert s.mem[..|s.slots|][j] == s'.mem[..|s.slots|][j];
    }
    forall i | 0 <= i < |s.open| ensures Linked(s', i) && IndexOf(s', i) == IndexOf(s, i) {
      assert Linked(s, i);
    }
    forall w | w in s.vars ensures Stands(s', w) {
      assert Stands(s, w);
      assert s.open[..|s.open|] == s.open;
    }
  }

  // ----- The fiber ------------------------------------------------------------------------------------------

  /** A call in progress: where its slots begin, and the upvalues of its closure. */
  datatype CallFrame = CallFrame(stack: array<Value>, start: nat, upvalues: seq<Upvalue>)

  predicate FrameAt(frames: seq<CallFrame>, i: nat, stack: array<Value>, top: nat, vars: map<Upvalue, nat>)
    requires i < |frames|
  {
    && frames[i].stack == stack
    && frames[i].start < (if i + 1 < |frames| then frames[i + 1].start else top)
    && forall u :: u in frames[i].upvalues ==> u in vars
  }

  /** Every call has its slots on this stack, above those of its caller. */
  ghost predicate FramesOk(frames: seq<CallFrame>, stack: array<Value>, top: nat, vars: map<Upvalue, nat>) {
    forall i :: 0 <= i < |frames| ==> FrameAt(frames, i, stack, top, vars)
  }

  /** What a function's code says about one upvalue of a closure to be made: a slot of the function that makes
      it, or one of that function's own upvalues. */
  function Captured(slots: seq<nat>, vars: map<Upvalue, nat>, f: CallFrame, e: CompilerUpvalue): Option<nat> {
    if e.isLocal then
      if f.start + e.index < |slots| then Some(slots[f.start + e.index]) else None
    else if e.index < |f.upvalues| && f.upvalues[e.index] in vars then
      Some(vars[f.upvalues[e.index]])
    else
      None
  }

  /** The least power of two that is not below `n`. */
  function PowerOf2Ceil(n: nat): (p: nat)
    ensures p >= n && p >= 1
  {
    CeilFrom(n, 1)
  }

  function CeilFrom(n: nat, p: nat): (q: nat)
    requires p >= 1
    ensures q >= n && q >= p
    decreases n - p
  {
    if p >= n then p else CeilFrom(n, 2 * p)
  }

  /** What upvalues there are were there, or are among `added`. */
  ghost predicate OnlyAdded(was: map<Upvalue, nat>, now: map<Upvalue, nat>, added: seq<Upvalue>) {
    forall u :: u in now ==> u in was || u in added
  }

  /** No upvalue comes to stand for another variable. */
  ghost predicate Kept(was: map<Upvalue, nat>, now: map<Upvalue, nat>) {
    forall u :: u in was ==> u in now && now[u] == was[u]
  }

  class Fiber {
    var stack: array<Value>
    var stackTop: nat
    var openUpvalues: Upvalue?
    var frames: seq<CallFrame>
    ghost var open: seq<Upvalue>
    ghost var slots: seq<nat>
    ghost var vars: map<Upvalue, nat>
    ghost var cells: seq<Value>

    ghost function Nodes(): map<Upvalue, Node>
      reads this`vars, vars.Keys
    {
      map u | u in vars :: Node(u.value, u.closed, u.next)
    }

    ghost function Abs(): State
      reads this, stack, vars.Keys
    {
      State(stack, stack[..], openUpvalues, Nodes(), open, slots, vars, cells)
    }

    ghost predicate Valid()
      reads this, stack, vars.Keys
    {
      Good(Abs()) && stackTop == |slots| && FramesOk(frames, stack, stackTop, vars)
    }

    /** A fiber with an empty stack. */
    constructor (capacity: nat)
      ensures Valid() && slots == [] && cells == [] && frames == [] && vars == map[]
      ensures fresh(stack) && stack.Length == capacity
    {
      stack, stackTop, openUpvalues, frames := new Value[capacity], 0, null, [];
      open, slots, vars, cells := [], [], map[], [];
    }

    /** A function runs that has slot `i`. */
    ghost predicate HasLocal(i: nat)
      reads this, stack, vars.Keys
    {
      Valid() && frames != [] && frames[|frames| - 1].start + i < |slots|
    }

    /** The variable in slot `i` of the function that runs. */
    ghost function Local(i: nat): (x: nat)
      requires HasLocal(i)
      reads this, stack, vars.Keys
      ensures x < |cells|
    {
      var k := frames[|frames| - 1].start + i;
      ReadSlot(Abs(), k);
      slots[k]
    }

    /** A function runs whose closure has upvalue `i`. */
    ghost predicate HasUpvalue(i: nat)
      reads this, stack, vars.Keys
    {
      Valid() && frames != [] && i < |frames[|frames| - 1].upvalues|
    }

    /** The variable that upvalue `i` of the running function's closure stands for. */
    ghost function UpvalueOf(i: nat): (x: nat)
      requires HasUpvalue(i)
      reads this, stack, vars.Keys
      ensures x < |cells|
    {
      var f := frames[|frames| - 1];
      assert FrameAt(frames, |frames| - 1, stack, stackTop, vars);
      ReadUpvalue(Abs(), f.upvalues[i]);
      vars[f.upvalues[i]]
    }

    method LoadLocal(i: nat) returns (v: Value)
      requires HasLocal(i)
      ensures v == cells[Local(i)]
    {
      var f := frames[|frames| - 1];
      assert FrameAt(frames, |frames| - 1, stack, stackTop, vars);
      ReadSlot(Abs(), f.start + i);
      v := f.stack[f.start + i];
    }

    method StoreLocal(i: nat, v: Value)
      requires HasLocal(i)
      modifies this`cells, stack
      ensures Valid() && cells == old(cells)[old(Local(i)) := v]
    {
      var f := frames[|frames| - 1];
      assert FrameAt(frames, |frames| - 1, stack, stackTop, vars);
      var k := f.start + i;
      ghost var s := Abs();
      ReadSlot(s, k);
      f.stack[k] := v;
      cells := cells[slots[k] := v];
      WriteSlot(s, Abs(), k, v);
    }

    method LoadUpvalue(i: nat) returns (v: Value)
      requires HasUpvalue(i)
      ensures v == cells[UpvalueOf(i)]
    {
      var f := frames[|frames| - 1];
      assert FrameAt(frames, |frames| - 1, stack, stackTop, vars);
      var u := f.upvalues[i];
      ReadUpvalue(Abs(), u);
      match u.value
      case Slot(s, k) => v := s[k];
      case Own => v := u.closed;
    }

    method StoreUpvalue(i: nat, v: Value)
      requires HasUpvalue(i)
      modifies this`cells, stack, vars.Keys
      ensures Valid() && cells == old(cells)[old(UpvalueOf(i)) := v]
    {
      hide SlotsHold, UpvaluesStand, ListDescends, Linked, IndexOf, FramesOk;
      var f := frames[|frames| - 1];
      var u := f.upvalues[i];
      HasIt(i);
      ghost var s := Abs();
      ReadUpvalue(s, u);
      cells := cells[vars[u] := v];
      match u.value {
        case Slot(m, k) =>
          m[k] := v;
          WriteSlot(s, Abs(), k, v);
        case Own =>
          u.closed := v;
          assert Nodes() == s.nodes[u := s.nodes[u].(closed := v)];
          WriteOwn(s, Abs(), u, v);
      }
    }

    lemma {:induction false} HasIt(i: nat)
      requires HasUpvalue(i)
      ensures frames[|frames| - 1].upvalues[i] in vars
    {
      assert FrameAt(frames, |frames| - 1, stack, stackTop, vars);
    }

    /** A value is pushed: the slot is a new variable. */
    method Push(v: Value)
      requires Valid() && stackTop < stack.Length
      modifies this`cells, this`slots, this`stackTop, stack
      ensures Valid() && slots == old(slots) + [|old(cells)|] && cells == old(cells) + [v]
      ensures stackTop == old(stackTop) + 1
    {
      ghost var s := Abs();
      stack[stackTop] := v;
      stackTop := stackTop + 1;
      cells, slots := cells + [v], slots + [|cells|];
      PushSlot(s, Abs(), v);
      FramesGrow(frames, stack, |s.slots|, vars, stackTop, vars);
    }

    /** The last slot is given up, when no closure has its variable. */
    method Pop() returns (v: Value)
      requires HasLocal(1) && slots[stackTop - 1] !in vars.Values
      modifies this`slots, this`stackTop
      ensures Valid() && slots == old(slots)[..old(stackTop) - 1]
      ensures old(slots[stackTop - 1]) < |cells| && v == cells[old(slots[stackTop - 1])]
    {
      ghost var s := Abs();
      ReadSlot(s, stackTop - 1);
      stackTop := stackTop - 1;
      v := stack[stackTop];
      slots := slots[..stackTop];
      NoneOpenAt(s, stackTop);
      Truncate(s, Abs(), stackTop);
      FramesShrink(frames, stack, |s.slots|, vars, stackTop);
    }

    /** The last slot is given up, whether or not a closure has its variable. */
    method CloseUpvalue()
      requires HasLocal(1) && stackTop > frames[|frames| - 1].start + 1
      modifies this`openUpvalues, this`open, this`slots, this`stackTop, vars.Keys
      ensures Valid() && slots == old(slots)[..old(stackTop) - 1]
    {
      CloseUpvalues(stackTop - 1);
      stackTop := stackTop - 1;
      FramesShrink(frames, stack, old(stackTop), vars, stackTop);
    }

    /** The function that runs returns: its variables leave the stack, and its result, a new variable, takes the
        place of the first. */
    method Return()
      requires HasLocal(0)
      modifies this`openUpvalues, this`open, this`slots, this`stackTop, this`frames, this`cells, vars.Keys, stack
      ensures Valid() && frames == old(frames)[..|old(frames)| - 1]
      ensures var start, top := old(frames[|frames| - 1].start), old(stackTop) - 1;
              && start <= top < |old(slots)| && old(slots)[top] < |old(cells)|
              && slots == old(slots)[..start] + [|old(cells)|] && cells == old(cells) + [old(cells)[old(slots)[top]]]
    {
      hide Good;
      assert FrameAt(frames, |frames| - 1, stack, stackTop, vars);
      assert |slots| <= stack.Length && SlotHolds(Abs(), stackTop - 1) by {
        OpenUpvalue();
        ReadSlot(Abs(), stackTop - 1);
      }
      stackTop := stackTop - 1;
      var result := stack[stackTop];
      EndCall();
      Push(result);
    }

    method EndCall()
      requires Good(Abs()) && frames != [] && FramesOk(frames, stack, |slots|, vars)
      modifies this`openUpvalues, this`open, this`slots, this`stackTop, this`frames, vars.Keys
      ensures Valid() && frames == old(frames)[..|old(frames)| - 1]
      ensures old(frames[|frames| - 1].start) < |old(slots)| && slots == old(slots)[..old(frames[|frames| - 1].start)]
    {
      hide Good;
      var f := frames[|frames| - 1];
      assert FrameAt(frames, |frames| - 1, stack, |slots|, vars);
      frames := frames[..|frames| - 1];
      CloseUpvalues(f.start);
      FramesLess(old(frames), stack, old(|slots|), vars, f.start);
      stackTop := f.start;
    }

    /** The stack grows, and moves. Every pointer into it moves along. */
    method EnsureStack(needed: nat)
      requires Valid()
      modifies this`stack, this`frames, vars.Keys
      ensures Valid() && stack.Length >= needed && stack.Length >= old(stack.Length)
      ensures stack == old(stack) || (fresh(stack) && stack.Length == PowerOf2Ceil(needed))
      ensures stack[..stackTop] == old(stack[..stackTop])
      ensures |frames| == |old(frames)|
      ensures forall i :: 0 <= i < |frames| ==> frames[i] == old(frames)[i].(stack := stack)
    {
      if stack.Length >= needed {
        forall i | 0 <= i < |frames| ensures frames[i] == frames[i].(stack := stack) {
          assert FrameAt(frames, i, stack, stackTop, vars);
        }
        return;
      }
      ghost var s := Abs();
      var oldStack := stack;
      var moved := new Value[PowerOf2Ceil(needed)];
      forall i | 0 <= i < stackTop {
        moved[i] := oldStack[i];
      }
      stack := moved;
      MoveFrames(oldStack);
      MoveUpvalues(s);
      assert moved[..stackTop] == oldStack[..stackTop];
      Moved(s, Abs(), moved);
    }

    method MoveFrames(oldStack: array<Value>)
      requires FramesOk(frames, oldStack, stackTop, vars)
      modifies this`frames
      ensures FramesOk(frames, stack, stackTop, vars)
      ensures |frames| == |old(frames)| && forall i :: 0 <= i < |frames| ==>
                frames[i] == old(frames)[i].(stack := stack)
    {
      ghost var was := frames;
      for i := 0 to |frames|
        invariant |frames| == |was|
        invariant forall j :: 0 <= j < i ==> frames[j] == was[j].(stack := stack)
        invariant forall j :: i <= j < |frames| ==> frames[j] == was[j]
      {
        frames := frames[i := frames[i].(stack := stack)];
      }
      forall i | 0 <= i < |frames| ensures FrameAt(frames, i, stack, stackTop, vars) {
        assert FrameAt(was, i, oldStack, stackTop, vars);
      }
    }

    method MoveUpvalues(ghost s: State)
      requires Good(s) && s.nodes == Nodes() && s.open == open && s.vars == vars && s.head == openUpvalues
      modifies vars.Keys
      ensures forall u :: u in vars ==> Nodes()[u] == MovedNode(s, u, stack, |open|)
    {
      hide SlotsHold, UpvaluesStand, Linked, IndexOf;
      ghost var i := 0;

      var upvalue := openUpvalues;
      while upvalue != null
        invariant i <= |open| && upvalue == At(open, i)
        invariant forall u :: u in vars ==> Node(u.value, u.closed, u.next) == MovedNode(s, u, stack, i)
        decreases |open| - i
      {
        OpenIndex(s, i);
        assert Node(upvalue.value, upvalue.closed, upvalue.next) == MovedNode(s, upvalue, stack, i);
        MovedNext(s, stack, i);
        upvalue.value := Slot(stack, upvalue.value.index);
        upvalue, i := upvalue.next, i + 1;
      }
    }

    /** A function is called: the last `numArgs` slots become its first ones. */
    method CallFunction(upvalues: seq<Upvalue>, numArgs: nat, maxSlots: nat)
      requires Valid() && 0 < numArgs <= stackTop && (forall u :: u in upvalues ==> u in vars)
      requires frames != [] ==> frames[|frames| - 1].start < stackTop - numArgs
      modifies this`stack, this`frames, vars.Keys
      ensures Valid() && |frames| == |old(frames)| + 1 && stack.Length >= stackTop + maxSlots
              && stack.Length >= old(stack.Length)
      ensures stack == old(stack) || fresh(stack)
      ensures forall i :: 0 <= i < |old(frames)| ==> frames[i] == old(frames)[i].(stack := stack)
      ensures frames[|frames| - 1] == CallFrame(stack, stackTop - numArgs, upvalues)
    {
      EnsureStack(stackTop + maxSlots);
      ghost var was := frames;
      frames := frames + [CallFrame(stack, stackTop - numArgs, upvalues)];
      forall i | 0 <= i < |frames| ensures FrameAt(frames, i, stack, stackTop, vars) {
        assert i < |was| ==> FrameAt(was, i, stack, stackTop, vars);
      }
    }

    /** The upvalues of a new closure, as its function's code lists them: each stands for the variable captured. */
    method Closure(captures: seq<CompilerUpvalue>) returns (upvalues: seq<Upvalue>)
      requires Valid() && frames != []
      requires forall i :: 0 <= i < |captures| ==> Captured(slots, vars, frames[|frames| - 1], captures[i]).Some?
      modifies this`openUpvalues, this`open, this`vars, vars.Keys
      ensures Valid() && |upvalues| == |captures|
      ensures Kept(old(vars), vars) && OnlyAdded(old(vars), vars, upvalues)
      ensures fresh(vars.Keys - old(vars).Keys)
      ensures forall i :: 0 <= i < |captures| ==>
                upvalues[i] in vars
                  && Some(vars[upvalues[i]]) == Captured(slots, old(vars), frames[|frames| - 1], captures[i])
    {
      hide Good, Captured, FramesOk;
      upvalues := [];
      ghost var f := frames[|frames| - 1];
      for n := 0 to |captures|
        invariant Valid() && |upvalues| == n
        invariant Kept(old(vars), vars) && OnlyAdded(old(vars), vars, upvalues)
        invariant fresh(vars.Keys - old(vars).Keys)
        invariant forall i :: 0 <= i < n ==>
                    upvalues[i] in vars && Some(vars[upvalues[i]]) == Captured(slots, old(vars), f, captures[i])
      {
        assert Captured(slots, old(vars), f, captures[n]).Some?;
        var u := Capture(captures[n], old(vars));
        upvalues := upvalues + [u];
      }
    }

    method Capture(e: CompilerUpvalue, ghost was: map<Upvalue, nat>) returns (u: Upvalue)
      requires Valid() && frames != [] && Kept(was, vars)
      requires Captured(slots, was, frames[|frames| - 1], e).Some?
      modifies this`openUpvalues, this`open, this`vars, vars.Keys
      ensures Valid() && Kept(old(vars), vars) && fresh(vars.Keys - old(vars).Keys) && OnlyAdded(old(vars), vars, [u])
      ensures u in vars && Some(vars[u]) == Captured(slots, was, frames[|frames| - 1], e)
    {
      hide SlotsHold, UpvaluesStand, ListDescends;
      var f := frames[|frames| - 1];
      if e.isLocal {
        u := CaptureUpvalue(f.start + e.index);
        FramesGrow(frames, stack, stackTop, old(vars), stackTop, vars);
      } else {
        u := f.upvalues[e.index];
      }
    }

    /** The slots from `last` on are given up. An upvalue that stands for one of their variables keeps the value. */
    method CloseUpvalues(last: nat)
      requires Good(Abs()) && last <= |slots|
      modifies this`openUpvalues, this`open, this`slots, vars.Keys
      ensures Good(Abs()) && slots == old(slots)[..last]
    {
      hide SlotsHold, ListDescends, UpvaluesStand, IndexOf;
      ghost var was := slots;
      while openUpvalues != null && (OpenUpvalue(); openUpvalues.value.index >= last)
        invariant Good(Abs())
        invariant last <= |slots| <= |was| && slots == was[..|slots|]
        decreases |open|
      {
        CloseOne();
      }
      OpenUpvalue();
      ghost var s := Abs();
      slots := slots[..last];
      Truncate(s, Abs(), last);
    }

    /** The upvalue highest on the stack is closed: it takes over the value of its variable. */
    method CloseOne()
      requires Good(Abs()) && openUpvalues != null
      modifies this`openUpvalues, this`open, this`slots, vars.Keys
      ensures Good(Abs()) && open == old(open)[1..]
      ensures 0 <= old(IndexOf(Abs(), 0)) < |old(slots)| && slots == old(slots)[..old(IndexOf(Abs(), 0))]
    {
      OpenUpvalue();
      ghost var s := Abs();
      var u := openUpvalues;
      ghost var k := u.value.index;
      u.closed := u.value.stack[u.value.index];
      u.value := Own;
      openUpvalues := u.next;
      open, slots := open[1..], slots[..k];
      assert Nodes() == s.nodes[u := Node(Own, s.mem[k], s.nodes[u].next)];
      CloseFirst(s, Abs(), k);
    }

    /** The upvalue for slot `i`: the one there is, or a new one, linked in where the list keeps its order. */
    method CaptureUpvalue(i: nat) returns (u: Upvalue)
      requires Good(Abs()) && i < |slots|
      modifies this`openUpvalues, this`open, this`vars, vars.Keys
      ensures Good(Abs()) && vars == old(vars)[u := slots[i]]
      ensures if u in old(vars) then u in old(vars) && old(vars[u]) == slots[i] else fresh(u)
      ensures slots[i] in old(vars).Values ==> u in old(vars)
    {
      OpenUpvalue();
      if openUpvalues == null {
        u := NewUpvalue(i, null, null, 0);
        return;
      }
      var prev, upvalue, k := Walk(i);
      if upvalue != null && upvalue.value == Slot(stack, i) {
        Found(Abs(), k, i);
        assert vars == vars[upvalue := slots[i]];
        return upvalue;
      }
      u := NewUpvalue(i, prev, upvalue, k);
    }

    /** Down the list, past the upvalues above slot `i`. */
    method Walk(i: nat) returns (prev: Upvalue?, upvalue: Upvalue?, ghost k: nat)
      requires Good(Abs())
      ensures k <= |open| && upvalue == At(open, k) && prev == (if k == 0 then null else open[k - 1])
      ensures k > 0 ==> IndexOf(Abs(), k - 1) > i
      ensures upvalue != null ==> upvalue in vars && upvalue.value.Slot? && upvalue.value.stack == stack
                                  && upvalue.value.index == IndexOf(Abs(), k) <= i
    {
      OpenUpvalue();
      prev, upvalue, k := null, openUpvalues, 0;
      while upvalue != null && (OpenIndex(Abs(), k); upvalue.value.index > i)
        invariant k <= |open| && upvalue == At(open, k) && prev == (if k == 0 then null else open[k - 1])
        invariant k > 0 ==> IndexOf(Abs(), k - 1) > i
        decreases |open| - k
      {
        OpenIndex(Abs(), k);
        prev, upvalue, k := upvalue, upvalue.next, k + 1;
      }
      if upvalue != null {
        OpenIndex(Abs(), k);
      }
    }

    /** A new upvalue for slot `i`, between `prev` and `upvalue` on the list. */
    method NewUpvalue(i: nat, prev: Upvalue?, upvalue: Upvalue?, ghost k: nat) returns (u: Upvalue)
      requires Good(Abs()) && i < |slots| && k <= |open|
      requires upvalue == At(open, k) && prev == (if k == 0 then null else open[k - 1])
      requires k > 0 ==> IndexOf(Abs(), k - 1) > i
      requires k < |open| ==> IndexOf(Abs(), k) < i
      modifies this`openUpvalues, this`open, this`vars, vars.Keys
      ensures Good(Abs()) && vars == old(vars)[u := slots[i]] && fresh(u)
      ensures slots[i] !in old(vars).Values
    {
      hide SlotsHold, UpvaluesStand, Linked, IndexOf, ListDescends;
      ghost var s := Abs();
      NotFound(s, k, i);
      u := new Upvalue(Slot(stack, i));
      if prev == null {
        openUpvalues := u;
      } else {
        OpenIndex(s, k - 1);
        prev.next := u;
      }
      u.next := upvalue;
      open, vars := open[..k] + [u] + open[k..], vars[u := slots[i]];
      assert Relinked(s, Nodes(), u, i, k);
      LinkIn(s, Abs(), u, i, k);
    }

    lemma {:induction false} OpenUpvalue()
      requires Good(Abs())
      ensures |slots| <= stack.Length && (openUpvalues == null <==> open == [])
      ensures openUpvalues != null ==>
                && open[0] == openUpvalues && openUpvalues in vars && openUpvalues.value.Slot?
                && openUpvalues.value.stack == stack && openUpvalues.value.index == IndexOf(Abs(), 0) < |slots|
    {
      if open != [] {
        OpenIndex(Abs(), 0);
      }
    }
  }

  lemma {:induction false} Found(s: State, k: nat, i: nat)
    requires Good(s) && k < |s.open| && IndexOf(s, k) == i
    ensures i < |s.slots| && s.open[k] in s.vars && s.vars[s.open[k]] == s.slots[i]
  {
    OpenIndex(s, k);
    assert Stands(s, s.open[k]);
  }

  /** If the list passes slot `i` without an upvalue for it, no upvalue stands for the slot's variable. */
  lemma {:induction false} NotFound(s: State, k: nat, i: nat)
    requires Good(s) && k <= |s.open| && i < |s.slots|
    requires k > 0 ==> IndexOf(s, k - 1) > i
    requires k < |s.open| ==> IndexOf(s, k) < i
    ensures s.slots[i] !in s.vars.Values
  {
    Between(s, i, k);
    forall w | w in s.vars ensures s.vars[w] != s.slots[i] {
      assert Stands(s, w);
      if s.nodes[w].value.Slot? {
        var j :| 0 <= j < |s.open| && s.open[j] == w;
        OpenIndex(s, j);
      }
    }
  }

  lemma {:induction false} FramesGrow(frames: seq<CallFrame>, stack: array<Value>, top: nat, vars: map<Upvalue, nat>,
                                      top': nat, vars': map<Upvalue, nat>)
    requires FramesOk(frames, stack, top, vars) && top <= top' && vars.Keys <= vars'.Keys
    ensures FramesOk(frames, stack, top', vars')
  {
    forall i | 0 <= i < |frames| ensures FrameAt(frames, i, stack, top', vars') {
      assert FrameAt(frames, i, stack, top, vars);
    }
  }

  /** The last call ends. */
  lemma {:induction false} FramesLess(frames: seq<CallFrame>, stack: array<Value>, top: nat, vars: map<Upvalue, nat>,
                                      top': nat)
    requires FramesOk(frames, stack, top, vars) && frames != [] && frames[|frames| - 1].start == top'
    ensures FramesOk(frames[..|frames| - 1], stack, top', vars)
  {
    var less := frames[..|frames| - 1];
    forall i | 0 <= i < |less| ensures FrameAt(less, i, stack, top', vars) {
      assert FrameAt(frames, i, stack, top, vars);
    }
  }

  lemma {:induction false} FramesShrink(frames: seq<CallFrame>, stack: array<Value>, top: nat, vars: map<Upvalue, nat>,
                                        top': nat)
    requires FramesOk(frames, stack, top, vars) && (frames != [] ==> frames[|frames| - 1].start < top')
    ensures FramesOk(frames, stack, top', vars)
  {
    forall i | 0 <= i < |frames| ensures FrameAt(frames, i, stack, top', vars) {
      assert FrameAt(frames, i, stack, top, vars);
    }
  }

  /** No upvalue is open on the last slot when none stands for its variable. */
  lemma {:induction false} NoneOpenAt(s: State, k: nat)
    requires Good(s) && |s.slots| == k + 1 && s.slots[k] !in s.vars.Values
    ensures s.open != [] ==> IndexOf(s, 0) < k
  {
    if s.open != [] {
      OpenIndex(s, 0);
      var u := s.open[0];
      assert Stands(s, u);
      forall w | w in s.vars ensures s.vars[w] != s.slots[k] {
        assert s.vars[w] in s.vars.Values;
      }
    }
  }
}

/** The objects of the Wren virtual machine as the collector sees them. */
module Heap {
  import opened Basics
  import opened Wrappers

  /** A value holds at most one object. */
  datatype Value = Plain | Ref(a: nat)

  /** The names of variables or methods, as string objects. */
  datatype Table = Table(names: seq<nat>, capacity: nat)

  /** What an object holds. A method that is not a block holds no closure; a free slot of a map's
      entries is `None`. */
  datatype Body =
    | Class(meta: Option<nat>, superclass: Option<nat>, methods: seq<Option<nat>>, capacity: nat, name: Option<nat>,
            numFields: nat)
    | Closure(fn: nat, upvalues: seq<nat>)
    | Fiber(frames: seq<Option<nat>>, frameCapacity: nat, stack: seq<Value>, stackCapacity: nat, open: seq<nat>,
            caller: Option<nat>, error: Value)
    | Fn(constants: seq<Value>, constantCapacity: nat, codeCapacity: nat, numUpvalues: nat)
    | Foreign
    | Instance(class_: nat, fields: seq<Value>)
    | List(elements: seq<Value>, capacity: nat)
    | Map(entries: seq<Option<(Value, Value)>>)
    | Module(variables: seq<Value>, names: Table, moduleName: Option<nat>)
    | Range
    | String(length: nat)
    | Upvalue(closed: Value)

  /** An object: its contents, the collector's mark, and the next object in the list of all objects. */
  datatype Obj = Obj(body: Body, isDark: bool, next: Option<nat>)

  type Objects = map<nat, Obj>

  // ----- Edges ---------------------------------------------------------------------------------------------

  function OfOption(o: Option<nat>): seq<nat> {
    if o.Some? then [o.value] else []
  }

  function OfValue(v: Value): seq<nat> {
    if v.Ref? then [v.a] else []
  }

  function OfValues(vs: seq<Value>): seq<nat> {
    if vs == [] then [] else OfValue(vs[0]) + OfValues(vs[1..])
  }

  function OfOptions(os: seq<Option<nat>>): seq<nat> {
    if os == [] then [] else OfOption(os[0]) + OfOptions(os[1..])
  }

  function OfEntries(es: seq<Option<(Value, Value)>>): seq<nat> {
    if es == [] then []
    else OfEntry(es[0]) + OfEntries(es[1..])
  }

  function OfEntry(e: Option<(Value, Value)>): seq<nat> {
    if e.Some? then OfValue(e.value.0) + OfValue(e.value.1) else []
  }

  /** The objects that an object keeps alive, in the order the collector looks at them. */
  function Edges(b: Body): seq<nat> {
    match b
    case Class(meta, superclass, methods, _, name, _) =>
      OfOption(meta) + OfOption(superclass) + OfOptions(methods) + OfOption(name)
    case Closure(fn, upvalues) => [fn] + upvalues
    case Fiber(frames, _, stack, _, open, caller, error) =>
      OfOptions(frames) + OfValues(stack) + open + OfOption(caller) + OfValue(error)
    case Fn(constants, _, _, _) => OfValues(constants)
    case Foreign => []
    case Instance(c, fields) => [c] + OfValues(fields)
    case List(elements, _) => OfValues(elements)
    case Map(entries) => OfEntries(entries)
    case Module(variables, names, name) => OfValues(variables) + names.names + OfOption(name)
    case Range => []
    case String(_) => []
    case Upvalue(closed) => OfValue(closed)
  }

  // ----- Sizes ---------------------------------------------------------------------------------------------

  /** The sizes of the C structures. */
  datatype Sizes = Sizes(class_: nat, method_: nat, closure: nat, pointer: nat, fiber: nat, frame: nat, value: nat,
                         fn: nat, int_: nat, instance: nat, list: nat, map_: nat, entry: nat, module_: nat, range: nat,
                         string_: nat, upvalue: nat)

  function TableSize(z: Sizes, t: Table): nat { t.capacity * z.pointer }

  /** The memory an object is counted with. */
  function Size(z: Sizes, b: Body): nat {
    match b
    case Class(_, _, _, capacity, _, _) => z.class_ + capacity * z.method_
    case Closure(_, upvalues) => z.closure + z.pointer * |upvalues|
    case Fiber(_, frameCapacity, _, stackCapacity, _, _, _) =>
      z.fiber + frameCapacity * z.frame + stackCapacity * z.value
    case Fn(_, constantCapacity, codeCapacity, _) =>
      z.fn + codeCapacity + z.value * constantCapacity + z.int_ * codeCapacity
    case Foreign => 0
    case Instance(_, fields) => z.instance + z.value * |fields|
    case List(_, capacity) => z.list + z.value * capacity
    case Map(entries) => z.map_ + z.entry * |entries|
    case Module(_, names, _) => TableSize(z, names) + z.module_
    case Range => z.range
    case String(length) => z.string_ + length + 1
    case Upvalue(_) => z.upvalue
  }

  // ----- Well-formed heaps -----------------------------------------------------------------------------------

  /** A closure has as many upvalues as its function asks for, and an instance as many fields as its
      class. */
  predicate Typed(h: Objects, b: Body) {
    match b
    case Closure(fn, upvalues) => fn in h && h[fn].body.Fn? && h[fn].body.numUpvalues == |upvalues|
    case Instance(c, fields) => c in h && h[c].body.Class? && h[c].body.numFields == |fields|
    case _ => true
  }

  /** No object refers to one that is not there. */
  ghost predicate Closed(h: Objects) {
    forall a :: a in h ==> Typed(h, h[a].body) && forall x :: x in Edges(h[a].body) ==> x in h
  }

  /** The list of all objects that starts at `first` is `order`. */
  ghost predicate Linked(h: Objects, first: Option<nat>, order: seq<nat>) {
    && (forall i, j :: 0 <= i < j < |order| ==> order[i] != order[j])
    && first == Head(order, 0)
    && (forall i :: 0 <= i < |order| ==> LinkAt(h, order, i))
  }

  predicate LinkAt(h: Objects, order: seq<nat>, i: nat)
    requires i < |order|
  {
    order[i] in h && h[order[i]].next == Head(order, i + 1)
  }

  function Head(order: seq<nat>, i: nat): Option<nat> {
    if i < |order| then Some(order[i]) else None
  }

  // ----- Reachability ----------------------------------------------------------------------------------------

  /** A path from one of the roots. */
  ghost predicate Path(h: Objects, roots: seq<nat>, p: seq<nat>) {
    && p != [] && p[0] in roots
    && (forall i :: 0 <= i < |p| ==> p[i] in h)
    && (forall i :: 0 <= i < |p| - 1 ==> p[i + 1] in Edges(h[p[i]].body))
  }

  ghost predicate Reachable(h: Objects, roots: seq<nat>, a: nat) {
    exists p :: Path(h, roots, p) && p[|p| - 1] == a
  }

  // ----- The references of longer lists -----------------------------------------------------------------------

  lemma {:induction false} ValuesAppend(a: seq<Value>, v: Value)
    ensures OfValues(a + [v]) == OfValues(a) + OfValue(v)
  {
    if a == [] {
      assert [v][1..] == [];
      assert OfValue(v) + [] == OfValue(v);
    } else {
      assert (a + [v])[1..] == a[1..] + [v];
      ValuesAppend(a[1..], v);
      Assoc(OfValue(a[0]), OfValues(a[1..]), OfValue(v));
    }
  }

  lemma {:induction false} ValuesMore(vs: seq<Value>, i: nat)
    requires i < |vs|
    ensures OfValues(vs[..i + 1]) == OfValues(vs[..i]) + OfValue(vs[i])
    ensures forall x :: x in OfValue(vs[i]) ==> x in OfValues(vs)
  {
    assert vs[..i + 1] == vs[..i] + [vs[i]];
    ValuesAppend(vs[..i], vs[i]);
    ValuesIn(vs, i);
  }

  lemma {:induction false} ValuesIn(vs: seq<Value>, i: nat)
    requires i < |vs|
    ensures forall x :: x in OfValue(vs[i]) ==> x in OfValues(vs)
  {
    if i > 0 {
      ValuesIn(vs[1..], i - 1);
    }
  }

  lemma {:induction false} OptionsAppend(a: seq<Option<nat>>, o: Option<nat>)
    ensures OfOptions(a + [o]) == OfOptions(a) + OfOption(o)
  {
    if a == [] {
      assert [o][1..] == [];
      assert OfOption(o) + [] == OfOption(o);
    } else {
      assert (a + [o])[1..] == a[1..] + [o];
      OptionsAppend(a[1..], o);
      Assoc(OfOption(a[0]), OfOptions(a[1..]), OfOption(o));
    }
  }

  lemma {:induction false} OptionsMore(os: seq<Option<nat>>, i: nat)
    requires i < |os|
    ensures OfOptions(os[..i + 1]) == OfOptions(os[..i]) + OfOption(os[i])
    ensures forall x :: x in OfOption(os[i]) ==> x in OfOptions(os)
  {
    assert os[..i + 1] == os[..i] + [os[i]];
    OptionsAppend(os[..i], os[i]);
    OptionsIn(os, i);
  }

  lemma {:induction false} OptionsIn(os: seq<Option<nat>>, i: nat)
    requires i < |os|
    ensures forall x :: x in OfOption(os[i]) ==> x in OfOptions(os)
  {
    if i > 0 {
      OptionsIn(os[1..], i - 1);
    }
  }

  lemma {:induction false} EntriesAppend(a: seq<Option<(Value, Value)>>, e: Option<(Value, Value)>)
    ensures OfEntries(a + [e]) == OfEntries(a) + OfEntry(e)
  {
    if a == [] {
      assert [e][1..] == [];
      assert OfEntry(e) + [] == OfEntry(e);
    } else {
      assert (a + [e])[1..] == a[1..] + [e];
      EntriesAppend(a[1..], e);
      Assoc(OfEntry(a[0]), OfEntries(a[1..]), OfEntry(e));
    }
  }

  lemma {:induction false} EntriesMore(es: seq<Option<(Value, Value)>>, i: nat)
    requires i < |es|
    ensures OfEntries(es[..i + 1]) == OfEntries(es[..i]) + OfEntry(es[i])
    ensures forall x :: x in OfEntry(es[i]) ==> x in OfEntries(es)
  {
    assert es[..i + 1] == es[..i] + [es[i]];
    EntriesAppend(es[..i], es[i]);
    EntriesIn(es, i);
  }

  lemma {:induction false} EntriesIn(es: seq<Option<(Value, Value)>>, i: nat)
    requires i < |es|
    ensures forall x :: x in OfEntry(es[i]) ==> x in OfEntries(es)
  {
    if i > 0 {
      EntriesIn(es[1..], i - 1);
    }
  }

  // ----- Marks ---------------------------------------------------------------------------------------------

  function Darkened(h: Objects): set<nat> {
    set a | a in h && h[a].isDark
  }

  /** The same objects, however they are marked. */
  ghost predicate SameObjects(h: Objects, h': Objects) {
    h'.Keys == h.Keys && forall a :: a in h ==> h'[a].body == h[a].body && h'[a].next == h[a].next
  }
}

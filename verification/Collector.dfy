/** The mark-sweep collector. */
module Collector {
  import opened Basics
  import opened Wrappers
  import opened Heap
  import opened Marking
  import opened Sweeping
  import opened References

  /** What a compiler that is under way uses: its function, its constants, and the field names of the
      class it is in. */
  datatype Compiling = Compiling(fn: Option<nat>, constants: Option<nat>, fields: Option<Table>)

  /** Where the search starts. The parser's two tokens hold values, and compilers are listed innermost
      first. */
  datatype Roots = Roots(modules: Option<nat>, temporary: seq<nat>, fiber: Option<nat>, handles: seq<Value>,
                         tokens: seq<Value>, compilers: seq<Compiling>, methodNames: Table)

  function OfCompilers(cs: seq<Compiling>): seq<nat> {
    if cs == [] then [] else OfCompiling(cs[0]) + OfCompilers(cs[1..])
  }

  function OfCompiling(c: Compiling): seq<nat> {
    OfOption(c.fn) + OfOption(c.constants) + if c.fields.Some? then c.fields.value.names else []
  }

  /** What the compiler that is under way refers to, if there is one. */
  function CompilerRefs(r: Roots): seq<nat> {
    if r.compilers == [] then [] else OfValues(r.tokens) + OfCompilers(r.compilers)
  }

  function RootRefs(r: Roots): seq<nat> {
    OfOption(r.modules) + r.temporary + OfOption(r.fiber) + OfValues(r.handles) + CompilerRefs(r) + r.methodNames.names
  }

  // ----- What the roots refer to ------------------------------------------------------------------------------

  ghost predicate CompilerMentions(c: Compiling, x: nat) {
    c.fn == Some(x) || c.constants == Some(x) || (c.fields.Some? && Has(c.fields.value.names, x))
  }

  /** A root refers to the object. What the parser's tokens hold counts while a compiler is under way. */
  ghost predicate RootMentions(r: Roots, x: nat) {
    || r.modules == Some(x) || Has(r.temporary, x) || r.fiber == Some(x) || HasValue(r.handles, x)
    || Has(r.methodNames.names, x)
    || (r.compilers != [] && (HasValue(r.tokens, x) || exists c :: c in r.compilers && CompilerMentions(c, x)))
  }

  /** Everything that roots refer to is in the set, and everything that objects in the set refer to. */
  ghost predicate Keeps(h: Objects, r: Roots, s: set<nat>) {
    && (forall x :: RootMentions(r, x) ==> x in s)
    && (forall a, x :: a in s && a in h && Mentions(h[a].body, x) ==> x in s)
  }

  lemma {:induction false} CompilersMention(cs: seq<Compiling>, x: nat)
    ensures x in OfCompilers(cs) <==> exists c :: c in cs && CompilerMentions(c, x)
  {
    if cs != [] {
      assert cs == [cs[0]] + cs[1..];
      CompilersMention(cs[1..], x);
      assert x in OfCompiling(cs[0]) <==> CompilerMentions(cs[0], x);
    }
  }

  lemma {:induction false} RootsMention(r: Roots, x: nat)
    ensures x in RootRefs(r) <==> RootMentions(r, x)
  {
    hide OfValues, OfCompilers, CompilerMentions;
    ValuesMention(r.handles, x);
    ValuesMention(r.tokens, x);
    CompilersMention(r.compilers, x);
  }

  /** The reachable objects are the least set that keeps all that roots and objects in it refer to. */
  lemma {:induction false} ReachedKeeps(h: Objects, r: Roots, s: set<nat>)
    requires Closed(h) && (forall x :: x in RootRefs(r) ==> x in h)
    requires forall a :: a in s <==> Reachable(h, RootRefs(r), a)
    ensures Keeps(h, r, s)
    ensures forall t :: Keeps(h, r, t) ==> s <= t
  {
    hide Reachable, Edges, RootRefs, Mentions, RootMentions, Typed;
    forall x | RootMentions(r, x) ensures x in s {
      RootsMention(r, x);
      RootReached(h, RootRefs(r), x);
    }
    forall a, x | a in s && a in h && Mentions(h[a].body, x) ensures x in s {
      EdgesMention(h[a].body, x);
      ReachFurther(h, RootRefs(r), a, x);
    }
    forall t, a | Keeps(h, r, t) && a in s ensures a in t {
      ReachedIn(h, r, t, a);
    }
  }

  lemma {:induction false} RootReached(h: Objects, roots: seq<nat>, x: nat)
    requires x in roots && x in h
    ensures Reachable(h, roots, x)
  {
    assert Path(h, roots, [x]);
  }

  lemma {:induction false} ReachedIn(h: Objects, r: Roots, t: set<nat>, a: nat)
    requires Keeps(h, r, t) && Reachable(h, RootRefs(r), a)
    ensures a in t
  {
    hide RootRefs, Keeps, Edges;
    var p :| Path(h, RootRefs(r), p) && p[|p| - 1] == a;
    AlongPath(h, r, t, p, |p| - 1);
  }

  lemma {:induction false} AlongPath(h: Objects, r: Roots, t: set<nat>, p: seq<nat>, i: nat)
    requires Keeps(h, r, t) && Path(h, RootRefs(r), p) && i < |p|
    ensures p[i] in t
    decreases i
  {
    hide RootRefs, RootMentions, Edges, Mentions;
    if i == 0 {
      RootsMention(r, p[0]);
    } else {
      AlongPath(h, r, t, p, i - 1);
      EdgesMention(h[p[i - 1]].body, p[i]);
    }
  }

  // ----- The collector ----------------------------------------------------------------------------------------

  function CompilersSize(z: Sizes, cs: seq<Compiling>): nat {
    if cs == [] then 0
    else (if cs[0].fields.Some? then TableSize(z, cs[0].fields.value) else 0) + CompilersSize(z, cs[1..])
  }

  /** The symbol tables that are counted as roots. */
  function RootSize(z: Sizes, r: Roots): nat {
    CompilersSize(z, r.compilers) + TableSize(z, r.methodNames)
  }

  /** Of the objects of `h`, exactly those that can be reached are left, unchanged and unmarked. */
  ghost predicate Survive(h: Objects, h': Objects, roots: seq<nat>) {
    && (forall a :: a in h' <==> Reachable(h, roots, a))
    && (forall a :: a in h' ==> a in h && h'[a].body == h[a].body && !h'[a].isDark)
  }

  function Growth(bytes: nat, percent: nat): nat { bytes * percent / 100 }

  lemma {:induction false} GrowthIs(bytes: nat, percent: nat)
    ensures Growth(bytes, percent) == bytes * percent / 100
  {
  }

  class Collector {
    var heap: Objects
    var first: Option<nat>
    var gray: seq<nat>
    var grayCapacity: nat
    var bytesAllocated: nat
    var nextGC: nat

    const sizes: Sizes
    const heapGrowthPercent: nat
    const minHeapSize: nat

    function Marked(): Marks
      reads this`heap, this`gray
    {
      Marks(Darkened(heap), gray)
    }

    /** There is room on the gray stack for what is on it. */
    predicate Room()
      reads this`gray, this`grayCapacity
    {
      |gray| <= grayCapacity && grayCapacity >= 1
    }

    /** What looking at the references `refs` does. */
    twostate predicate Looked(new refs: seq<nat>)
      reads this
    {
      Room() && SameObjects(old(heap), heap) && Marked() == GrayAll(old(Marked()), refs)
    }

    // ----- Reaching objects ---------------------------------------------------------------------------------

    /** Marks an object and puts it on the gray stack, unless it is marked already. */
    method GrayObj(o: Option<nat>)
      requires Room() && (o.Some? ==> o.value in heap)
      modifies this`heap, this`gray, this`grayCapacity
      ensures Looked(OfOption(o))
    {
      if o.None? || heap[o.value].isDark {
        return;
      }
      var a := o.value;
      heap := heap[a := heap[a].(isDark := true)];
      if |gray| >= grayCapacity {
        grayCapacity := |gray| * 2;
      }
      gray := gray + [a];
      assert Darkened(heap) == Darkened(old(heap)) + {a};
    }

    method GrayValue(v: Value)
      requires Room() && (v.Ref? ==> v.a in heap)
      modifies this`heap, this`gray, this`grayCapacity
      ensures Looked(OfValue(v))
    {
      if v.Ref? {
        GrayObj(Some(v.a));
      }
    }

    /** A list of values: constants, elements, stack slots, fields, variables. */
    method GrayBuffer(vs: seq<Value>)
      requires Room() && forall x :: x in OfValues(vs) ==> x in heap
      modifies this`heap, this`gray, this`grayCapacity
      ensures Looked(OfValues(vs))
    {
      hide GrayAll, Darkened;
      GrayNone(Marked());
      var i := 0;
      assert vs[..0] == [];
      while i < |vs|
        invariant i <= |vs| && Looked(OfValues(vs[..i]))
      {
        ValuesMore(vs, i);
        GrayAppend(old(Marked()), OfValues(vs[..i]), OfValue(vs[i]));
        GrayValue(vs[i]);
        i := i + 1;
      }
      assert vs[..i] == vs;
    }

    method GrayObjs(os: seq<Option<nat>>)
      requires Room() && forall x :: x in OfOptions(os) ==> x in heap
      modifies this`heap, this`gray, this`grayCapacity
      ensures Looked(OfOptions(os))
    {
      hide GrayAll, Darkened;
      GrayNone(Marked());
      var i := 0;
      assert os[..0] == [];
      while i < |os|
        invariant i <= |os| && Looked(OfOptions(os[..i]))
      {
        OptionsMore(os, i);
        GrayAppend(old(Marked()), OfOptions(os[..i]), OfOption(os[i]));
        GrayObj(os[i]);
        i := i + 1;
      }
      assert os[..i] == os;
    }

    method GrayRefs(refs: seq<nat>)
      requires Room() && forall x :: x in refs ==> x in heap
      modifies this`heap, this`gray, this`grayCapacity
      ensures Looked(refs)
    {
      hide GrayAll, Darkened;
      GrayNone(Marked());
      var i := 0;
      assert refs[..0] == [];
      while i < |refs|
        invariant i <= |refs| && Looked(refs[..i])
      {
        assert refs[..i + 1] == refs[..i] + [refs[i]];
        GrayAppend(old(Marked()), refs[..i], [refs[i]]);
        GrayObj(Some(refs[i]));
        i := i + 1;
      }
      assert refs[..i] == refs;
    }

    method GrayEntries(es: seq<Option<(Value, Value)>>)
      requires Room() && forall x :: x in OfEntries(es) ==> x in heap
      modifies this`heap, this`gray, this`grayCapacity
      ensures Looked(OfEntries(es))
    {
      hide GrayAll, Darkened;
      GrayNone(Marked());
      var i := 0;
      assert es[..0] == [];
      while i < |es|
        invariant i <= |es| && Looked(OfEntries(es[..i]))
      {
        EntriesMore(es, i);
        if es[i].Some? {
          var m := OfEntries(es[..i]);
          var k, v := OfValue(es[i].value.0), OfValue(es[i].value.1);
          GrayAppend(old(Marked()), m, k);
          GrayAppend(old(Marked()), m + k, v);
          assert m + k + v == m + (k + v);
          GrayValue(es[i].value.0);
          GrayValue(es[i].value.1);
        } else {
          assert OfEntries(es[..i]) + [] == OfEntries(es[..i]);
        }
        i := i + 1;
      }
      assert es[..i] == es;
    }

    method BlackenSymbolTable(t: Table)
      requires Room() && forall x :: x in t.names ==> x in heap
      modifies this`heap, this`gray, this`grayCapacity, this`bytesAllocated
      ensures Looked(t.names) && bytesAllocated == old(bytesAllocated) + TableSize(sizes, t)
    {
      GrayRefs(t.names);
      bytesAllocated := bytesAllocated + t.capacity * sizes.pointer;
    }

    // ----- Following edges ------------------------------------------------------------------------------------

    /** What blackening an object of body `b` asks for and does. */
    predicate Ready(b: Body)
      reads this`heap, this`gray, this`grayCapacity
    {
      Room() && Typed(heap, b) && forall x :: x in Edges(b) ==> x in heap
    }

    twostate predicate Blackened(new b: Body)
      reads this
    {
      Looked(Edges(b)) && bytesAllocated == old(bytesAllocated) + Size(sizes, b)
    }

    method BlackenClass(b: Body)
      requires b.Class? && Ready(b)
      modifies this`heap, this`gray, this`grayCapacity, this`bytesAllocated
      ensures Blackened(b)
    {
      hide GrayAll, Darkened, OfValues, OfOptions;
      ghost var m := Marked();
      ghost var a, s, ms, n := OfOption(b.meta), OfOption(b.superclass), OfOptions(b.methods), OfOption(b.name);
      GrayAppend(m, a, s);
      GrayAppend(m, a + s, ms);
      GrayAppend(m, a + s + ms, n);
      GrayObj(b.meta);
      GrayObj(b.superclass);
      GrayObjs(b.methods);
      GrayObj(b.name);
      bytesAllocated := bytesAllocated + sizes.class_;
      bytesAllocated := bytesAllocated + b.capacity * sizes.method_;
    }

    method BlackenClosure(b: Body)
      requires b.Closure? && Ready(b)
      modifies this`heap, this`gray, this`grayCapacity, this`bytesAllocated
      ensures Blackened(b)
    {
      hide GrayAll, Darkened, OfValues, OfOptions;
      GrayAppend(Marked(), [b.fn], b.upvalues);
      assert b.fn in Edges(b);
      GrayObj(Some(b.fn));
      GrayRefs(b.upvalues[..heap[b.fn].body.numUpvalues]);
      assert b.upvalues[..heap[b.fn].body.numUpvalues] == b.upvalues;
      bytesAllocated := bytesAllocated + sizes.closure;
      bytesAllocated := bytesAllocated + sizes.pointer * heap[b.fn].body.numUpvalues;
    }

    method BlackenFiber(b: Body)
      requires b.Fiber? && Ready(b)
      modifies this`heap, this`gray, this`grayCapacity, this`bytesAllocated
      ensures Blackened(b)
    {
      hide GrayAll, Darkened, OfValues, OfOptions;
      ghost var m := Marked();
      ghost var fs, st, c, e := OfOptions(b.frames), OfValues(b.stack), OfOption(b.caller), OfValue(b.error);
      GrayAppend(m, fs, st);
      GrayAppend(m, fs + st, b.open);
      GrayAppend(m, fs + st + b.open, c);
      GrayAppend(m, fs + st + b.open + c, e);
      GrayObjs(b.frames);
      GrayBuffer(b.stack);
      GrayRefs(b.open);
      GrayObj(b.caller);
      GrayValue(b.error);
      bytesAllocated := bytesAllocated + sizes.fiber;
      bytesAllocated := bytesAllocated + b.frameCapacity * sizes.frame;
      bytesAllocated := bytesAllocated + b.stackCapacity * sizes.value;
    }

    method BlackenFn(b: Body)
      requires b.Fn? && Ready(b)
      modifies this`heap, this`gray, this`grayCapacity, this`bytesAllocated
      ensures Blackened(b)
    {
      GrayBuffer(b.constants);
      bytesAllocated := bytesAllocated + sizes.fn;
      bytesAllocated := bytesAllocated + b.codeCapacity;
      bytesAllocated := bytesAllocated + sizes.value * b.constantCapacity;
      bytesAllocated := bytesAllocated + sizes.int_ * b.codeCapacity;
    }

    method BlackenInstance(b: Body)
      requires b.Instance? && Ready(b)
      modifies this`heap, this`gray, this`grayCapacity, this`bytesAllocated
      ensures Blackened(b)
    {
      hide GrayAll, Darkened, OfValues, OfOptions;
      GrayAppend(Marked(), [b.class_], OfValues(b.fields));
      assert b.class_ in Edges(b);
      GrayObj(Some(b.class_));
      var n := heap[b.class_].body.numFields;
      assert b.fields[..n] == b.fields;
      GrayBuffer(b.fields[..n]);
      bytesAllocated := bytesAllocated + sizes.instance;
      bytesAllocated := bytesAllocated + sizes.value * n;
    }

    method BlackenModule(b: Body)
      requires b.Module? && Ready(b)
      modifies this`heap, this`gray, this`grayCapacity, this`bytesAllocated
      ensures Blackened(b)
    {
      hide GrayAll, Darkened, OfValues, OfOptions;
      ghost var m := Marked();
      ghost var vs, n := OfValues(b.variables), OfOption(b.moduleName);
      GrayAppend(m, vs, b.names.names);
      GrayAppend(m, vs + b.names.names, n);
      GrayBuffer(b.variables);
      BlackenSymbolTable(b.names);
      GrayObj(b.moduleName);
      bytesAllocated := bytesAllocated + sizes.module_;
    }

    /** Looks at everything an object refers to, and counts its memory. */
    method BlackenObject(a: nat)
      requires a in heap && Ready(heap[a].body)
      modifies this`heap, this`gray, this`grayCapacity, this`bytesAllocated
      ensures Blackened(old(heap)[a].body)
    {
      var b := heap[a].body;
      match b
      case Class(_, _, _, _, _, _) => BlackenClass(b);
      case Closure(_, _) => BlackenClosure(b);
      case Fiber(_, _, _, _, _, _, _) => BlackenFiber(b);
      case Fn(_, _, _, _) => BlackenFn(b);
      case Foreign =>
      case Instance(_, _) => BlackenInstance(b);
      case List(elements, capacity) =>
        GrayBuffer(elements);
        bytesAllocated := bytesAllocated + sizes.list;
        bytesAllocated := bytesAllocated + sizes.value * capacity;
      case Map(entries) =>
        GrayEntries(entries);
        bytesAllocated := bytesAllocated + sizes.map_;
        bytesAllocated := bytesAllocated + sizes.entry * |entries|;
      case Module(_, _, _) => BlackenModule(b);
      case Range => bytesAllocated := bytesAllocated + sizes.range;
      case String(length) => bytesAllocated := bytesAllocated + (sizes.string_ + length + 1);
      case Upvalue(closed) =>
        GrayValue(closed);
        bytesAllocated := bytesAllocated + sizes.upvalue;
    }

    // ----- Roots ----------------------------------------------------------------------------------------------

    method MarkCompiler(tokens: seq<Value>, cs: seq<Compiling>)
      requires Room() && (forall x :: x in OfValues(tokens) ==> x in heap) && forall x :: x in OfCompilers(cs) ==>
                 x in heap
      modifies this`heap, this`gray, this`grayCapacity, this`bytesAllocated
      ensures Looked(OfValues(tokens) + OfCompilers(cs))
      ensures bytesAllocated == old(bytesAllocated) + CompilersSize(sizes, cs)
    {
      GrayBuffer(tokens);
      ghost var m, bytes := Marked(), bytesAllocated;
      var i := 0;
      assert cs[..0] == [];
      while i < |cs|
        invariant i <= |cs| && Room() && SameObjects(old(heap), heap)
        invariant Marked() == GrayAll(m, OfCompilers(cs[..i]))
        invariant bytesAllocated == bytes + CompilersSize(sizes, cs[..i])
      {
        CompilersMore(sizes, cs, i);
        MarkOne(cs[i]);
        GrayAppend(m, OfCompilers(cs[..i]), OfCompiling(cs[i]));
        i := i + 1;
      }
      assert cs[..i] == cs;
      GrayAppend(old(Marked()), OfValues(tokens), OfCompilers(cs));
    }

    method MarkOne(c: Compiling)
      requires Room() && forall x :: x in OfCompiling(c) ==> x in heap
      modifies this`heap, this`gray, this`grayCapacity, this`bytesAllocated
      ensures Looked(OfCompiling(c))
      ensures bytesAllocated == old(bytesAllocated) + if c.fields.Some? then TableSize(sizes, c.fields.value) else 0
    {
      hide GrayAll, Darkened, OfValues, OfOptions;
      ghost var m, f, k := Marked(), OfOption(c.fn), OfOption(c.constants);
      ghost var n := if c.fields.Some? then c.fields.value.names else [];
      GrayAppend(m, f, k);
      GrayAppend(m, f + k, n);
      GrayObj(c.fn);
      GrayObj(c.constants);
      GrayNone(Marked());
      if c.fields.Some? {
        BlackenSymbolTable(c.fields.value);
      }
    }

    method GrayRoots(r: Roots)
      requires Room() && forall x :: x in RootRefs(r) ==> x in heap
      modifies this`heap, this`gray, this`grayCapacity, this`bytesAllocated
      ensures Looked(RootRefs(r)) && bytesAllocated == old(bytesAllocated) + RootSize(sizes, r)
    {
      hide GrayAll, Darkened, OfValues, OfOptions, OfCompilers;
      ghost var m, a, b, c, d, e := Marked(), OfOption(r.modules), r.temporary, OfOption(r.fiber), OfValues(r.handles),
            CompilerRefs(r);
      GrayAppend(m, a, b);
      GrayAppend(m, a + b, c);
      GrayAppend(m, a + b + c, d);
      GrayAppend(m, a + b + c + d, e);
      GrayAppend(m, a + b + c + d + e, r.methodNames.names);
      GrayObj(r.modules);
      GrayRefs(r.temporary);
      GrayObj(r.fiber);
      GrayBuffer(r.handles);
      GrayNone(Marked());
      if r.compilers != [] {
        MarkCompiler(r.tokens, r.compilers);
      }
      BlackenSymbolTable(r.methodNames);
    }

    // ----- The search -------------------------------------------------------------------------------------------

    /** Pops one object and follows its edges. Either something new is marked, or the stack gets shorter. */
    method BlackenNext(ghost h: Objects, ghost roots: seq<nat>, ghost black: seq<nat>) returns (ghost a: nat)
      requires Room() && Closed(h) && SameObjects(h, heap) && gray != []
      requires Searching(h, roots, Marked(), black)
      modifies this`heap, this`gray, this`grayCapacity, this`bytesAllocated
      ensures Room() && SameObjects(h, heap) && a in h
      ensures Searching(h, roots, Marked(), black + [a])
      ensures bytesAllocated == old(bytesAllocated) + Size(sizes, h[a].body)
      ensures Darkened(old(heap)) < Darkened(heap) || (Darkened(old(heap)) == Darkened(heap) && |gray| < |old(gray)|)
    {
      hide Searching, Closed, Darkened, Edges, GrayAll, Typed;
      var next := gray[|gray| - 1];
      a := next;
      SearchStep(h, roots, Marked(), black);
      PopReady(h, heap, a);
      gray := gray[..|gray| - 1];
      GrayProgress(Marked(), Edges(heap[a].body));
      BlackenObject(next);
    }

    /** Follows edges until the gray stack is empty. */
    method BlackenObjects(ghost roots: seq<nat>) returns (ghost black: seq<nat>)
      requires Room() && Closed(heap) && Searching(heap, roots, Marked(), [])
      modifies this`heap, this`gray, this`grayCapacity, this`bytesAllocated
      ensures Room() && SameObjects(old(heap), heap) && gray == []
      ensures forall a :: a in Darkened(heap) <==> Reachable(old(heap), roots, a)
      ensures Distinct(black) && (forall x :: x in black <==> x in Darkened(heap)) && (forall x :: x in black ==>
                x in old(heap))
      ensures bytesAllocated == old(bytesAllocated) + Sum(sizes, old(heap), black)
    {
      hide Closed, Sum, Reachable;
      ghost var h := heap;
      black := [];
      SumNone(sizes, h);
      while |gray| > 0
        invariant Room() && SameObjects(h, heap)
        invariant Searching(h, roots, Marked(), black)
        invariant forall x :: x in black ==> x in h
        invariant bytesAllocated == old(bytesAllocated) + Sum(sizes, h, black)
        decreases heap.Keys - Darkened(heap), |gray|
      {
        hide Searching, Distinct, Darkened;
        DarkInside(heap);
        ghost var a := BlackenNext(h, roots, black);
        DarkInside(heap);
        SumMore(sizes, h, black, a);
        black := black + [a];
      }
      forall a ensures a in Darkened(heap) <==> Reachable(h, roots, a) {
        SearchEnd(h, roots, Marked(), black, a);
      }
    }

    // ----- Sweeping -----------------------------------------------------------------------------------------------

    /** Removes an object from the list, by the link that leads to it, and frees it. */
    method Free(prev: Option<nat>, a: nat, ghost h: Objects, ghost order: seq<nat>, ghost i: nat, ghost kept: seq<nat>)
      requires Linked(h, Head(order, 0), order) && Swept(heap, first, h, order, i, kept) && i < |order|
               && a == order[i] && a in h && !h[a].isDark
      requires prev == Last(kept)
      modifies this`heap, this`first
      ensures Swept(heap, first, h, order, i + 1, kept)
    {
      hide Swept, Linked;
      if kept == [] {
        SweptFirst(heap, first, h, order, i);
      } else {
        SweptLater(heap, first, h, order, i, kept);
      }
      var next := heap[a].next;
      if prev.None? {
        first := next;
      } else {
        heap := heap[prev.value := heap[prev.value].(next := next)];
      }
      heap := heap - {a};
    }

    /** Unmarks an object that was reached. */
    method Keep(a: nat, ghost h: Objects, ghost order: seq<nat>, ghost i: nat, ghost kept: seq<nat>)
      requires Linked(h, Head(order, 0), order) && Swept(heap, first, h, order, i, kept) && i < |order|
               && a == order[i] && a in h && h[a].isDark
      modifies this`heap
      ensures Swept(heap, first, h, order, i + 1, kept + [a])
    {
      hide Swept, Linked;
      SweptKeep(heap, first, h, order, i, kept);
      heap := heap[a := heap[a].(isDark := false)];
    }

    /** Frees every unmarked object and unmarks the others. */
    method Sweep(ghost order: seq<nat>)
      requires Linked(heap, first, order) && forall a :: a in heap <==> a in order
      modifies this`heap, this`first
      ensures heap.Keys == Darkened(old(heap))
      ensures forall a :: a in heap ==> heap[a].body == old(heap)[a].body && !heap[a].isDark
      ensures Linked(heap, first, Survivors(old(heap), order))
    {
      hide Linked, Survivors;
      ghost var h, i, kept := heap, 0, [];
      var prev, cur := None, first;
      SweepStart(h, first, order);
      while cur.Some?
        invariant Swept(heap, first, h, order, i, kept) && cur == Head(order, i) && prev == Last(kept)
        decreases |order| - i
      {
        var a := cur.value;
        SweptHere(heap, first, h, order, i, kept);
        var next := heap[a].next;
        if !heap[a].isDark {
          Free(prev, a, h, order, i, kept);
        } else {
          Keep(a, h, order, i, kept);
          prev, kept := cur, kept + [a];
        }
        cur := next;
        i := i + 1;
      }
      assert order[i..] == [] && order[..i] == order && kept + [] == kept;
      forall a ensures a in kept <==> a in h && h[a].isDark {
        SurvivorsIn(h, order, a);
      }
    }

    // ----- A collection ---------------------------------------------------------------------------------------------

    /** Marks exactly the objects that can be reached, and counts them: `black` are those objects. */
    method Mark(r: Roots) returns (ghost marked: Objects, ghost black: seq<nat>)
      requires Room() && gray == [] && Closed(heap) && (forall a :: a in heap ==> !heap[a].isDark)
      requires forall x :: x in RootRefs(r) ==> x in heap
      modifies this`heap, this`gray, this`grayCapacity, this`bytesAllocated
      ensures Room() && gray == [] && marked == heap && SameObjects(old(heap), heap)
      ensures forall a :: a in Darkened(heap) <==> Reachable(old(heap), RootRefs(r), a)
      ensures Keeps(old(heap), r, Darkened(heap))
      ensures forall t :: Keeps(old(heap), r, t) ==> Darkened(heap) <= t
      ensures Distinct(black) && (forall x :: x in black <==> x in Darkened(heap)) && (forall x :: x in black ==>
                x in old(heap))
      ensures bytesAllocated == old(bytesAllocated) + RootSize(sizes, r) + Sum(sizes, old(heap), black)
    {
      hide Closed, Reachable, Sum, Edges, Searching, RootRefs, Distinct, RootSize, GrayAll, Keeps;
      ghost var h, roots := heap, RootRefs(r);
      NoneDark(heap);
      SearchStart(h, roots);
      GrayRoots(r);
      SearchSame(h, heap, roots, Marked());
      ClosedSame(h, heap);
      ghost var h1 := heap;
      black := BlackenObjects(roots);
      marked := heap;
      forall a ensures Reachable(h1, roots, a) <==> Reachable(h, roots, a) {
        ReachSame(h, h1, roots, a);
      }
      ReachedKeeps(h, r, Darkened(heap));
      SumSame(sizes, h, h1, black);
    }

    /** Frees exactly the objects that cannot be reached from the roots: what is left is the least set with everything
        that a root or an object in it refers to, field by field. They keep their order and are
        unmarked, the bytes in use are their sizes and those of the tables of the roots, and the next
        collection is due when they have grown by the configured percentage. */
    method CollectGarbage(r: Roots, ghost order: seq<nat>) returns (ghost kept: seq<nat>)
      requires Room() && gray == [] && Closed(heap) && (forall a :: a in heap ==> !heap[a].isDark)
      requires Linked(heap, first, order) && (forall a :: a in heap <==> a in order)
      requires forall x :: x in RootRefs(r) ==> x in heap
      modifies this
      ensures Survive(old(heap), heap, RootRefs(r))
      ensures Keeps(old(heap), r, heap.Keys)
      ensures forall t :: Keeps(old(heap), r, t) ==> heap.Keys <= t
      ensures Linked(heap, first, kept) && Sublist(kept, order) && forall a :: a in kept <==> a in heap
      ensures bytesAllocated == RootSize(sizes, r) + Sum(sizes, heap, kept)
      ensures nextGC == Max(bytesAllocated + bytesAllocated * heapGrowthPercent / 100, minHeapSize)
      ensures Room() && gray == [] && Closed(heap)
    {
      hide Linked, Closed, Reachable, Sum, Edges, Searching, RootRefs, Distinct, Growth, RootSize, Survivors, Sublist,
           GrayAll, Keeps;
      ghost var h := heap;
      bytesAllocated := 0;
      ghost var marked, black := Mark(r);
      LinkedSame(h, heap, first, order);
      Sweep(order);
      kept := Survivors(marked, order);
      SurvivorsOrdered(marked, order);
      forall a ensures a in kept <==> a in black {
        SurvivorsIn(marked, order, a);
      }
      Counted(sizes, h, heap, first, kept, black);
      NoneDangling(h, heap, RootRefs(r));
      nextGC := bytesAllocated + Growth(bytesAllocated, heapGrowthPercent);
      GrowthIs(bytesAllocated, heapGrowthPercent);
      if nextGC < minHeapSize {
        nextGC := minHeapSize;
      }
    }
  }

  /** What is left does not refer to anything that was freed. */
  lemma {:induction false} NoneDangling(h: Objects, h': Objects, roots: seq<nat>)
    requires Closed(h) && Survive(h, h', roots)
    ensures Closed(h')
  {
    hide Reachable, Edges;
    forall a | a in h' ensures Typed(h', h'[a].body) && forall x :: x in Edges(h'[a].body) ==> x in h' {
      forall x | x in Edges(h[a].body) ensures x in h' {
        ReachFurther(h, roots, a, x);
      }
      TypedAfter(h, h', h[a].body);
    }
  }

  lemma {:induction false} TypedAfter(h: Objects, h': Objects, b: Body)
    requires Typed(h, b) && forall x :: x in Edges(b) ==> x in h'
    requires forall a :: a in h' ==> a in h && h'[a].body == h[a].body
    ensures Typed(h', b)
  {
    if b.Closure? {
      assert b.fn in Edges(b);
    }
    if b.Instance? {
      assert b.class_ in Edges(b);
    }
  }

  lemma {:induction false} NoneDark(h: Objects)
    requires forall a :: a in h ==> !h[a].isDark
    ensures Darkened(h) == {}
  {
  }

  lemma {:induction false} DarkInside(h: Objects)
    ensures Darkened(h) <= h.Keys
  {
  }

  lemma {:induction false} SumNone(z: Sizes, h: Objects)
    ensures Sum(z, h, []) == 0
  {
  }

  /** Looking at references marks something or does nothing. */
  lemma {:induction false} GrayProgress(m: Marks, refs: seq<nat>)
    ensures m.dark <= GrayAll(m, refs).dark
    ensures m.dark < GrayAll(m, refs).dark || GrayAll(m, refs) == m
    decreases |refs|
  {
    if refs != [] {
      GrayProgress(Gray(m, refs[0]), refs[1..]);
    }
  }

  lemma {:induction false} PopReady(h: Objects, h': Objects, a: nat)
    requires SameObjects(h, h') && Closed(h) && a in h
    ensures a in h' && h'[a].body == h[a].body && Typed(h', h'[a].body)
    ensures forall x :: x in Edges(h'[a].body) ==> x in h'
  {
  }

  lemma {:induction false} SumMore(z: Sizes, h: Objects, black: seq<nat>, a: nat)
    requires (forall x :: x in black ==> x in h) && a in h
    ensures (forall x :: x in black + [a] ==> x in h) && Sum(z, h, black + [a]) == Sum(z, h, black) + Size(z, h[a].body)
  {
    assert (black + [a])[..|black|] == black;
  }

  lemma {:induction false} CompilersAppend(z: Sizes, a: seq<Compiling>, c: Compiling)
    ensures OfCompilers(a + [c]) == OfCompilers(a) + OfCompiling(c)
    ensures CompilersSize(z, a + [c]) == CompilersSize(z, a) + if c.fields.Some? then TableSize(z,
                                                                                                c.fields.value) else 0
  {
    hide OfCompiling, TableSize;
    if a == [] {
      assert [c][1..] == [];
      assert OfCompiling(c) + [] == OfCompiling(c);
    } else {
      assert (a + [c])[1..] == a[1..] + [c];
      CompilersAppend(z, a[1..], c);
      Assoc(OfCompiling(a[0]), OfCompilers(a[1..]), OfCompiling(c));
    }
  }

  lemma {:induction false} CompilersMore(z: Sizes, cs: seq<Compiling>, i: nat)
    requires i < |cs|
    ensures OfCompilers(cs[..i + 1]) == OfCompilers(cs[..i]) + OfCompiling(cs[i])
    ensures CompilersSize(z, cs[..i + 1])
            == CompilersSize(z, cs[..i]) + if cs[i].fields.Some? then TableSize(z, cs[i].fields.value) else 0
    ensures forall x :: x in OfCompiling(cs[i]) ==> x in OfCompilers(cs)
  {
    assert cs[..i + 1] == cs[..i] + [cs[i]];
    CompilersAppend(z, cs[..i], cs[i]);
    CompilersIn(cs, i);
  }

  lemma {:induction false} CompilersIn(cs: seq<Compiling>, i: nat)
    requires i < |cs|
    ensures forall x :: x in OfCompiling(cs[i]) ==> x in OfCompilers(cs)
  {
    if i > 0 {
      CompilersIn(cs[1..], i - 1);
    }
  }
}

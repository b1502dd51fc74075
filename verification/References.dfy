/** What an object refers to, field by field: the independent reading of the edges the collector follows. */
module References {
  import opened Wrappers
  import opened Heap

  /** Some slot of a buffer holds the object. */
  ghost predicate HasValue(vs: seq<Value>, x: nat) {
    exists i :: 0 <= i < |vs| && vs[i] == Ref(x)
  }

  ghost predicate HasPointer(ps: seq<Option<nat>>, x: nat) {
    exists i :: 0 <= i < |ps| && ps[i] == Some(x)
  }

  ghost predicate Has(refs: seq<nat>, x: nat) {
    exists i :: 0 <= i < |refs| && refs[i] == x
  }

  /** Some occupied entry of a map has the object as its key or as its value. */
  ghost predicate HasEntry(es: seq<Option<(Value, Value)>>, x: nat) {
    exists i :: 0 <= i < |es| && es[i].Some? && (es[i].value.0 == Ref(x) || es[i].value.1 == Ref(x))
  }

  /** The object has a field that refers to `x`. A foreign object, a range and a string refer to nothing. */
  ghost predicate Mentions(b: Body, x: nat) {
    match b
    case Class(meta, superclass, methods, _, name, _) =>
      meta == Some(x) || superclass == Some(x) || HasPointer(methods, x) || name == Some(x)
    case Closure(fn, upvalues) => fn == x || Has(upvalues, x)
    case Fiber(frames, _, stack, _, open, caller, error) =>
      HasPointer(frames, x) || HasValue(stack, x) || Has(open, x) || caller == Some(x) || error == Ref(x)
    case Fn(constants, _, _, _) => HasValue(constants, x)
    case Foreign => false
    case Instance(class_, fields) => class_ == x || HasValue(fields, x)
    case List(elements, _) => HasValue(elements, x)
    case Map(entries) => HasEntry(entries, x)
    case Module(variables, names, name) => HasValue(variables, x) || Has(names.names, x) || name == Some(x)
    case Range => false
    case String(_) => false
    case Upvalue(closed) => closed == Ref(x)
  }

  lemma {:induction false} ValuesMention(vs: seq<Value>, x: nat)
    ensures x in OfValues(vs) <==> HasValue(vs, x)
  {
    if vs != [] {
      assert forall i :: 0 <= i < |vs| ==> vs[i] == if i == 0 then vs[0] else vs[1..][i - 1];
      ValuesMention(vs[1..], x);
      if HasValue(vs[1..], x) {
        var i :| 0 <= i < |vs[1..]| && vs[1..][i] == Ref(x);
        assert vs[i + 1] == Ref(x);
      }
    }
  }

  lemma {:induction false} PointersMention(ps: seq<Option<nat>>, x: nat)
    ensures x in OfOptions(ps) <==> HasPointer(ps, x)
  {
    if ps != [] {
      assert forall i :: 0 <= i < |ps| ==> ps[i] == if i == 0 then ps[0] else ps[1..][i - 1];
      PointersMention(ps[1..], x);
      if HasPointer(ps[1..], x) {
        var i :| 0 <= i < |ps[1..]| && ps[1..][i] == Some(x);
        assert ps[i + 1] == Some(x);
      }
    }
  }

  lemma {:induction false} EntriesMention(es: seq<Option<(Value, Value)>>, x: nat)
    ensures x in OfEntries(es) <==> HasEntry(es, x)
  {
    if es != [] {
      assert forall i :: 0 <= i < |es| ==> es[i] == if i == 0 then es[0] else es[1..][i - 1];
      EntriesMention(es[1..], x);
      if HasEntry(es[1..], x) {
        var i :| 0 <= i < |es[1..]| && es[1..][i].Some?
                 && (es[1..][i].value.0 == Ref(x) || es[1..][i].value.1 == Ref(x));
        assert es[i + 1] == es[1..][i];
      }
    }
  }

  /** The edges of an object are what its fields refer to, for every kind of object. */
  lemma {:induction false} EdgesMention(b: Body, x: nat)
    ensures x in Edges(b) <==> Mentions(b, x)
  {
    hide OfValues, OfOptions, OfEntries;
    match b
    case Class(_, _, methods, _, _, _) => PointersMention(methods, x);
    case Closure(_, _) =>
    case Fiber(frames, _, stack, _, _, _, _) =>
      PointersMention(frames, x);
      ValuesMention(stack, x);
    case Fn(constants, _, _, _) => ValuesMention(constants, x);
    case Foreign =>
    case Instance(_, fields) => ValuesMention(fields, x);
    case List(elements, _) => ValuesMention(elements, x);
    case Map(entries) => EntriesMention(entries, x);
    case Module(variables, _, _) => ValuesMention(variables, x);
    case Range =>
    case String(_) =>
    case Upvalue(_) =>
  }

  /** No reference dangles: what the collector asks of a heap, field by field. */
  lemma {:induction false} ClosedMentions(h: Objects)
    ensures Closed(h) <==>
              && (forall a, x :: a in h && Mentions(h[a].body, x) ==> x in h)
              && (forall a :: a in h && h[a].body.Closure? ==>
                    var f := h[a].body.fn; f in h && h[f].body.Fn? && h[f].body.numUpvalues == |h[a].body.upvalues|)
              && (forall a :: a in h && h[a].body.Instance? ==>
                    var c := h[a].body.class_; c in h && h[c].body.Class? && h[c].body.numFields == |h[a].body.fields|)
  {
    hide Edges, Mentions;
    forall a, x | a in h ensures x in Edges(h[a].body) <==> Mentions(h[a].body, x) {
      EdgesMention(h[a].body, x);
    }
    if Closed(h) {
      forall a | a in h ensures Typed(h, h[a].body) {}
    }
  }
}

/** How the compiler finds the variable a name means when an enclosing function declares it. */
module Closures {
  import opened Wrappers

  datatype Local = Local(name: string, depth: int, isUpvalue: bool)

  /** One variable a function closes over: a local of the function around it, or one of that one's upvalues. */
  datatype CompilerUpvalue = CompilerUpvalue(isLocal: bool, index: nat)

  /** A function being compiled. `inClass` tells that a class body is being compiled in it, so that the functions
      directly inside are methods. */
  datatype Compiler = Compiler(locals: seq<Local>, upvalues: seq<CompilerUpvalue>, inClass: bool)

  /** A variable: local `slot` of the function at `level`. */
  datatype Variable = Variable(level: nat, slot: nat)

  datatype Discard = Popped | Closed

  // ----- What a name means ----------------------------------------------------------------------------------

  /** The innermost variable `name` around the function at `level`: the last local of that name in the nearest
      function that has one; names of methods and what is in them do not reach out of the class, except static
      fields, which begin with an underscore. */
  ghost predicate Means(cs: seq<Compiler>, level: nat, name: string, v: Variable)
    requires level < |cs| && name != []
  {
    && v.level < level
    && Declares(cs[v.level], name, v.slot)
    && (forall l :: v.level < l < level ==> Lacks(cs[l], name))
    && (name[0] != '_' ==> forall l :: v.level <= l < level ==> !cs[l].inClass)
  }

  predicate Declares(c: Compiler, name: string, i: nat) {
    && i < |c.locals| && c.locals[i].name == name
    && forall j :: i < j < |c.locals| ==> c.locals[j].name != name
  }

  predicate Lacks(c: Compiler, name: string) {
    forall i :: 0 <= i < |c.locals| ==> c.locals[i].name != name
  }

  /** A name means one variable at most. */
  lemma {:induction false} MeansOne(cs: seq<Compiler>, level: nat, name: string, v: Variable, w: Variable)
    requires level < |cs| && name != [] && Means(cs, level, name, v) && Means(cs, level, name, w)
    ensures v == w
  {
    assert !Lacks(cs[v.level], name) && !Lacks(cs[w.level], name);
  }

  /** The variable upvalue `u` of the function at `level` leads to, through the functions between. */
  function Denotes(cs: seq<Compiler>, level: nat, u: nat): (v: Option<Variable>)
    requires level < |cs|
    ensures v.Some? ==> v.value.level < level && v.value.slot < |cs[v.value.level].locals|
  {
    if level == 0 || u >= |cs[level].upvalues| then None
    else
      var e := cs[level].upvalues[u];
      if !e.isLocal then Denotes(cs, level - 1, e.index)
      else if e.index < |cs[level - 1].locals| then Some(Variable(level - 1, e.index))
      else None
  }

  // ----- The invariant --------------------------------------------------------------------------------------

  /** Upvalue `u` at `level` leads somewhere; what it captures is marked, to be closed when it goes out of scope;
      and no other upvalue of the function is the same. */
  predicate UpvalueOk(cs: seq<Compiler>, level: nat, u: nat)
    requires level < |cs| && u < |cs[level].upvalues|
  {
    var e := cs[level].upvalues[u];
    && level > 0
    && (if e.isLocal then e.index < |cs[level - 1].locals| && cs[level - 1].locals[e.index].isUpvalue
        else e.index < |cs[level - 1].upvalues|)
    && forall w :: 0 <= w < u ==> cs[level].upvalues[w] != e
  }

  ghost predicate LevelOk(cs: seq<Compiler>, level: nat)
    requires level < |cs|
  {
    && (level == 0 ==> cs[level].upvalues == [])
    && forall u :: 0 <= u < |cs[level].upvalues| ==> UpvalueOk(cs, level, u)
  }

  ghost predicate Resolved(cs: seq<Compiler>) {
    forall level :: 0 <= level < |cs| ==> LevelOk(cs, level)
  }

  lemma {:induction false} AllLead(cs: seq<Compiler>, level: nat, u: nat)
    requires Resolved(cs) && level < |cs| && u < |cs[level].upvalues|
    ensures Denotes(cs, level, u).Some?
  {
    assert LevelOk(cs, level);
    assert UpvalueOk(cs, level, u);
    if !cs[level].upvalues[u].isLocal {
      AllLead(cs, level - 1, cs[level].upvalues[u].index);
    }
  }

  /** The functions at `level` and around it may have more upvalues, and more locals that are marked. */
  ghost predicate Grown(was: seq<Compiler>, now: seq<Compiler>, level: nat) {
    && |now| == |was|
    && forall l :: 0 <= l < |was| ==> (if l <= level then GrownAt(was[l], now[l]) else now[l] == was[l])
  }

  predicate GrownAt(was: Compiler, now: Compiler) {
    && |now.locals| == |was.locals| && now.inClass == was.inClass
    && (forall i :: 0 <= i < |was.locals| ==>
          now.locals[i] == was.locals[i].(isUpvalue := now.locals[i].isUpvalue)
          && (was.locals[i].isUpvalue ==> now.locals[i].isUpvalue))
    && was.upvalues <= now.upvalues
  }

  /** What upvalues there were still lead where they led. */
  lemma {:induction false} StillDenotes(was: seq<Compiler>, now: seq<Compiler>, top: nat, level: nat, u: nat)
    requires Grown(was, now, top) && level < |was| && Denotes(was, level, u).Some?
    ensures Denotes(now, level, u) == Denotes(was, level, u)
  {
    assert level <= top ==> GrownAt(was[level], now[level]);
    assert level - 1 <= top ==> GrownAt(was[level - 1], now[level - 1]);
    if !was[level].upvalues[u].isLocal {
      StillDenotes(was, now, top, level - 1, was[level].upvalues[u].index);
    }
  }

  lemma {:induction false} GrownTwice(a: seq<Compiler>, b: seq<Compiler>, c: seq<Compiler>, m: nat, n: nat)
    requires Grown(a, b, m) && Grown(b, c, n) && m <= n
    ensures Grown(a, c, n)
  {
    forall l | 0 <= l < |a| ensures if l <= n then GrownAt(a[l], c[l]) else c[l] == a[l] {
      assert if l <= m then GrownAt(a[l], b[l]) else b[l] == a[l];
      assert if l <= n then GrownAt(b[l], c[l]) else c[l] == b[l];
    }
  }

  /** Growing changes no meanings. */
  lemma {:induction false} StillMeans(was: seq<Compiler>, now: seq<Compiler>, top: nat, level: nat, name: string,
                                      v: Variable)
    requires Grown(was, now, top) && level < |was| && name != []
    ensures Means(was, level, name, v) <==> Means(now, level, name, v)
  {
    forall l | 0 <= l < |was|
      ensures was[l].inClass == now[l].inClass && |was[l].locals| == |now[l].locals|
      ensures forall i :: 0 <= i < |was[l].locals| ==> was[l].locals[i].name == now[l].locals[i].name
    {
      assert if l <= top then GrownAt(was[l], now[l]) else now[l] == was[l];
    }
    forall l | 0 <= l < |was| ensures Lacks(was[l], name) == Lacks(now[l], name) {
    }
    if v.level < level {
      assert Declares(was[v.level], name, v.slot) == Declares(now[v.level], name, v.slot);
    }
  }

  // ----- The compilers --------------------------------------------------------------------------------------

  /** The functions being compiled, from the outermost one in. */
  class Compilers {
    var cs: seq<Compiler>

    constructor ()
      ensures cs == []
    {
      cs := [];
    }

    /** The local `name` of the function at `level`. */
    method ResolveLocal(level: nat, name: string) returns (r: Option<nat>)
      requires level < |cs|
      ensures r.None? ==> Lacks(cs[level], name)
      ensures r.Some? ==> Declares(cs[level], name, r.value)
    {
      var i := |cs[level].locals|;
      while i > 0
        invariant 0 <= i <= |cs[level].locals|
        invariant forall j :: i <= j < |cs[level].locals| ==> cs[level].locals[j].name != name
      {
        i := i - 1;
        if cs[level].locals[i].name == name {
          return Some(i);
        }
      }
      return None;
    }

    /** The upvalue of the function at `level` with these properties, which is new if there was none. */
    method AddUpvalue(level: nat, isLocal: bool, index: nat) returns (r: nat)
      requires Resolved(cs) && 0 < level < |cs|
      requires if isLocal then index < |cs[level - 1].locals| && cs[level - 1].locals[index].isUpvalue
               else index < |cs[level - 1].upvalues|
      modifies this
      ensures Resolved(cs) && Grown(old(cs), cs, level)
      ensures forall l :: 0 <= l < |cs| && l != level ==> cs[l] == old(cs)[l]
      ensures cs[level].locals == old(cs)[level].locals
      ensures r < |cs[level].upvalues| && cs[level].upvalues[r] == CompilerUpvalue(isLocal, index)
      ensures cs[level].upvalues == old(cs)[level].upvalues
              || (r == |old(cs)[level].upvalues| && |cs[level].upvalues| == r + 1)
    {
      var e := CompilerUpvalue(isLocal, index);
      for i := 0 to |cs[level].upvalues|
        invariant forall j :: 0 <= j < i ==> cs[level].upvalues[j] != e
      {
        if cs[level].upvalues[i] == e {
          return i;
        }
      }
      r := |cs[level].upvalues|;
      ghost var was := cs;
      cs := cs[level := cs[level].(upvalues := cs[level].upvalues + [e])];
      AddedOk(was, cs, level, e);
    }

    /** The upvalue of the function at `level` for `name`, if `name` is a variable of an enclosing function. */
    method FindUpvalue(level: nat, name: string) returns (r: Option<nat>)
      requires Resolved(cs) && level < |cs| && name != []
      modifies this
      ensures Resolved(cs) && Grown(old(cs), cs, level)
      ensures r.None? ==> cs == old(cs) && forall v :: !Means(cs, level, name, v)
      ensures r.Some? ==> exists v :: Means(cs, level, name, v) && Denotes(cs, level, r.value) == Some(v)
      decreases level
    {
      hide LevelOk, UpvalueOk, Lacks;
      if level == 0 {
        return None;
      }
      if name[0] != '_' && cs[level - 1].inClass {
        return None;
      }
      var local := ResolveLocal(level - 1, name);
      if local.Some? {
        ghost var was := cs;
        var c := cs[level - 1];
        cs := cs[level - 1 := c.(locals := c.locals[local.value := c.locals[local.value].(isUpvalue := true)])];
        MarkedOk(was, cs, level - 1, local.value);
        ghost var marked := cs;
        var i := AddUpvalue(level, true, local.value);
        GrownTwice(was, marked, cs, level - 1, level);
        FoundHere(was, cs, level, name, local.value, i);
        return Some(i);
      }
      ghost var was := cs;
      var upvalue := FindUpvalue(level - 1, name);
      if upvalue.None? {
        forall v ensures !Means(cs, level, name, v) {
          NotAround(cs, level, name, v);
        }
        return None;
      }
      ghost var v :| Means(cs, level - 1, name, v) && Denotes(cs, level - 1, upvalue.value) == Some(v);
      ghost var found := cs;
      var i := AddUpvalue(level, false, upvalue.value);
      GrownTwice(was, found, cs, level - 1, level);
      FoundAround(was, found, cs, level, name, upvalue.value, v, i);
      return Some(i);
    }

    /** The code that gives up the locals at `depth` or deeper: those that were captured are closed. */
    method DiscardLocals(level: nat, depth: int) returns (code: seq<Discard>)
      requires level < |cs|
      ensures |code| <= |cs[level].locals|
      ensures forall i :: 0 <= i < |code| ==> Discards(cs[level].locals, depth, i, code[i])
      ensures var n := |cs[level].locals|; |code| < n ==> cs[level].locals[n - 1 - |code|].depth < depth
    {
      code := [];
      var locals := cs[level].locals;
      var local := |locals|;
      while local > 0 && locals[local - 1].depth >= depth
        invariant 0 <= local <= |locals| && |code| == |locals| - local
        invariant forall i :: 0 <= i < |code| ==> Discards(locals, depth, i, code[i])
      {
        code := code + [if locals[local - 1].isUpvalue then Closed else Popped];
        local := local - 1;
      }
    }
  }

  /** The local `i` from the last is at `depth` or deeper, and is given up the right way. */
  predicate Discards(locals: seq<Local>, depth: int, i: nat, op: Discard)
    requires i < |locals|
  {
    var l := locals[|locals| - 1 - i];
    l.depth >= depth && (op == Closed <==> l.isUpvalue)
  }

  lemma {:induction false} FoundHere(was: seq<Compiler>, now: seq<Compiler>, level: nat, name: string, i: nat, r: nat)
    requires Grown(was, now, level) && 0 < level < |was| && name != []
    requires Declares(was[level - 1], name, i) && (name[0] == '_' || !was[level - 1].inClass)
    requires r < |now[level].upvalues| && now[level].upvalues[r] == CompilerUpvalue(true, i)
    ensures Means(now, level, name, Variable(level - 1, i)) && Denotes(now, level, r) == Some(Variable(level - 1, i))
  {
    assert GrownAt(was[level - 1], now[level - 1]);
    assert Means(was, level, name, Variable(level - 1, i));
    StillMeans(was, now, level, level, name, Variable(level - 1, i));
  }

  lemma {:induction false} FoundAround(was: seq<Compiler>, found: seq<Compiler>, now: seq<Compiler>, level: nat,
                                       name: string,
                                       u: nat, v: Variable, r: nat)
    requires 0 < level < |was| && name != [] && Grown(was, now, level) && Grown(found, now, level)
    requires Lacks(was[level - 1], name) && (name[0] == '_' || !was[level - 1].inClass)
    requires Means(found, level - 1, name, v) && Denotes(found, level - 1, u) == Some(v)
    requires r < |now[level].upvalues| && now[level].upvalues[r] == CompilerUpvalue(false, u)
    ensures Means(now, level, name, v) && Denotes(now, level, r) == Some(v)
  {
    StillMeans(found, now, level, level - 1, name, v);
    StillDenotes(found, now, level, level - 1, u);
    StillLacks(was, now, level, level - 1, name);
    assert GrownAt(was[level - 1], now[level - 1]);
  }

  lemma {:induction false} NotAround(cs: seq<Compiler>, level: nat, name: string, v: Variable)
    requires 0 < level < |cs| && name != []
    requires Lacks(cs[level - 1], name) && !Means(cs, level - 1, name, v)
    ensures !Means(cs, level, name, v)
  {
  }

  lemma {:induction false} StillLacks(was: seq<Compiler>, now: seq<Compiler>, top: nat, level: nat, name: string)
    requires Grown(was, now, top) && level < |was|
    ensures Lacks(was[level], name) <==> Lacks(now[level], name)
  {
    assert if level <= top then GrownAt(was[level], now[level]) else now[level] == was[level];
    forall i | 0 <= i < |was[level].locals| ensures was[level].locals[i].name == now[level].locals[i].name {
    }
  }

  lemma {:induction false} AddedOk(was: seq<Compiler>, now: seq<Compiler>, level: nat, e: CompilerUpvalue)
    requires Resolved(was) && 0 < level < |was| && e !in was[level].upvalues
    requires now == was[level := was[level].(upvalues := was[level].upvalues + [e])]
    requires if e.isLocal then e.index < |was[level - 1].locals| && was[level - 1].locals[e.index].isUpvalue
             else e.index < |was[level - 1].upvalues|
    ensures Resolved(now) && Grown(was, now, level)
  {
    forall l | 0 <= l < |now| ensures LevelOk(now, l) {
      assert LevelOk(was, l);
      forall u | 0 <= u < |now[l].upvalues| ensures UpvalueOk(now, l, u) {
        if u < |was[l].upvalues| {
          assert UpvalueOk(was, l, u);
        }
      }
    }
  }

  lemma {:induction false} MarkedOk(was: seq<Compiler>, now: seq<Compiler>, level: nat, i: nat)
    requires Resolved(was) && level < |was| && i < |was[level].locals|
    requires now ==
        was[level := was[level].(locals := was[level].locals[i := was[level].locals[i].(isUpvalue := true)])]
    ensures Resolved(now) && Grown(was, now, level)
  {
    forall l | 0 <= l < |now| ensures LevelOk(now, l) {
      assert LevelOk(was, l);
      forall u | 0 <= u < |now[l].upvalues| ensures UpvalueOk(now, l, u) {
        assert UpvalueOk(was, l, u);
      }
    }
  }
}

/** The machine does what programs of functions within functions mean. */
module FunctionSimulation {
  import opened Basics
  import opened Wrappers
  import opened FunctionSyntax
  import opened Closures
  import opened Functions
  import opened Outlines
  import opened FunctionMeaning
  import opened OwnLocals
  import M = FunctionMachine

  // ----- Scopes and shapes ----------------------------------------------------------------------------------

  /** The variables of memory location by location, as the machine has them. */
  type Places = seq<nat>

  function NamesOf(scope: seq<Binding>): (names: seq<string>)
    ensures |names| == |scope|
  {
    seq(|scope|, i requires 0 <= i < |scope| => scope[i].name)
  }

  /** The slots of a function have these names, and temporaries above them. */
  ghost predicate ScopeFits(shape: Shape, scope: seq<Binding>) {
    |scope| <= |shape| && forall i :: 0 <= i < |shape| ==>
      shape[i] == if i < |scope| then Some(scope[i].name) else None
  }

  ghost predicate AroundFits(around: seq<Shape>, env: Env) {
    |around| == |env| && forall l :: 0 <= l < |env| ==> ScopeFits(around[l], env[l])
  }

  predicate Within(v: Variable, env: Env, places: Places) {
    v.level < |env| && v.slot < |env[v.level]| && env[v.level][v.slot].loc < |places|
  }

  /** A closure's upvalues are the variables they denote. */
  ghost predicate UpvaluesFit(f: Function, upvalues: seq<nat>, env: Env, places: Places) {
    && |upvalues| == |f.upvalues| == |f.denotes|
    && forall u :: 0 <= u < |upvalues| ==>
         Within(f.denotes[u], env, places)
           && upvalues[u] == places[env[f.denotes[u].level][f.denotes[u].slot].loc]
  }

  ghost predicate InPlaces(scope: seq<Binding>, places: Places) {
    forall i :: 0 <= i < |scope| ==> scope[i].loc < |places|
  }

  ghost predicate EnvIn(env: Env, places: Places) {
    forall l :: 0 <= l < |env| ==> InPlaces(env[l], places)
  }

  // ----- Code -----------------------------------------------------------------------------------------------

  /** Function `g` is compiled from this one, `f` functions having been finished before. */
  ghost predicate CompiledFrom(fns: seq<Function>, g: nat, params: seq<string>, body: seq<Definition>, f: nat) {
    && g < |fns|
    && var code := OfFunction(params, body, f, ShapesOf(fns[g].outer));
       f + |code| == g + 1 && OutlinesOf(fns)[f..g + 1] == code
  }

  ghost predicate IsFunction(fns: seq<Function>, g: nat, params: seq<string>, body: seq<Definition>) {
    exists f :: CompiledFrom(fns, g, params, body, f)
  }

  function PointOf(f: Function, p: nat): Point
    requires p < |f.code|
  {
    PointAt(f.code, f.names, f.kinds, {}, p)
  }

  /** Jumps without a target lead to `end`, if there is one. */
  function Closed(p: Point, end: Option<nat>): Point {
    if end.Some? then Filled(p, end.value) else p
  }

  ghost predicate PointsAt(g: Function, pc: nat, points: seq<Point>, end: Option<nat>) {
    && pc + |points| <= |g.code|
    && forall i :: 0 <= i < |points| ==> PointOf(g, pc + i) == Closed(points[i], end)
  }

  ghost predicate FnsAt(fns: seq<Function>, f: nat, outlines: seq<Outline>) {
    f + |outlines| <= |fns| && OutlinesOf(fns)[f..f + |outlines|] == outlines
  }

  /** This code is in function `g` from `pc` on, and the functions finished with it are there from `f` on. */
  ghost predicate CodeAt(fns: seq<Function>, g: nat, pc: nat, c: Code, f: nat, end: Option<nat>) {
    g < |fns| && PointsAt(fns[g], pc, c.points, end) && FnsAt(fns, f, c.fns)
  }

  lemma {:induction false} PointsSplit(g: Function, pc: nat, a: seq<Point>, b: seq<Point>, end: Option<nat>)
    requires PointsAt(g, pc, a + b, end)
    ensures PointsAt(g, pc, a, end) && PointsAt(g, pc + |a|, b, end)
  {
    forall i | 0 <= i < |a| ensures PointOf(g, pc + i) == Closed(a[i], end) {
      assert (a + b)[i] == a[i];
    }
    forall i | 0 <= i < |b| ensures PointOf(g, pc + |a| + i) == Closed(b[i], end) {
      var j := |a| + i;
      assert (a + b)[j] == b[i];
      assert PointOf(g, pc + j) == Closed((a + b)[j], end);
    }
  }

  lemma {:induction false} OnlyPoint(g: Function, pc: nat, p: Point, end: Option<nat>)
    requires PointsAt(g, pc, [p], end)
    ensures pc < |g.code| && PointOf(g, pc) == Closed(p, end)
  {
    assert PointOf(g, pc + 0) == Closed([p][0], end);
  }

  lemma {:induction false} FnsSplit(fns: seq<Function>, f: nat, a: seq<Outline>, b: seq<Outline>)
    requires FnsAt(fns, f, a + b)
    ensures FnsAt(fns, f, a) && FnsAt(fns, f + |a|, b)
  {
    var q := OutlinesOf(fns);
    var n := f + |a| + |b|;
    assert q[f..n] == a + b;
    assert q[f..f + |a|] == q[f..n][..|a|] == a;
    assert q[f + |a|..n] == q[f..n][|a|..] == b;
  }

  lemma {:induction false} CodeSplit(fns: seq<Function>, g: nat, pc: nat, a: Code, b: Code, f: nat, end: Option<nat>)
    requires CodeAt(fns, g, pc, Plus(a, b), f, end)
    ensures CodeAt(fns, g, pc, a, f, end) && CodeAt(fns, g, pc + |a.points|, b, f + |a.fns|, end)
  {
    PointsSplit(fns[g], pc, a.points, b.points, end);
    FnsSplit(fns, f, a.fns, b.fns);
  }

  // ----- The relation between memory and the machine --------------------------------------------------------

  /** A closure in memory and one of the machine. */
  ghost predicate ClosureFits(fns: seq<Function>, places: Places, c: Made, k: M.ClosureObject) {
    && k.fn < |fns| && IsFunction(fns, k.fn, c.params, c.body)
    && AroundFits(ShapesOf(fns[k.fn].outer), c.env) && EnvIn(c.env, places)
    && UpvaluesFit(fns[k.fn], k.upvalues, c.env, places)
  }

  ghost predicate CellsFit(places: Places, w: World, s: M.State) {
    && |places| == |w.cells|
    && (forall l :: 0 <= l < |places| ==> places[l] < |s.cells| && s.cells[places[l]] == w.cells[l])
    && (forall k, l :: 0 <= k < l < |places| ==> places[k] != places[l])
  }

  ghost predicate ClosuresFit(fns: seq<Function>, places: Places, w: World, s: M.State) {
    && |w.closures| == |s.closures|
    && forall i :: 0 <= i < |w.closures| ==> ClosureFits(fns, places, w.closures[i], s.closures[i])
  }

  /** The machine's variables and closures are those of memory. */
  ghost predicate Related(fns: seq<Function>, places: Places, w: World, s: M.State) {
    CellsFit(places, w, s) && ClosuresFit(fns, places, w, s)
  }

  /** The running function's slots are the variables in scope. */
  ghost predicate FrameFits(fns: seq<Function>, places: Places, env: Env, a: M.Frame, slots: seq<nat>) {
    && env != [] && a.fn < |fns| && FunctionOk(fns, fns[a.fn]) && EnvIn(env, places)
    && AroundFits(ShapesOf(fns[a.fn].outer), env[..|env| - 1])
    && UpvaluesFit(fns[a.fn], a.upvalues, env[..|env| - 1], places)
    && SlotsFit(places, env[|env| - 1], a.start, slots)
  }

  ghost predicate SlotsFit(places: Places, scope: seq<Binding>, start: nat, slots: seq<nat>) {
    && start + |scope| <= |slots|
    && forall i :: 0 <= i < |scope| ==> scope[i].loc < |places| && slots[start + i] == places[scope[i].loc]
  }

  /** From `s` to `s'` variables may have been added, and those of memory may have changed; no others have. */
  ghost predicate Effect(places: Places, s: M.State, places': Places, s': M.State) {
    && places <= places' && |s.cells| <= |s'.cells|
    && (forall l :: |places| <= l < |places'| ==> places'[l] >= |s.cells|)
    && forall x :: 0 <= x < |s.cells| && x !in places ==> s'.cells[x] == s.cells[x]
  }

  lemma {:induction false} NotAmong(places: Places, s: M.State, places': Places, s': M.State, x: nat)
    requires Effect(places, s, places', s') && x < |s.cells| && x !in places
    ensures x !in places'
  {
    forall l | 0 <= l < |places'| ensures places'[l] != x {
      if l < |places| {
        assert places'[l] == places[l];
      }
    }
  }

  lemma {:induction false} EffectOn(places: Places, s: M.State, places1: Places, s1: M.State, places2: Places,
                                    s2: M.State)
    requires Effect(places, s, places1, s1) && Effect(places1, s1, places2, s2)
    ensures Effect(places, s, places2, s2)
  {
    forall l | |places| <= l < |places2| ensures places2[l] >= |s.cells| {
      if l < |places1| {
        assert places2[l] == places1[l];
      }
    }
    forall x | 0 <= x < |s.cells| && x !in places ensures s2.cells[x] == s.cells[x] {
      NotAmong(places, s, places1, s1, x);
    }
  }

  lemma {:induction false} NoEffect(places: Places, s: M.State, s': M.State)
    requires s.cells <= s'.cells
    ensures Effect(places, s, places, s')
  {
  }

  /** A variable that is not one of memory stays apart from it. */
  lemma {:induction false} StaysApart(places: Places, s: M.State, places': Places, s': M.State, x: nat)
    requires Effect(places, s, places', s') && x < |s.cells| && x !in places
    ensures x !in places' && s'.cells[x] == s.cells[x]
  {
    NotAmong(places, s, places', s', x);
  }

  // ----- The relation holds on ------------------------------------------------------------------------------

  lemma {:induction false} UpvaluesMore(f: Function, upvalues: seq<nat>, env: Env, places: Places, places': Places)
    requires UpvaluesFit(f, upvalues, env, places) && places <= places'
    ensures UpvaluesFit(f, upvalues, env, places')
  {
  }

  lemma {:induction false} EnvMore(env: Env, places: Places, places': Places)
    requires EnvIn(env, places) && |places| <= |places'|
    ensures EnvIn(env, places')
  {
    forall l | 0 <= l < |env| ensures InPlaces(env[l], places') {
      assert InPlaces(env[l], places);
    }
  }

  /** Closures fit when there are more variables. */
  lemma {:induction false} ClosuresMore(fns: seq<Function>, places: Places, places': Places, w: World, w': World,
                                        s: M.State, s': M.State)
    requires ClosuresFit(fns, places, w, s) && places <= places'
    requires w'.closures == w.closures && s'.closures == s.closures
    ensures ClosuresFit(fns, places', w', s')
  {
    hide IsFunction, AroundFits;
    forall i | 0 <= i < |w.closures| ensures ClosureFits(fns, places', w.closures[i], s.closures[i]) {
      assert ClosureFits(fns, places, w.closures[i], s.closures[i]);
      EnvMore(w.closures[i].env, places, places');
      UpvaluesMore(fns[s.closures[i].fn], s.closures[i].upvalues, w.closures[i].env, places, places');
    }
  }

  /** The frame fits with more variables, and more slots above its own. */
  lemma {:induction false} FrameMore(fns: seq<Function>, places: Places, places': Places, env: Env, a: M.Frame,
                                     b: M.Frame, slots: seq<nat>, slots': seq<nat>)
    requires FrameFits(fns, places, env, a, slots) && places <= places' && b == a.(pc := b.pc)
    requires a.start + |env[|env| - 1]| <= |slots'|
    requires slots'[..a.start + |env[|env| - 1]|] == slots[..a.start + |env[|env| - 1]|]
    ensures FrameFits(fns, places', env, b, slots')
  {
    hide AroundFits, FunctionOk;
    EnvMore(env, places, places');
    UpvaluesMore(fns[a.fn], a.upvalues, env[..|env| - 1], places, places');
    var scope := env[|env| - 1];
    forall i | 0 <= i < |scope|
      ensures scope[i].loc < |places'| && slots'[a.start + i] == places'[scope[i].loc]
    {
      assert slots'[..a.start + |scope|][a.start + i] == slots[..a.start + |scope|][a.start + i];
    }
  }

  // ----- Names ----------------------------------------------------------------------------------------------

  lemma {:induction false} LastIs(scope: seq<Binding>, x: string, k: nat)
    requires k < |scope| && scope[k].name == x && forall j :: k < j < |scope| ==> scope[j].name != x
    ensures LastOf(scope, x) == Some(k)
  {
  }

  lemma {:induction false} LastNone(scope: seq<Binding>, x: string)
    requires forall j :: 0 <= j < |scope| ==> scope[j].name != x
    ensures LastOf(scope, x) == None
  {
  }

  /** The last local of that name in slots that have these names. */
  lemma {:induction false} InnermostIs(k: Kinds, scope: seq<Binding>, x: string, i: nat)
    requires ScopeFits(ShapeOf(k), scope) && Innermost(k, x, i)
    ensures LastOf(scope, x) == Some(i)
  {
    var shape := ShapeOf(k);
    assert shape[i] == Some(x);
    forall j | i < j < |scope| ensures scope[j].name != x {
      assert shape[j] == Some(scope[j].name);
    }
    LastIs(scope, x, i);
  }

  lemma {:induction false} NotInIs(k: Kinds, scope: seq<Binding>, x: string)
    requires ScopeFits(ShapeOf(k), scope) && NotIn(k, x)
    ensures LastOf(scope, x) == None
  {
    var shape := ShapeOf(k);
    forall j | 0 <= j < |scope| ensures scope[j].name != x {
      assert shape[j] == Some(scope[j].name);
    }
    LastNone(scope, x);
  }

  /** What a name means around a function. */
  lemma {:induction false} LookupAround(outer: seq<Kinds>, env: Env, x: string, v: Variable)
    requires AroundFits(ShapesOf(outer), env) && MeansAround(outer, x, v)
    ensures v.level < |env| && v.slot < |env[v.level]| && Lookup(env, x) == Some(env[v.level][v.slot].loc)
    decreases |env|
  {
    var t := |env| - 1;
    assert |ShapesOf(outer)| == |outer|;
    assert ShapesOf(outer)[t] == ShapeOf(outer[t]) && ScopeFits(ShapesOf(outer)[t], env[t]);
    if v.level == t {
      InnermostIs(outer[t], env[t], x, v.slot);
    } else {
      NotInIs(outer[t], env[t], x);
      AroundLess(outer, env);
      LookupAround(outer[..t], env[..t], x, v);
    }
  }

  lemma {:induction false} AroundLess(outer: seq<Kinds>, env: Env)
    requires AroundFits(ShapesOf(outer), env) && env != []
    ensures AroundFits(ShapesOf(outer[..|env| - 1]), env[..|env| - 1])
  {
    var n := |env| - 1;
    forall l | 0 <= l < n ensures ScopeFits(ShapesOf(outer[..n])[l], env[..n][l]) {
      assert ScopeFits(ShapesOf(outer)[l], env[l]);
    }
  }

  lemma {:induction false} OwnScope(scope: seq<Binding>, t: nat)
    ensures ScopeFits(Scope(NamesOf(scope), t), scope)
  {
  }

  // ----- The running function -------------------------------------------------------------------------------

  /** The machine runs a function that has these variables in scope, at this place of the program. */
  ghost predicate Going(fns: seq<Function>, places: Places, s: M.State, env: Env, w: World, at: Site) {
    && s.status == M.Running && s.frames != [] && FrameFits(fns, places, env, M.Top(s), s.slots)
    && Related(fns, places, w, s)
    && at == Site(ShapesOf(fns[M.Top(s).fn].outer), NamesOf(env[|env| - 1]))
  }

  lemma {:induction false} StillRuns(fns: seq<Function>, places: Places, s: M.State, env: Env, w: World, at: Site)
    requires Going(fns, places, s, env, w, at)
    ensures s.status == M.Running && s.frames != [] && M.Top(s).fn < |fns| && M.Top(s).start <= |s.slots|
    ensures Related(fns, places, w, s) && env != []
  {
  }

  function VariableOf(s: M.State, i: Instr): Option<nat>
    requires s.frames != []
  {
    match i
    case LoadLocal(k) => M.SlotVar(s, k)
    case StoreLocal(k) => M.SlotVar(s, k)
    case LoadUpvalue(u) => M.UpvalueVar(s, u)
    case StoreUpvalue(u) => M.UpvalueVar(s, u)
    case _ => None
  }

  /** An instruction that looks a name up uses the variable that the name means. */
  lemma {:induction false} NameIs(fns: seq<Function>, places: Places, s: M.State, env: Env, w: World, at: Site,
                                  x: string, t: nat)
    requires Going(fns, places, s, env, w, at) && M.Top(s).pc < |fns[M.Top(s).fn].code|
    requires var p := PointOf(fns[M.Top(s).fn], M.Top(s).pc);
             (p.mark == Read(x) || p.mark == Write(x)) && p.slots == Scope(at.names, t)
    ensures var i := fns[M.Top(s).fn].code[M.Top(s).pc];
            && (i.LoadLocal? || i.LoadUpvalue? || i.StoreLocal? || i.StoreUpvalue?)
            && (PointOf(fns[M.Top(s).fn], M.Top(s).pc).mark.Read? <==> i.LoadLocal? || i.LoadUpvalue?)
            && Lookup(env, x).Some? && Lookup(env, x).value < |places|
            && VariableOf(s, i) == Some(places[Lookup(env, x).value])
  {
    hide FunctionOk, Related, ScopeFits, AroundFits, UpvaluesFit, Innermost, NotIn, MeansAround, ShapeOf, Scope,
         NameOk;
    var a := M.Top(s);
    var f := fns[a.fn];
    var scope := env[|env| - 1];
    NameFacts(fns, f, a.pc);
    OwnScope(scope, t);
    assert NameOk(f.code[a.pc], f.kinds[a.pc], f.outer, f.denotes, x);
    NameCases(f.code[a.pc], f.kinds[a.pc], f.outer, f.denotes, x);
    match f.code[a.pc]
    case LoadLocal(k) => LocalIs(places, env, f.kinds[a.pc], x, k);
    case StoreLocal(k) => LocalIs(places, env, f.kinds[a.pc], x, k);
    case LoadUpvalue(u) => UpvalueIs(f, a.upvalues, env, places, f.kinds[a.pc], x, u);
    case StoreUpvalue(u) => UpvalueIs(f, a.upvalues, env, places, f.kinds[a.pc], x, u);
    case _ =>
  }

  lemma {:induction false} NameFacts(fns: seq<Function>, f: Function, p: nat)
    requires FunctionOk(fns, f) && p < |f.code|
    ensures |f.kinds| == |f.code| == |f.names| && NameOk(f.code[p], f.kinds[p], f.outer, f.denotes, f.names[p])
    ensures PointOf(f, p) == Point(MarkOf(f.code[p], f.names[p], false), ShapeOf(f.kinds[p]))
  {
  }

  lemma {:induction false} NameCases(i: Instr, k: Kinds, outer: seq<Kinds>, denotes: seq<Variable>, x: string)
    requires NameOk(i, k, outer, denotes, x)
    ensures i.LoadLocal? || i.StoreLocal? ==> Innermost(k, x, i.slot)
    ensures i.LoadUpvalue? || i.StoreUpvalue? ==>
              i.index < |denotes| && NotIn(k, x) && MeansAround(outer, x, denotes[i.index])
  {
  }

  lemma {:induction false} LocalIs(places: Places, env: Env, k: Kinds, x: string, i: nat)
    requires env != [] && ScopeFits(ShapeOf(k), env[|env| - 1]) && Innermost(k, x, i)
    ensures i < |env[|env| - 1]| && Lookup(env, x) == Some(env[|env| - 1][i].loc)
  {
    InnermostIs(k, env[|env| - 1], x, i);
  }

  lemma {:induction false} UpvalueIs(f: Function, upvalues: seq<nat>, env: Env, places: Places, k: Kinds, x: string,
                                     u: nat)
    requires env != [] && ScopeFits(ShapeOf(k), env[|env| - 1]) && NotIn(k, x) && u < |f.denotes|
    requires AroundFits(ShapesOf(f.outer), env[..|env| - 1]) && MeansAround(f.outer, x, f.denotes[u])
    requires UpvaluesFit(f, upvalues, env[..|env| - 1], places)
    ensures u < |upvalues| && Lookup(env, x).Some? && Lookup(env, x).value < |places|
    ensures upvalues[u] == places[Lookup(env, x).value]
  {
    NotInIs(k, env[|env| - 1], x);
    LookupAround(f.outer, env[..|env| - 1], x, f.denotes[u]);
  }

  // ----- What the machine shows of an answer ----------------------------------------------------------------

  /** The machine has gone on by `len` instructions, with the value in a new variable `x` above the slots there were. */
  ghost predicate Valued(fns: seq<Function>, places: Places, s: M.State, len: nat, places': Places, s': M.State, x: nat,
                         v: Value, w': World)
    requires s.frames != []
  {
    && s' == M.Goto(s, M.Top(s).pc + len).(slots := s.slots + [x], cells := s'.cells, closures := s'.closures,
                                           captured := s'.captured)
    && Related(fns, places', w', s') && Effect(places, s, places', s')
    && |s.cells| <= x < |s'.cells| && x !in places' && s'.cells[x] == v
  }

  /** The machine stops, comes to a call that shifts, or is still running after as many steps as there was fuel. */
  ghost predicate Stops(fns: seq<Function>, s: M.State, n: nat, a: Answer, fuel: nat) {
    var s' := M.Follow(fns, s, n);
    match a
    case Val(_, _) => false
    case Err => s'.status == M.Failed
    case Surplus => M.Shifts(fns, s')
    case OutOfFuel => !M.Halted(fns, s') && n >= fuel
  }

  ghost predicate Answered(fns: seq<Function>, places: Places, s: M.State, len: nat, a: Answer, fuel: nat, n: nat,
                           places': Places, x: nat)
    requires s.frames != []
  {
    if a.Val? then Valued(fns, places, s, len, places', M.Follow(fns, s, n), x, a.v, a.w) else Stops(fns, s, n, a, fuel)
  }

  lemma {:induction false} StopsAfter(fns: seq<Function>, s: M.State, k: nat, n: nat, a: Answer, fuel: nat, fuel': nat)
    requires Stops(fns, M.Follow(fns, s, k), n, a, fuel) && fuel' <= fuel + k
    ensures Stops(fns, s, k + n, a, fuel')
  {
    M.FollowAppend(fns, s, k, n);
  }

  // ----- Single steps ---------------------------------------------------------------------------------------

  lemma {:induction false} OneStep(fns: seq<Function>, s: M.State)
    requires s.status == M.Running && (M.Ready(fns, s) ==> !M.Next(fns, s).Call?)
    ensures M.Follow(fns, s, 1) == M.Step(fns, s) && !M.Shifts(fns, s)
  {
    M.FollowOne(fns, s);
  }

  /** A value is pushed. */
  lemma {:induction false} PushVal(fns: seq<Function>, places: Places, s: M.State, w: World, v: Value)
    requires s.frames != [] && Related(fns, places, w, s)
    ensures Valued(fns, places, s, 1, places, M.Pushed(s, v), |s.cells|, v, w)
  {
    hide ClosureFits;
    var s' := M.Pushed(s, v);
    NoEffect(places, s, s');
    ClosuresMore(fns, places, places, w, w, s, s');
  }

  /** After a value all goes on as before. */
  lemma {:induction false} GoesOn(fns: seq<Function>, places: Places, s: M.State, len: nat, places': Places,
                                  s': M.State, x: nat, v: Value, env: Env, w: World, w': World, at: Site)
    requires Going(fns, places, s, env, w, at) && Valued(fns, places, s, len, places', s', x, v, w')
    ensures Going(fns, places', s', env, w', at)
  {
    hide Related, FrameFits;
    SlotsThere(fns, places, s, env);
    FrameMore(fns, places, places', env, M.Top(s), M.Top(s'), s.slots, s'.slots);
  }

  lemma {:induction false} SlotsThere(fns: seq<Function>, places: Places, s: M.State, env: Env)
    requires s.frames != [] && FrameFits(fns, places, env, M.Top(s), s.slots)
    ensures env != [] && M.Top(s).start + |env[|env| - 1]| <= |s.slots|
    ensures forall x, n :: n == M.Top(s).start + |env[|env| - 1]| ==> (s.slots + [x])[..n] == s.slots[..n]
  {
  }

  lemma {:induction false} ConstantSim(fns: seq<Function>, places: Places, s: M.State, env: Env, w: World, at: Site,
                                       v: Literal, t: nat, f: nat, end: Option<nat>)
    requires Going(fns, places, s, env, w, at) && CodeAt(fns, M.Top(s).fn, M.Top(s).pc, Here(Push(v), at, t), f, end)
    ensures Valued(fns, places, s, 1, places, M.Follow(fns, s, 1), |s.cells|, v, w)
  {
    hide Related, FrameFits;
    Fetch(fns, M.Top(s).fn, M.Top(s).pc, Here(Push(v), at, t), f, end, 0);
    OneStep(fns, s);
    PushVal(fns, places, s, w, v);
  }

  lemma {:induction false} Fetch(fns: seq<Function>, g: nat, pc: nat, c: Code, f: nat, end: Option<nat>, i: nat)
    requires CodeAt(fns, g, pc, c, f, end) && i < |c.points|
    ensures g < |fns| && pc + i < |fns[g].code| && PointOf(fns[g], pc + i) == Closed(c.points[i], end)
  {
  }

  lemma {:induction false} NameSim(fns: seq<Function>, places: Places, s: M.State, env: Env, w: World, at: Site,
                                   x: string, t: nat, f: nat, end: Option<nat>)
    requires Going(fns, places, s, env, w, at) && CodeAt(fns, M.Top(s).fn, M.Top(s).pc, Here(Read(x), at, t), f, end)
    ensures Lookup(env, x).Some?
    ensures Valued(fns, places, s, 1, places, M.Follow(fns, s, 1), |s.cells|, Get(w, Lookup(env, x).value), w)
  {
    Fetch(fns, M.Top(s).fn, M.Top(s).pc, Here(Read(x), at, t), f, end, 0);
    NameIs(fns, places, s, env, w, at, x, t);
    hide FrameFits, ClosuresFit;
    OneStep(fns, s);
    var y := places[Lookup(env, x).value];
    assert M.Step(fns, s) == M.Read(s, Some(y));
    PushVal(fns, places, s, w, M.ValueOf(s, y));
  }

  /** A variable of memory gets the last value. */
  lemma {:induction false} WriteFits(fns: seq<Function>, places: Places, w: World, s: M.State, loc: nat, v: Value)
    requires Related(fns, places, w, s) && loc < |places| && s.frames != []
    ensures places[loc] < |s.cells|
    ensures Related(fns, places, Put(w, loc, v), s.(cells := s.cells[places[loc] := v]))
  {
    hide ClosureFits;
    var s' := s.(cells := s.cells[places[loc] := v]);
    assert CellsFit(places, Put(w, loc, v), s') by {
      forall l | 0 <= l < |places| ensures s'.cells[places[l]] == Put(w, loc, v).cells[l] {
        assert l < loc ==> places[l] != places[loc];
        assert loc < l ==> places[loc] != places[l];
      }
    }
    ClosuresMore(fns, places, places, w, Put(w, loc, v), s, s');
  }

  lemma {:induction false} RelatedGoto(fns: seq<Function>, places: Places, w: World, s: M.State, s': M.State)
    requires Related(fns, places, w, s) && s'.cells == s.cells && s'.closures == s.closures
    ensures Related(fns, places, w, s')
  {
    hide ClosureFits;
    ClosuresMore(fns, places, places, w, w, s, s');
  }

  /** An assignment, after its value. */
  lemma {:induction false} WriteSim(fns: seq<Function>, places: Places, s: M.State, len: nat, places1: Places,
                                    s1: M.State, y: nat, v: Value, env: Env, w: World, w1: World, at: Site, x: string,
                                    t: nat, f: nat, end: Option<nat>)
    requires Going(fns, places, s, env, w, at) && Valued(fns, places, s, len, places1, s1, y, v, w1)
    requires CodeAt(fns, M.Top(s).fn, M.Top(s).pc + len, Here(Write(x), at, t), f, end)
    ensures Lookup(env, x).Some?
    ensures Valued(fns, places, s, len + 1, places1, M.Follow(fns, s1, 1), y, v, Put(w1, Lookup(env, x).value, v))
  {
    hide FrameFits, Related;
    GoesOn(fns, places, s, len, places1, s1, y, v, env, w, w1, at);
    Fetch(fns, M.Top(s).fn, M.Top(s).pc + len, Here(Write(x), at, t), f, end, 0);
    NameIs(fns, places1, s1, env, w1, at, x, t);
    OneStep(fns, s1);
    var loc := Lookup(env, x).value;
    WriteFits(fns, places1, w1, s1, loc, v);
    assert M.LastValue(s1) == v;
    var s2 := M.Step(fns, s1);
    assert s2 == M.Written(s1, Some(places1[loc]));
    RelatedGoto(fns, places1, Put(w1, loc, v), s1.(cells := s1.cells[places1[loc] := v]), s2);
    assert places1[loc] != y;
    WriteEffect(places, s, places1, s1, s2, loc, v);
  }

  lemma {:induction false} WriteEffect(places: Places, s: M.State, places1: Places, s1: M.State, s2: M.State, loc: nat,
                                       v: Value)
    requires Effect(places, s, places1, s1) && loc < |places1| && places1[loc] < |s1.cells|
    requires s2.cells == s1.cells[places1[loc] := v]
    ensures Effect(places, s, places1, s2)
  {
    forall x | 0 <= x < |s.cells| && x !in places ensures s2.cells[x] == s.cells[x] {
      NotAmong(places, s, places1, s1, x);
    }
  }

  // ----- Closures are made ----------------------------------------------------------------------------------

  /** The last of the functions finished with a function is the function itself. */
  lemma {:induction false} LastFinished(fns: seq<Function>, params: seq<string>, body: seq<Definition>, f: nat,
                                        around: seq<Shape>)
    requires FnsAt(fns, f, OfFunction(params, body, f, around))
    ensures var g := f + |OfFunction(params, body, f, around)| - 1;
            && g < |fns| && fns[g].arity == |params| && ShapesOf(fns[g].outer) == around
            && CompiledFrom(fns, g, params, body, f)
  {
    var code := OfFunction(params, body, f, around);
    var g := f + |code| - 1;
    assert OutlinesOf(fns)[g] == OutlinesOf(fns)[f..f + |code|][|code| - 1] == code[|code| - 1];
    assert OutlinesOf(fns)[g] == OutlineOf(fns[g]);
    assert code[|code| - 1].around == around && code[|code| - 1].arity == |params|;
  }

  lemma {:induction false} AroundMore(around: seq<Shape>, env: Env, t: nat)
    requires env != [] && AroundFits(around, env[..|env| - 1])
    ensures AroundFits(around + [Scope(NamesOf(env[|env| - 1]), t)], env)
  {
    var more := around + [Scope(NamesOf(env[|env| - 1]), t)];
    forall l | 0 <= l < |env| ensures ScopeFits(more[l], env[l]) {
      if l < |env| - 1 {
        assert ScopeFits(around[l], env[..|env| - 1][l]);
      } else {
        OwnScope(env[l], t);
      }
    }
  }

  /** What the closure captures are the variables its upvalues denote. */
  lemma {:induction false} CapturedFits(fns: seq<Function>, places: Places, s: M.State, env: Env, w: World, at: Site,
                                        g: nat, t: nat)
    requires Going(fns, places, s, env, w, at) && M.Top(s).pc < |fns[M.Top(s).fn].code|
    requires fns[M.Top(s).fn].code[M.Top(s).pc] == MakeClosure(g)
    requires PointOf(fns[M.Top(s).fn], M.Top(s).pc).slots == Scope(at.names, t)
    ensures g < |fns| && UpvaluesFit(fns[g], M.CapturedAll(s, fns[g].upvalues), env, places)
  {
    var a := M.Top(s);
    var f := fns[a.fn];
    assert SlotsOk(fns, f.level, f.outer, f.denotes, f.code, f.kinds, a.pc);
    var h, k := fns[g], f.kinds[a.pc];
    assert MakesOk(h, f.level, f.outer, f.denotes, k);
    assert ShapeOf(k) == Scope(at.names, t);
    hide FunctionOk, Related, AroundFits;
    forall u | 0 <= u < |h.upvalues|
      ensures Within(h.denotes[u], env, places)
      ensures M.Captured(s, h.upvalues[u]) == places[env[h.denotes[u].level][h.denotes[u].slot].loc]
    {
      CapturedIs(places, s, env, f, h, k, u, t);
    }
  }

  lemma {:induction false} CapturedIs(places: Places, s: M.State, env: Env, f: Function, h: Function, k: Kinds, u: nat,
                                      t: nat)
    requires s.frames != [] && env != [] && EnvIn(env, places) && |f.outer| == f.level == |env| - 1
    requires UpvaluesFit(f, M.Top(s).upvalues, env[..|env| - 1], places)
    requires SlotsFit(places, env[|env| - 1], M.Top(s).start, s.slots)
    requires ShapeOf(k) == Scope(NamesOf(env[|env| - 1]), t)
    requires MakesOk(h, f.level, f.outer, f.denotes, k) && u < |h.upvalues|
    ensures Within(h.denotes[u], env, places)
    ensures M.Captured(s, h.upvalues[u]) == places[env[h.denotes[u].level][h.denotes[u].slot].loc]
  {
    var e, scope := h.upvalues[u], env[|env| - 1];
    if e.isLocal {
      assert ShapeOf(k)[e.index] == Some(k[e.index].name);
      assert e.index < |scope|;
    } else {
      var v := f.denotes[e.index];
      assert Within(v, env[..|env| - 1], places);
    }
  }

  lemma {:induction false} OneMoreClosure(fns: seq<Function>, places: Places, w: World, s: M.State, c: Made,
                                          k: M.ClosureObject, s': M.State)
    requires Related(fns, places, w, s) && ClosureFits(fns, places, c, k)
    requires s'.cells == s.cells && s'.closures == s.closures + [k]
    ensures Related(fns, places, w.(closures := w.closures + [c]), s')
  {
    hide ClosureFits;
    var w' := w.(closures := w.closures + [c]);
    forall i | 0 <= i < |w'.closures| ensures ClosureFits(fns, places, w'.closures[i], s'.closures[i]) {
      if i < |w.closures| {
        assert ClosureFits(fns, places, w.closures[i], s.closures[i]);
      }
    }
  }

  lemma {:induction false} FnSim(fns: seq<Function>, places: Places, s: M.State, env: Env, w: World, at: Site, e: Expr,
                                 t: nat, f: nat, end: Option<nat>)
    requires e.Fn? && Going(fns, places, s, env, w, at)
    requires CodeAt(fns, M.Top(s).fn, M.Top(s).pc, OfExpr(e, f, at, t), f, end)
    ensures Valued(fns, places, s, 1, places, M.Follow(fns, s, 1), |s.cells|, Closure(|w.closures|),
                   w.(closures := w.closures + [Made(e.params, e.body, env)]))
  {
    hide FrameFits, ClosureFits, OfFunction, CodeAt, UpvaluesFit, AroundFits, Related, Going, M.Follow, M.Shifts,
         M.Halted, Scope;
    StillRuns(fns, places, s, env, w, at);
    var g := f + |OfFunction(e.params, e.body, f, at.around + [Scope(at.names, t)])| - 1;
    MakeHere(fns, places, s, env, w, at, e, t, f, end);
    OneStep(fns, s);
    MadeSim(fns, places, s, env, w, e.params, e.body, g);
  }

  /** The instruction that makes the closure, and what it captures. */
  lemma {:induction false} MakeHere(fns: seq<Function>, places: Places, s: M.State, env: Env, w: World, at: Site,
                                    e: Expr, t: nat, f: nat, end: Option<nat>)
    requires e.Fn? && Going(fns, places, s, env, w, at)
    requires CodeAt(fns, M.Top(s).fn, M.Top(s).pc, OfExpr(e, f, at, t), f, end)
    ensures var g := f + |OfFunction(e.params, e.body, f, at.around + [Scope(at.names, t)])| - 1;
            && M.Ready(fns, s) && M.Next(fns, s) == MakeClosure(g) && g < |fns|
            && ClosureFits(fns, places, Made(e.params, e.body, env),
                           M.ClosureObject(g, M.CapturedAll(s, fns[g].upvalues)))
  {
    hide FrameFits, ClosureFits, OfFunction, UpvaluesFit, AroundFits, Related, CompiledFrom, FnsAt, PointsAt, EnvIn,
         IsFunction;
    var around := at.around + [Scope(at.names, t)];
    var code := OfFunction(e.params, e.body, f, around);
    var g := f + |code| - 1;
    Fetch(fns, M.Top(s).fn, M.Top(s).pc, OfExpr(e, f, at, t), f, end, 0);
    FnsHere(fns, M.Top(s).fn, M.Top(s).pc, OfExpr(e, f, at, t), f, end);
    LastFinished(fns, e.params, e.body, f, around);
    MakeIs(fns[M.Top(s).fn], M.Top(s).pc, g);
    CapturedFits(fns, places, s, env, w, at, g, t);
    EnvHere(fns, places, s, env, w, at);
    AroundMore(at.around, env, t);
    FitsNow(fns, places, e.params, e.body, env, f, M.ClosureObject(g, M.CapturedAll(s, fns[g].upvalues)));
  }

  lemma {:induction false} FnsHere(fns: seq<Function>, g: nat, pc: nat, c: Code, f: nat, end: Option<nat>)
    requires CodeAt(fns, g, pc, c, f, end)
    ensures FnsAt(fns, f, c.fns)
  {
  }

  lemma {:induction false} MakeIs(f: Function, p: nat, g: nat)
    requires p < |f.code| && PointOf(f, p).mark == Make(g)
    ensures f.code[p] == MakeClosure(g)
  {
  }

  lemma {:induction false} EnvHere(fns: seq<Function>, places: Places, s: M.State, env: Env, w: World, at: Site)
    requires Going(fns, places, s, env, w, at)
    ensures env != [] && EnvIn(env, places) && AroundFits(at.around, env[..|env| - 1])
    ensures at.names == NamesOf(env[|env| - 1])
  {
  }

  lemma {:induction false} FitsNow(fns: seq<Function>, places: Places, params: seq<string>, body: seq<Definition>,
                                   env: Env, f: nat, k: M.ClosureObject)
    requires k.fn < |fns| && CompiledFrom(fns, k.fn, params, body, f) && EnvIn(env, places)
    requires AroundFits(ShapesOf(fns[k.fn].outer), env) && UpvaluesFit(fns[k.fn], k.upvalues, env, places)
    ensures ClosureFits(fns, places, Made(params, body, env), k)
  {
    hide CompiledFrom;
  }

  lemma {:induction false} MadeSim(fns: seq<Function>, places: Places, s: M.State, env: Env, w: World,
                                   params: seq<string>, body: seq<Definition>, g: nat)
    requires s.frames != [] && Related(fns, places, w, s) && g < |fns|
    requires ClosureFits(fns, places, Made(params, body, env), M.ClosureObject(g, M.CapturedAll(s, fns[g].upvalues)))
    ensures Valued(fns, places, s, 1, places, M.Made(fns, s, g), |s.cells|, Closure(|w.closures|),
                   w.(closures := w.closures + [Made(params, body, env)]))
  {
    hide ClosureFits, M.CapturedAll;
    var v := Closure(|s.closures|);
    PushVal(fns, places, s, w, v);
    OneMoreClosure(fns, places, w, M.Pushed(s, v), Made(params, body, env),
                   M.ClosureObject(g, M.CapturedAll(s, fns[g].upvalues)), M.Made(fns, s, g));
    NoEffect(places, s, M.Made(fns, s, g));
  }

  // ----- Calls ----------------------------------------------------------------------------------------------

  lemma {:induction false} FunctionIs(fns: seq<Function>, g: nat, params: seq<string>, body: seq<Definition>)
    requires g < |fns| && FunctionOk(fns, fns[g]) && IsFunction(fns, g, params, body)
    ensures fns[g].arity == |params| && (M.NoLocals(fns[g]) <==> Bare(body))
  {
    var f: nat :| CompiledFrom(fns, g, params, body, f);
    var around := ShapesOf(fns[g].outer);
    var code := OfFunction(params, body, f, around);
    assert OutlinesOf(fns)[g] == OutlinesOf(fns)[f..g + 1][|code| - 1] == code[|code| - 1];
    assert OutlinesOf(fns)[g] == OutlineOf(fns[g]);
    BareIs(fns[g], params, body, f, around);
  }

  /** What a call calls. */
  lemma {:induction false} CalleeIs(fns: seq<Function>, places: Places, w: World, s: M.State, v: Value, m: nat)
    requires ProgramOk(fns) && Related(fns, places, w, s) && m < |s.slots|
    requires M.ValueOf(s, s.slots[|s.slots| - m - 1]) == v
    ensures match Callee(v, m, w)
            case Accepted(c) =>
              && M.Callee(fns, s, m).Some?
              && var k := M.Callee(fns, s, m).value;
                 && ClosureFits(fns, places, c, k) && fns[k.fn].arity == |c.params| <= m
                 && (M.NoLocals(fns[k.fn]) <==> Bare(c.body)) && (|c.params| < m ==> Bare(c.body))
            case Refused(why) =>
              if why.Surplus? then
                && M.Callee(fns, s, m).Some?
                && var k := M.Callee(fns, s, m).value;
                   k.fn < |fns| && fns[k.fn].arity < m && !M.NoLocals(fns[k.fn])
              else M.Callee(fns, s, m).None?
  {
    hide FunctionOk, IsFunction, M.NoLocals;
    if v.Closure? && v.id < |w.closures| {
      var c, k := w.closures[v.id], s.closures[v.id];
      assert ClosureFits(fns, places, c, k);
      FunctionIs(fns, k.fn, c.params, c.body);
    }
  }

  lemma {:induction false} MarkIs(f: Function, p: nat)
    requires p < |f.code|
    ensures var mark, i := PointOf(f, p).mark, f.code[p];
            && (mark.Unless? ==> i == JumpIf(mark.target)) && (mark.Goto? ==> i == Jump(mark.target))
            && (mark.Back? ==> i == Loop(mark.target)) && (mark.Invoke? ==> i == Call(mark.numArgs))
            && (mark.End? ==> i == Return) && (mark.Drop? ==> i == Pop || i == CloseUpvalue)
            && (mark.Push? ==> i == Instr.Constant(mark.value)) && !mark.Hole? && !mark.HoleUnless?
  {
  }

  /** The arguments of a call have been computed, each in a variable of its own. */
  ghost predicate Several(fns: seq<Function>, places: Places, s: M.State, len: nat, places': Places, s': M.State,
                          xs: seq<nat>, vs: seq<Value>, w': World)
    requires s.frames != []
  {
    && s' == M.Goto(s, M.Top(s).pc + len).(slots := s.slots + xs, cells := s'.cells, closures := s'.closures,
                                           captured := s'.captured)
    && Related(fns, places', w', s') && Effect(places, s, places', s') && Temporary(s, places', s', xs, vs)
  }

  /** Variables that are not of memory, each with its value. */
  ghost predicate Temporary(s: M.State, places': Places, s': M.State, xs: seq<nat>, vs: seq<Value>) {
    && |xs| == |vs|
    && (forall j :: 0 <= j < |xs| ==> |s.cells| <= xs[j] < |s'.cells| && xs[j] !in places' && s'.cells[xs[j]] == vs[j])
    && forall i, j :: 0 <= i < j < |xs| ==> xs[i] < xs[j]
  }

  lemma {:induction false} TemporaryMore(s: M.State, places1: Places, s1: M.State, xs: seq<nat>, vs: seq<Value>,
                                         places2: Places, s2: M.State, x: nat, v: Value)
    requires Temporary(s, places1, s1, xs, vs) && Effect(places1, s1, places2, s2) && |s.cells| <= |s1.cells|
    requires |s1.cells| <= x < |s2.cells| && x !in places2 && s2.cells[x] == v
    ensures Temporary(s, places2, s2, xs + [x], vs + [v])
  {
    forall j | 0 <= j < |xs| ensures xs[j] !in places2 && s2.cells[xs[j]] == vs[j] {
      NotAmong(places1, s1, places2, s2, xs[j]);
    }
  }

  /** One more argument. */
  lemma {:induction false} OneMoreValue(fns: seq<Function>, places: Places, s: M.State, len: nat, places1: Places,
                                        s1: M.State, xs: seq<nat>, vs: seq<Value>, w1: World, len1: nat,
                                        places2: Places, s2: M.State, x: nat, v: Value, w2: World)
    requires s.frames != [] && Several(fns, places, s, len, places1, s1, xs, vs, w1)
    requires Valued(fns, places1, s1, len1, places2, s2, x, v, w2)
    ensures Several(fns, places, s, len + len1, places2, s2, xs + [x], vs + [v], w2)
  {
    hide Related, Effect, Temporary;
    EffectOn(places, s, places1, s1, places2, s2);
    assert |s.cells| <= |s1.cells| by {
      CellsGrow(places, s, places1, s1);
    }
    TemporaryMore(s, places1, s1, xs, vs, places2, s2, x, v);
    assert s.slots + xs + [x] == s.slots + (xs + [x]);
  }

  lemma {:induction false} CellsGrow(places: Places, s: M.State, places': Places, s': M.State)
    requires Effect(places, s, places', s')
    ensures |s.cells| <= |s'.cells| && places <= places'
  {
  }

  lemma {:induction false} NoSteps(fns: seq<Function>, s: M.State)
    ensures M.Follow(fns, s, 0) == s
  {
  }

  lemma {:induction false} NoneYet(fns: seq<Function>, places: Places, s: M.State, w: World)
    requires s.frames != [] && Related(fns, places, w, s)
    ensures Several(fns, places, s, 0, places, s, [], [], w)
  {
    NoEffect(places, s, s);
    assert s.slots + [] == s.slots;
  }

  /** After some arguments all goes on as before. */
  lemma {:induction false} GoOn(fns: seq<Function>, places: Places, s: M.State, len: nat, places': Places, s': M.State,
                                xs: seq<nat>, vs: seq<Value>, env: Env, w: World, w': World, at: Site)
    requires Going(fns, places, s, env, w, at) && Several(fns, places, s, len, places', s', xs, vs, w')
    ensures Going(fns, places', s', env, w', at)
  {
    hide Related, FrameFits;
    SlotsThere(fns, places, s, env);
    var n := M.Top(s).start + |env[|env| - 1]|;
    assert s'.slots[..n] == s.slots[..n];
    FrameMore(fns, places, places', env, M.Top(s), M.Top(s'), s.slots, s'.slots);
  }

  // ----- Outcomes of statements -----------------------------------------------------------------------------

  /** The machine has gone to instruction `q` of the same function. */
  ghost predicate Moved(places: Places, s: M.State, q: nat, places': Places, s': M.State)
    requires s.frames != []
  {
    && s' == M.Goto(s, q).(slots := s'.slots, cells := s'.cells, closures := s'.closures, captured := s'.captured)
    && Effect(places, s, places', s')
  }

  /** The function has returned. */
  ghost predicate Given(fns: seq<Function>, places: Places, s: M.State, places': Places, s': M.State, x: nat, v: Value,
                        w': World)
    requires s.frames != []
  {
    && M.Top(s).start <= |s.slots|
    && s' == s.(frames := s.frames[..|s.frames| - 1], slots := s.slots[..M.Top(s).start] + [x], cells := s'.cells,
                closures := s'.closures, captured := s'.captured,
                status := if |s.frames| == 1 then M.Finished(v) else M.Running)
    && Related(fns, places', w', s') && Effect(places, s, places', s')
    && |s.cells| <= x < |s'.cells| && x !in places' && s'.cells[x] == v
  }

  /** A statement has been left by a break: the last `k` slots are given up. */
  ghost predicate Left(fns: seq<Function>, places: Places, s: M.State, k: nat, end: Option<nat>, places': Places,
                       s': M.State, w': World)
    requires s.frames != []
  {
    && end.Some? && k <= |s.slots| && Moved(places, s, end.value, places', s') && Related(fns, places', w', s')
    && s'.slots == s.slots[..|s.slots| - k]
  }

  /** What the machine shows of an outcome that is not the normal one. */
  ghost predicate Ended(fns: seq<Function>, places: Places, s: M.State, k: nat, end: Option<nat>, r: Outcome, fuel: nat,
                        n: nat, places': Places, x: nat)
    requires s.frames != [] && !r.Normal?
  {
    var s' := M.Follow(fns, s, n);
    match r
    case Broke(w') => Left(fns, places, s, k, end, places', s', w')
    case Returned(v, w') => Given(fns, places, s, places', s', x, v, w')
    case Stopped(a) => Stops(fns, s, n, a, fuel)
  }

  /** The normal outcome of a statement: the slots are as they were. */
  ghost predicate Passed(fns: seq<Function>, places: Places, s: M.State, len: nat, w': World, places': Places,
                         s': M.State)
    requires s.frames != []
  {
    Moved(places, s, M.Top(s).pc + len, places', s') && s'.slots == s.slots && Related(fns, places', w', s')
  }

  ghost predicate Done(fns: seq<Function>, places: Places, s: M.State, len: nat, k: nat, end: Option<nat>, r: Outcome,
                       fuel: nat, n: nat, places': Places, x: nat)
    requires s.frames != []
  {
    if r.Normal? then Passed(fns, places, s, len, r.w, places', M.Follow(fns, s, n))
    else Ended(fns, places, s, k, end, r, fuel, n, places', x)
  }

  /** The slots above those of the locals in scope are surplus arguments, of functions that declare no locals. */
  ghost predicate Exact(s: M.State, env: Env) {
    s.frames != [] && env != [] && |s.slots| == M.Top(s).start + |env[|env| - 1]| + M.Top(s).extra
  }

  lemma {:induction false} MovedOn(places: Places, s: M.State, q: nat, places1: Places, s1: M.State, q2: nat,
                                   places2: Places, s2: M.State)
    requires s.frames != [] && Moved(places, s, q, places1, s1) && Moved(places1, s1, q2, places2, s2)
    ensures Moved(places, s, q2, places2, s2)
  {
    EffectOn(places, s, places1, s1, places2, s2);
  }

  /** What ends later ends. `more` slots have been added meanwhile. */
  lemma {:induction false} EndedOn(fns: seq<Function>, places: Places, s: M.State, q: nat, places1: Places, n1: nat,
                                   more: nat, k: nat, end: Option<nat>, r: Outcome, fuel: nat, fuel': nat, n: nat,
                                   places': Places, x: nat)
    requires s.frames != [] && M.Top(s).start <= |s.slots| && !r.Normal? && fuel' <= fuel + n1
    requires var s1 := M.Follow(fns, s, n1);
             && Moved(places, s, q, places1, s1) && s.slots <= s1.slots && |s1.slots| == |s.slots| + more
             && Ended(fns, places1, s1, k + more, end, r, fuel, n, places', x)
    requires k <= |s.slots|
    ensures Ended(fns, places, s, k, end, r, fuel', n1 + n, places', x)
  {
    hide Related, Effect;
    var s1 := M.Follow(fns, s, n1);
    M.FollowAppend(fns, s, n1, n);
    var s2 := M.Follow(fns, s1, n);
    match r
    case Broke(w') =>
      MovedOn(places, s, q, places1, s1, end.value, places', s2);
      assert s2.slots == s1.slots[..|s1.slots| - k - more] == s.slots[..|s.slots| - k];
    case Returned(v, w') =>
      EffectOn(places, s, places1, s1, places', s2);
      CellsGrow(places, s, places1, s1);
      assert s1.slots[..M.Top(s).start] == s.slots[..M.Top(s).start];
      assert s1.frames[..|s1.frames| - 1] == s.frames[..|s.frames| - 1];
    case Stopped(a) => StopsAfter(fns, s, n1, n, a, fuel, fuel');
  }

  /** A statement after another part. */
  lemma {:induction false} DoneOn(fns: seq<Function>, places: Places, s: M.State, q: nat, places1: Places, n1: nat,
                                  len: nat, k: nat, end: Option<nat>, r: Outcome, fuel: nat, fuel': nat, n: nat,
                                  places': Places, x: nat, len': nat)
    requires s.frames != [] && M.Top(s).start <= |s.slots| && k <= |s.slots| && fuel' <= fuel + n1
    requires var s1 := M.Follow(fns, s, n1);
             && Moved(places, s, q, places1, s1) && s1.slots == s.slots
             && Done(fns, places1, s1, len, k, end, r, fuel, n, places', x)
    requires q + len == M.Top(s).pc + len'
    ensures Done(fns, places, s, len', k, end, r, fuel', n1 + n, places', x)
  {
    hide Related, Effect;
    if r.Normal? {
      var s1 := M.Follow(fns, s, n1);
      M.FollowAppend(fns, s, n1, n);
      MovedOn(places, s, q, places1, s1, M.Top(s).pc + len', places', M.Follow(fns, s1, n));
    } else {
      EndedOn(fns, places, s, q, places1, n1, 0, k, end, r, fuel, fuel', n, places', x);
    }
  }

  // ----- Expressions ----------------------------------------------------------------------------------------

  /** The machine computes what an expression means. */
  lemma {:induction false} SimE(fns: seq<Function>, places: Places, s: M.State, e: Expr, env: Env, w: World, fuel: nat,
                                at: Site, t: nat, f: nat, end: Option<nat>)
    returns (n: nat, places': Places, x: nat)
    requires ProgramOk(fns) && Going(fns, places, s, env, w, at)
    requires CodeAt(fns, M.Top(s).fn, M.Top(s).pc, OfExpr(e, f, at, t), f, end)
    ensures Answered(fns, places, s, |OfExpr(e, f, at, t).points|, Eval(e, env, w, fuel), fuel, n, places', x)
    decreases fuel, e, 3
  {
    hide Going, CodeAt, Valued, ProgramOk, OfFunction, OfArgs, Apply, EvalArgs;
    match e
    case Constant(v) =>
      ConstantSim(fns, places, s, env, w, at, v, t, f, end);
      n, places', x := 1, places, |s.cells|;
    case Name(y) =>
      NameSim(fns, places, s, env, w, at, y, t, f, end);
      n, places', x := 1, places, |s.cells|;
    case Fn(_, _) =>
      FnSim(fns, places, s, env, w, at, e, t, f, end);
      n, places', x := 1, places, |s.cells|;
    case Assign(_, _) => n, places', x := SimAssign(fns, places, s, e, env, w, fuel, at, t, f, end);
    case CallOf(_, _) => n, places', x := SimCall(fns, places, s, e, env, w, fuel, at, t, f, end);
  }

  lemma {:induction false} SimAssign(fns: seq<Function>, places: Places, s: M.State, e: Expr, env: Env, w: World,
                                     fuel: nat, at: Site, t: nat, f: nat, end: Option<nat>)
    returns (n: nat, places': Places, x: nat)
    requires e.Assign? && ProgramOk(fns) && Going(fns, places, s, env, w, at)
    requires CodeAt(fns, M.Top(s).fn, M.Top(s).pc, OfExpr(e, f, at, t), f, end)
    ensures Answered(fns, places, s, |OfExpr(e, f, at, t).points|, Eval(e, env, w, fuel), fuel, n, places', x)
    decreases fuel, e, 2
  {
    hide Going, CodeAt, Valued, ProgramOk, OfFunction, OfArgs, Apply, EvalArgs, Scope, Lookup, Put, M.Follow, M.Shifts,
         M.Halted, M.Top;
    StillRuns(fns, places, s, env, w, at);
    var c := OfExpr(e.e, f, at, t);
    CodeSplit(fns, M.Top(s).fn, M.Top(s).pc, c, Here(Write(e.name), at, t + 1), f, end);
    n, places', x := SimE(fns, places, s, e.e, env, w, fuel, at, t, f, end);
    var a := Eval(e.e, env, w, fuel);
    if a.Val? {
      WriteSim(fns, places, s, |c.points|, places', M.Follow(fns, s, n), x, a.v, env, w, a.w, at, e.name, t + 1,
               f + |c.fns|, end);
      M.FollowAppend(fns, s, n, 1);
      n := n + 1;
    }
  }

  lemma {:induction false} SimArgs(fns: seq<Function>, places: Places, s: M.State, args: seq<Expr>, m: nat, env: Env,
                                   w: World, fuel: nat, at: Site, t: nat, f: nat, end: Option<nat>)
    returns (n: nat, places': Places, xs: seq<nat>)
    requires m <= |args| && ProgramOk(fns) && Going(fns, places, s, env, w, at)
    requires CodeAt(fns, M.Top(s).fn, M.Top(s).pc, OfArgs(args, m, f, at, t), f, end)
    ensures var r, len := EvalArgs(args, m, env, w, fuel), |OfArgs(args, m, f, at, t).points|;
            if r.Values? then Several(fns, places, s, len, places', M.Follow(fns, s, n), xs, r.vs, r.w)
            else Stops(fns, s, n, r.a, fuel)
    decreases fuel, args, m
  {
    hide CodeAt, ProgramOk, FrameFits, Related, Going, Several, Valued, OfExpr, Eval, M.Follow, M.Shifts, M.Halted,
         M.Top;
    StillRuns(fns, places, s, env, w, at);
    if m == 0 {
      NoSteps(fns, s);
      n, places', xs := 0, places, [];
      NoneYet(fns, places, s, w);
      return;
    }
    var a := OfArgs(args, m - 1, f, at, t);
    var b := OfExpr(args[m - 1], f + |a.fns|, at, t + m - 1);
    CodeSplit(fns, M.Top(s).fn, M.Top(s).pc, a, b, f, end);
    n, places', xs := SimArgs(fns, places, s, args, m - 1, env, w, fuel, at, t, f, end);
    var r := EvalArgs(args, m - 1, env, w, fuel);
    if r.Values? {
      var s1 := M.Follow(fns, s, n);
      GoOn(fns, places, s, |a.points|, places', s1, xs, r.vs, env, w, r.w, at);
      SameTop(fns, places, s, |a.points|, places', s1, xs, r.vs, r.w);
      var n1, places1, x := SimE(fns, places', s1, args[m - 1], env, r.w, fuel, at, t + m - 1, f + |a.fns|, end);
      var v := Eval(args[m - 1], env, r.w, fuel);
      M.FollowAppend(fns, s, n, n1);
      if v.Val? {
        OneMoreValue(fns, places, s, |a.points|, places', s1, xs, r.vs, r.w, |b.points|, places1, M.Follow(fns, s1, n1),
                     x, v.v, v.w);
        xs := xs + [x];
      } else {
        StopsAfter(fns, s, n, n1, v, fuel, fuel);
      }
      n, places' := n + n1, places1;
    }
  }

  lemma {:induction false} SameTop(fns: seq<Function>, places: Places, s: M.State, len: nat, places': Places,
                                   s': M.State, xs: seq<nat>, vs: seq<Value>, w': World)
    requires s.frames != [] && Several(fns, places, s, len, places', s', xs, vs, w')
    ensures s'.frames != [] && M.Top(s') == M.Top(s).(pc := M.Top(s).pc + len)
  {
  }

  /** A function called and its arguments. */
  lemma {:induction false} AllValues(fns: seq<Function>, places: Places, s: M.State, len: nat, places1: Places,
                                     s1: M.State, x: nat, v: Value, w1: World, len1: nat, places2: Places, s2: M.State,
                                     xs: seq<nat>, vs: seq<Value>, w2: World)
    requires s.frames != [] && Valued(fns, places, s, len, places1, s1, x, v, w1)
    requires Several(fns, places1, s1, len1, places2, s2, xs, vs, w2)
    ensures Several(fns, places, s, len + len1, places2, s2, [x] + xs, [v] + vs, w2)
  {
    hide Related, Temporary;
    EffectOn(places, s, places1, s1, places2, s2);
    assert s.slots + [x] + xs == s.slots + ([x] + xs);
    StaysApart(places1, s1, places2, s2, x);
    assert Temporary(s, places2, s2, [x] + xs, [v] + vs) by {
      FirstValue(s, s1, places2, s2, x, v, xs, vs);
    }
  }

  lemma {:induction false} FirstValue(s: M.State, s1: M.State, places2: Places, s2: M.State, x: nat, v: Value,
                                      xs: seq<nat>, vs: seq<Value>)
    requires Temporary(s1, places2, s2, xs, vs) && |s.cells| <= x < |s1.cells| <= |s2.cells|
    requires x !in places2 && s2.cells[x] == v
    ensures Temporary(s, places2, s2, [x] + xs, [v] + vs)
  {
  }

  lemma {:induction false} SimCall(fns: seq<Function>, places: Places, s: M.State, e: Expr, env: Env, w: World,
                                   fuel: nat, at: Site, t: nat, f: nat, end: Option<nat>)
    returns (n: nat, places': Places, x: nat)
    requires e.CallOf? && ProgramOk(fns) && Going(fns, places, s, env, w, at)
    requires CodeAt(fns, M.Top(s).fn, M.Top(s).pc, OfExpr(e, f, at, t), f, end)
    ensures Answered(fns, places, s, |OfExpr(e, f, at, t).points|, Eval(e, env, w, fuel), fuel, n, places', x)
    decreases fuel, e, 2
  {
    hide CodeAt, ProgramOk, FrameFits, Related, Valued, Several, Apply, Callee, OfArgs, Going, M.Follow, M.Shifts,
         M.Halted, M.Top, OfFunction, EvalArgs, Scope, Invoked;
    StillRuns(fns, places, s, env, w, at);
    var m := |e.args|;
    var c := OfExpr(e.callee, f, at, t);
    var a := OfArgs(e.args, m, f + |c.fns|, at, t + 1);
    var i := Here(Invoke(m), at, t + 1 + m);
    var pc := M.Top(s).pc;
    CodeSplit(fns, M.Top(s).fn, pc, Plus(c, a), i, f, end);
    CodeSplit(fns, M.Top(s).fn, pc, c, a, f, end);
    n, places', x := SimE(fns, places, s, e.callee, env, w, fuel, at, t, f, end);
    var v := Eval(e.callee, env, w, fuel);
    if v.Val? {
      CallIs(e, env, w, fuel);
      n, places', x := SimCalled(fns, places, s, e, env, w, fuel, at, t, f, end, n, places', x, v.v, v.w);
    }
  }

  /** What a call means, once it is known what is called. */
  lemma {:induction false} CallIs(e: Expr, env: Env, w: World, fuel: nat)
    requires e.CallOf? && Eval(e.callee, env, w, fuel).Val?
    ensures Eval(e, env, w, fuel) == Invoking(e, env, Eval(e.callee, env, w, fuel).v, Eval(e.callee, env, w, fuel).w,
                                              fuel)
  {
  }

  /** What a call does with the function it calls: its arguments, and the call itself. */
  function Invoking(e: Expr, env: Env, v: Value, w: World, fuel: nat): Answer
    requires e.CallOf?
  {
    var r := EvalArgs(e.args, |e.args|, env, w, fuel);
    if r.NoValues? then r.a else Invoked(v, r.vs, |e.args|, r.w, fuel)
  }

  /** The arguments of a call, and the call. */
  lemma {:induction false} SimCalled(fns: seq<Function>, places: Places, s: M.State, e: Expr, env: Env, w: World,
                                     fuel: nat, at: Site, t: nat, f: nat, end: Option<nat>, n0: nat, places0: Places,
                                     x0: nat, v: Value, w0: World)
    returns (n: nat, places': Places, x: nat)
    requires e.CallOf? && ProgramOk(fns) && Going(fns, places, s, env, w, at)
    requires Valued(fns, places, s, |OfExpr(e.callee, f, at, t).points|, places0, M.Follow(fns, s, n0), x0, v, w0)
    requires var c, m := OfExpr(e.callee, f, at, t), |e.args|;
             var a := OfArgs(e.args, m, f + |c.fns|, at, t + 1);
             && CodeAt(fns, M.Top(s).fn, M.Top(s).pc + |c.points|, a, f + |c.fns|, end)
             && CodeAt(fns, M.Top(s).fn, M.Top(s).pc + |c.points| + |a.points|, Here(Invoke(m), at, t + 1 + m),
                       f + |c.fns| + |a.fns|, end)
    ensures var c := OfExpr(e.callee, f, at, t);
            var a := OfArgs(e.args, |e.args|, f + |c.fns|, at, t + 1);
            Answered(fns, places, s, |c.points| + |a.points| + 1, Invoking(e, env, v, w0, fuel), fuel, n, places', x)
    decreases fuel, e, 1
  {
    hide CodeAt, ProgramOk, FrameFits, Related, Valued, Several, Apply, Callee, OfArgs, Going, M.Follow, M.Shifts,
         M.Halted, M.Top, OfExpr, EvalArgs, Scope, Invoked;
    StillRuns(fns, places, s, env, w, at);
    var m := |e.args|;
    var c := OfExpr(e.callee, f, at, t);
    var a := OfArgs(e.args, m, f + |c.fns|, at, t + 1);
    var s1 := M.Follow(fns, s, n0);
    GoesOn(fns, places, s, |c.points|, places0, s1, x0, v, env, w, w0, at);
    SameTopValue(fns, places, s, |c.points|, places0, s1, x0, v, w0);
    var n1, places1, xs := SimArgs(fns, places0, s1, e.args, m, env, w0, fuel, at, t + 1, f + |c.fns|, end);
    var r := EvalArgs(e.args, m, env, w0, fuel);
    var s2 := M.Follow(fns, s1, n1);
    M.FollowAppend(fns, s, n0, n1);
    if r.NoValues? {
      StopsAfter(fns, s, n0, n1, r.a, fuel, fuel);
      n, places', x := n0 + n1, places1, 0;
      return;
    }
    var len := |c.points| + |a.points|;
    AllValues(fns, places, s, |c.points|, places0, s1, x0, v, w0, |a.points|, places1, s2, xs, r.vs, r.w);
    HowMany(fns, places, s, len, places1, s2, [x0] + xs, [v] + r.vs, r.w);
    n, places', x := SimInvoke(fns, places, s, len, places1, s2, [x0] + xs, [v] + r.vs, r.w, e, m, fuel, at,
                               t + 1 + m, f + |c.fns| + |a.fns|, end);
    M.FollowAppend(fns, s, n0 + n1, n);
    var answer := Invoked(v, r.vs, m, r.w, fuel);
    if !answer.Val? {
      StopsAfter(fns, s, n0 + n1, n, answer, fuel, fuel);
    }
    n := n0 + n1 + n;
  }

  lemma {:induction false} HowMany(fns: seq<Function>, places: Places, s: M.State, len: nat, places': Places,
                                   s': M.State, xs: seq<nat>, vs: seq<Value>, w': World)
    requires s.frames != [] && Several(fns, places, s, len, places', s', xs, vs, w')
    ensures |xs| == |vs|
  {
  }

  lemma {:induction false} SameTopValue(fns: seq<Function>, places: Places, s: M.State, len: nat, places': Places,
                                        s': M.State, x: nat, v: Value, w': World)
    requires s.frames != [] && Valued(fns, places, s, len, places', s', x, v, w')
    ensures s'.frames != [] && M.Top(s') == M.Top(s).(pc := M.Top(s).pc + len)
  {
  }

  /** What a call does with its values. */
  function Invoked(v: Value, vs: seq<Value>, m: nat, w: World, fuel: nat): Answer
    requires |vs| == m
  {
    match Callee(v, m, w)
    case Refused(why) => why
    case Accepted(c) => if fuel == 0 then OutOfFuel else Apply(c, v, vs, w, fuel - 1)
  }

  /** The call itself. */
  lemma {:induction false} SimInvoke(fns: seq<Function>, places: Places, s: M.State, len: nat, places2: Places,
                                     s2: M.State, ys: seq<nat>, us: seq<Value>, w2: World, e: Expr, m: nat, fuel: nat,
                                     at: Site, t: nat, f: nat, end: Option<nat>)
    returns (n: nat, places': Places, x: nat)
    requires ProgramOk(fns) && s.frames != [] && s.status == M.Running
    requires Several(fns, places, s, len, places2, s2, ys, us, w2) && |ys| == m + 1
    requires CodeAt(fns, M.Top(s).fn, M.Top(s).pc + len, Here(Invoke(m), at, t), f, end)
    ensures |us| == m + 1
    ensures var a := Invoked(us[0], us[1..], m, w2, fuel);
            if a.Val? then Valued(fns, places, s, len + 1, places', M.Follow(fns, s2, n), x, a.v, a.w)
            else Stops(fns, s2, n, a, fuel)
    decreases fuel, e, 0
  {
    hide Related, Effect, ProgramOk, ClosureFits, M.NoLocals, CodeAt, M.Follow, M.Halted, Callee, M.Callee, M.Called;
    CallHere(fns, places, s, len, places2, s2, ys, us, w2, m, at, t, f, end);
    CalleeIs(fns, places2, w2, s2, us[0], m);
    M.FollowOne(fns, s2);
    n, places', x := 0, places2, 0;
    match Callee(us[0], m, w2)
    case Refused(why) =>
      NoSteps(fns, s2);
      if why.Err? {
        CallFails(fns, s2, m);
        n := 1;
      }
    case Accepted(c) =>
      if fuel == 0 {
        NoSteps(fns, s2);
        NotHalted(fns, s2);
      } else {
        n, places', x := SimApply(fns, places, s, len, places2, s2, ys, us, w2, m, c, fuel - 1);
        M.FollowAppend(fns, s2, 1, n);
        var a := Apply(c, us[0], us[1..], w2, fuel - 1);
        if !a.Val? {
          StopsAfter(fns, s2, 1, n, a, fuel - 1, fuel);
        }
        n := n + 1;
      }
  }

  lemma {:induction false} CallFails(fns: seq<Function>, s: M.State, m: nat)
    requires s.status == M.Running && M.Ready(fns, s) && M.Next(fns, s) == Call(m) && M.Callee(fns, s, m).None?
    ensures M.Follow(fns, s, 1).status == M.Failed
  {
    M.FollowOne(fns, s);
  }

  lemma {:induction false} NotHalted(fns: seq<Function>, s: M.State)
    requires s.status == M.Running && !M.Shifts(fns, s)
    ensures !M.Halted(fns, s)
  {
  }

  /** The call is next, and what it calls is below its arguments. */
  lemma {:induction false} CallHere(fns: seq<Function>, places: Places, s: M.State, len: nat, places2: Places,
                                    s2: M.State, ys: seq<nat>, us: seq<Value>, w2: World, m: nat, at: Site, t: nat,
                                    f: nat, end: Option<nat>)
    requires s.frames != [] && s.status == M.Running
    requires Several(fns, places, s, len, places2, s2, ys, us, w2) && |ys| == m + 1
    requires CodeAt(fns, M.Top(s).fn, M.Top(s).pc + len, Here(Invoke(m), at, t), f, end)
    ensures |us| == m + 1 && s2.status == M.Running && M.Ready(fns, s2) && M.Next(fns, s2) == Call(m)
    ensures m < |s2.slots| && M.ValueOf(s2, s2.slots[|s2.slots| - m - 1]) == us[0] && Related(fns, places2, w2, s2)
  {
    hide Related, Effect, M.Shifts;
    Fetch(fns, M.Top(s).fn, M.Top(s).pc + len, Here(Invoke(m), at, t), f, end, 0);
    MarkIs(fns[M.Top(s).fn], M.Top(s).pc + len);
    assert s2.slots[|s2.slots| - m - 1] == ys[0];
  }

  /** The function called. */
  lemma {:induction false} SimApply(fns: seq<Function>, places: Places, s: M.State, len: nat, places2: Places,
                                    s2: M.State, ys: seq<nat>, us: seq<Value>, w2: World, m: nat, c: Made, fuel: nat)
    returns (n: nat, places': Places, x: nat)
    requires ProgramOk(fns) && s.frames != [] && s.status == M.Running
    requires Several(fns, places, s, len, places2, s2, ys, us, w2) && |ys| == m + 1
    requires M.Callee(fns, s2, m).Some? && |c.params| <= m && (|c.params| < m ==> Bare(c.body))
    requires var k := M.Callee(fns, s2, m).value; ClosureFits(fns, places2, c, k) && fns[k.fn].arity == |c.params|
    ensures |us| == m + 1
    ensures var a := Apply(c, us[0], us[1..], w2, fuel);
            var s3 := M.Called(fns, s2, m);
            if a.Val? then Valued(fns, places, s, len + 1, places', M.Follow(fns, s3, n), x, a.v, a.w)
            else Stops(fns, s3, n, a, fuel)
    decreases fuel
  {
    hide Related, Effect, ProgramOk, FrameFits, Bare, M.Callee;
    var k := M.Callee(fns, s2, m).value;
    var n0 := |c.params| + 1;
    var s3 := M.Called(fns, s2, m);
    var places3 := places2 + ys[..n0];
    var w3 := w2.(cells := w2.cells + [us[0]] + us[1..][..|c.params|]);
    var env3 := c.env + [Parameters(c.params, |w2.cells|)];
    var at := Entry(c.params, ShapesOf(fns[k.fn].outer));
    EnteredFits(fns, places, s, len, places2, s2, ys, us, w2, m, c, k);
    n, places', x := SimBody(fns, places3, s3, c.params, c.body, env3, w3, fuel, at);
    var a := OutcomeOf(ExecDefs(c.body, |c.body|, env3, w3, fuel));
    if a.Val? {
      var t := M.Follow(fns, s3, n);
      GivenBack(fns, places, s, len, s2, m, places3, s3, places', t, x, a.v, a.w);
    }
  }

  /** The function called begins as it should: it and its arguments are variables of memory now. */
  lemma {:induction false} EnteredFits(fns: seq<Function>, places: Places, s: M.State, len: nat, places2: Places,
                                       s2: M.State, ys: seq<nat>, us: seq<Value>, w2: World, m: nat, c: Made,
                                       k: M.ClosureObject)
    requires ProgramOk(fns) && s.frames != [] && s.status == M.Running
    requires Several(fns, places, s, len, places2, s2, ys, us, w2) && |ys| == m + 1
    requires M.Callee(fns, s2, m) == Some(k) && |c.params| <= m && (|c.params| < m ==> Bare(c.body))
    requires ClosureFits(fns, places2, c, k) && fns[k.fn].arity == |c.params|
    ensures |us| == m + 1
    ensures var n0 := |c.params| + 1;
            var s3 := M.Called(fns, s2, m);
            var places3 := places2 + ys[..n0];
            var env3 := c.env + [Parameters(c.params, |w2.cells|)];
            && Going(fns, places3, s3, env3, w2.(cells := w2.cells + [us[0]] + us[1..][..|c.params|]),
                     Entry(c.params, ShapesOf(fns[k.fn].outer)))
            && Exact(s3, env3) && M.Top(s3).pc == 0 && M.Top(s3).fn == k.fn && M.Top(s3).start == |s.slots|
            && IsFunction(fns, k.fn, c.params, c.body) && (M.Top(s3).extra > 0 ==> Bare(c.body))
            && Effect(places, s, places3, s3)
  {
    hide Bare, IsFunction, FunctionOk;
    var n0 := |c.params| + 1;
    var s3 := M.Called(fns, s2, m);
    var places3 := places2 + ys[..n0];
    var scope := Parameters(c.params, |w2.cells|);
    var env3 := c.env + [scope];
    assert us[0..1] + us[1..n0] == us[..n0] && [us[0]] + us[1..][..|c.params|] == us[..n0];
    CellsMore(places2, w2, s2, s, ys, us, n0);
    assert w2.cells + [us[0]] + us[1..][..|c.params|] == w2.cells + us[..n0];
    var w3 := w2.(cells := w2.cells + us[..n0]);
    ClosuresMore(fns, places2, places3, w2, w3, s2, s3);
    assert Related(fns, places3, w3, s3);
    assert |s2.slots| - m - 1 == |s.slots|;
    assert env3[..|env3| - 1] == c.env && env3[|env3| - 1] == scope;
    EnvMore(c.env, places2, places3);
    UpvaluesMore(fns[k.fn], k.upvalues, c.env, places2, places3);
    assert EnvIn(env3, places3) by {
      forall l | 0 <= l < |env3| ensures InPlaces(env3[l], places3) {
        assert l < |c.env| ==> env3[l] == c.env[l] && InPlaces(c.env[l], places3);
      }
    }
    assert SlotsFit(places3, scope, |s.slots|, s3.slots) by {
      forall i | 0 <= i < |scope| ensures s3.slots[|s.slots| + i] == places3[scope[i].loc] {
        assert scope[i].loc == |places2| + i;
        assert s3.slots[|s.slots| + i] == ys[i];
      }
    }
    assert NamesOf(scope) == [""] + c.params;
    assert Effect(places, s, places3, s3) by {
      PlacesMore(places, s, places2, s2, ys, us, n0, s3);
    }
  }

  lemma {:induction false} CellsMore(places: Places, w: World, s2: M.State, s: M.State, ys: seq<nat>, us: seq<Value>,
                                     n: nat)
    requires CellsFit(places, w, s2) && Temporary(s, places, s2, ys, us) && n <= |ys|
    ensures CellsFit(places + ys[..n], w.(cells := w.cells + us[..n]), s2)
  {
    var more := places + ys[..n];
    forall l | 0 <= l < |more| ensures more[l] < |s2.cells| && s2.cells[more[l]] == (w.cells + us[..n])[l] {
      if l >= |places| {
        assert more[l] == ys[l - |places|];
      }
    }
    forall k, l | 0 <= k < l < |more| ensures more[k] != more[l] {
      if l >= |places| {
        assert more[l] == ys[l - |places|] && more[l] !in places;
        if k >= |places| {
          assert more[k] == ys[k - |places|];
        }
      }
    }
  }

  lemma {:induction false} PlacesMore(places: Places, s: M.State, places2: Places, s2: M.State, ys: seq<nat>,
                                      us: seq<Value>, n: nat, s3: M.State)
    requires Effect(places, s, places2, s2) && Temporary(s, places2, s2, ys, us) && n <= |ys| && s3.cells == s2.cells
    ensures Effect(places, s, places2 + ys[..n], s3)
  {
    var more := places2 + ys[..n];
    forall l | |places| <= l < |more| ensures more[l] >= |s.cells| {
      if l >= |places2| {
        assert more[l] == ys[l - |places2|];
      }
    }
  }

  /** The function has returned to where it was called. */
  lemma {:induction false} GivenBack(fns: seq<Function>, places: Places, s: M.State, len: nat, s2: M.State, m: nat,
                                     places3: Places, s3: M.State, places': Places, t: M.State, x: nat, v: Value,
                                     w': World)
    requires s.frames != [] && s.status == M.Running && M.Callee(fns, s2, m).Some?
    requires |s2.slots| == |s.slots| + m + 1 && s.slots <= s2.slots
    requires s2 == M.Goto(s, M.Top(s).pc + len).(slots := s2.slots, cells := s2.cells, closures := s2.closures,
                                                 captured := s2.captured)
    requires s3 == M.Called(fns, s2, m) && M.Top(s3).start == |s.slots| && Effect(places, s, places3, s3)
    requires Given(fns, places3, s3, places', t, x, v, w')
    ensures Valued(fns, places, s, len + 1, places', t, x, v, w')
  {
    hide Related, Effect;
    EffectOn(places, s, places3, s3, places', t);
    CellsGrow(places, s, places3, s3);
    assert s3.frames[..|s3.frames| - 1] == M.Goto(s, M.Top(s).pc + len + 1).frames;
    assert s3.slots[..|s.slots|] == s.slots;
  }

  // ----- Functions ------------------------------------------------------------------------------------------

  /** Where a function's code begins. */
  lemma {:induction false} FunctionCode(fns: seq<Function>, g: nat, params: seq<string>, body: seq<Definition>)
    returns (f: nat)
    requires IsFunction(fns, g, params, body)
    ensures g < |fns|
    ensures var at := Entry(params, ShapesOf(fns[g].outer));
            var b := OfDefs(body, |body|, 0, f, at, 0);
            && CodeAt(fns, g, 0, b, f, None)
            && PointsAt(fns[g], |b.points|, Tail(at.names + VarNames(body, |body|)), None)
  {
    var f0: nat :| CompiledFrom(fns, g, params, body, f0);
    f := f0;
    var around := ShapesOf(fns[g].outer);
    var at := Entry(params, around);
    var b := OfDefs(body, |body|, 0, f, at, 0);
    var tail := Tail(at.names + VarNames(body, |body|));
    var code := OfFunction(params, body, f, around);
    var q := OutlinesOf(fns);
    assert q[f..g + 1] == code == b.fns + [Outline(|params|, around, b.points + tail)];
    assert q[f..g] == q[f..g + 1][..|b.fns|] == b.fns;
    assert q[g] == q[f..g + 1][|b.fns|] == OutlineOf(fns[g]);
    hide OfDefs, OfFunction, VarNames;
    AllPoints(fns[g], b.points + tail);
    PointsSplit(fns[g], 0, b.points, tail, None);
  }

  lemma {:induction false} AllPoints(g: Function, points: seq<Point>)
    requires Points(g.code, g.names, g.kinds, {}) == points
    ensures PointsAt(g, 0, points, None)
  {
    forall i | 0 <= i < |points| ensures PointOf(g, 0 + i) == points[i] {
      assert Points(g.code, g.names, g.kinds, {})[i] == PointAt(g.code, g.names, g.kinds, {}, i);
    }
  }

  /** A function from its beginning to its return. */
  lemma {:induction false} SimBody(fns: seq<Function>, places: Places, s: M.State, params: seq<string>,
                                   body: seq<Definition>, env: Env, w: World, fuel: nat, at: Site)
    returns (n: nat, places': Places, x: nat)
    requires ProgramOk(fns) && Going(fns, places, s, env, w, at) && Exact(s, env) && M.Top(s).pc == 0
    requires IsFunction(fns, M.Top(s).fn, params, body) && at == Entry(params, ShapesOf(fns[M.Top(s).fn].outer))
    requires M.Top(s).extra > 0 ==> Bare(body)
    ensures var a := OutcomeOf(ExecDefs(body, |body|, env, w, fuel));
            if a.Val? then Given(fns, places, s, places', M.Follow(fns, s, n), x, a.v, a.w)
            else Stops(fns, s, n, a, fuel)
    decreases fuel, body, |body| + 1
  {
    hide ProgramOk, OfDefs, ExecDefs, Given, Stops, Related, FrameFits, IsFunction, CodeAt, Going, Exact, Ended,
         Defined, M.Follow, M.Shifts, M.Halted, VarNames, Bare;
    StillRuns(fns, places, s, env, w, at);
    var f := FunctionCode(fns, M.Top(s).fn, params, body);
    BareDefs(body);
    n, places', x := SimDefs(fns, places, s, body, |body|, env, w, fuel, at, f, 0, None);
    var r := ExecDefs(body, |body|, env, w, fuel);
    if r.Normal? {
      var b := OfDefs(body, |body|, 0, f, at, 0);
      var n1, y := SimEnd(fns, places, s, |b.points|, |VarNames(body, |body|)|, places', n, r.env, r.w,
                          With(at, VarNames(body, |body|)));
      n, x := n + n1, y;
    } else {
      EndedAll(fns, places, s, r, fuel, n, places', x);
    }
  }

  lemma {:induction false} BareDefs(body: seq<Definition>)
    ensures Bare(body) ==> forall i :: 0 <= i < |body| ==> BareDef(body[i])
  {
  }

  /** There is no break out of a function. */
  lemma {:induction false} EndedAll(fns: seq<Function>, places: Places, s: M.State, r: Outcome, fuel: nat, n: nat,
                                    places': Places, x: nat)
    requires s.frames != [] && !r.Normal? && Ended(fns, places, s, 0, None, r, fuel, n, places', x)
    ensures var a := OutcomeOf(r);
            if a.Val? then Given(fns, places, s, places', M.Follow(fns, s, n), x, a.v, a.w)
            else Stops(fns, s, n, a, fuel)
  {
  }

  /** The end of a function that does not return by itself. */
  lemma {:induction false} SimEnd(fns: seq<Function>, places: Places, s: M.State, len: nat, more: nat, places1: Places,
                                  n1: nat, env1: Env, w1: World, at1: Site)
    returns (n: nat, x: nat)
    requires s.frames != [] && M.Top(s).fn < |fns| && M.Top(s).start <= |s.slots|
    requires Defined(fns, places, s, len, more, places1, M.Follow(fns, s, n1), env1, w1, at1)
    requires PointsAt(fns[M.Top(s).fn], M.Top(s).pc + len, Tail(at1.names), None)
    ensures Given(fns, places, s, places1, M.Follow(fns, s, n1 + n), x, Null, w1)
  {
    hide Given, Related, FrameFits, Exact, PointsAt, Tail, M.Follow, M.Shifts, M.Halted, Effect;
    var t := M.Follow(fns, s, n1);
    n, x := SimTail(fns, places1, t, env1, w1, at1);
    M.FollowAppend(fns, s, n1, n);
    GivenOn(fns, places, s, M.Top(s).pc + len, places1, t, M.Follow(fns, t, n), x, Null, w1);
  }

  /** What is returned later. */
  lemma {:induction false} GivenOn(fns: seq<Function>, places: Places, s: M.State, q: nat, places1: Places, s1: M.State,
                                   s2: M.State, x: nat, v: Value, w2: World)
    requires s.frames != [] && Moved(places, s, q, places1, s1) && s.slots <= s1.slots && M.Top(s).start <= |s.slots|
    requires Given(fns, places1, s1, places1, s2, x, v, w2)
    ensures Given(fns, places, s, places1, s2, x, v, w2)
  {
    hide Related, Effect;
    EffectOn(places, s, places1, s1, places1, s2);
    CellsGrow(places, s, places1, s1);
    assert s1.slots[..M.Top(s).start] == s.slots[..M.Top(s).start];
    assert s1.frames[..|s1.frames| - 1] == s.frames[..|s.frames| - 1];
  }

  /** A function that does not return by itself returns null. */
  lemma {:induction false} SimTail(fns: seq<Function>, places: Places, s: M.State, env: Env, w: World, at: Site)
    returns (n: nat, x: nat)
    requires Going(fns, places, s, env, w, at) && M.Top(s).fn < |fns|
    requires PointsAt(fns[M.Top(s).fn], M.Top(s).pc, Tail(at.names), None)
    ensures Given(fns, places, s, places, M.Follow(fns, s, n), x, Null, w)
  {
    hide Related, FrameFits;
    StillRuns(fns, places, s, env, w, at);
    var g, pc := fns[M.Top(s).fn], M.Top(s).pc;
    var first, last := Point(Push(Null), Scope(at.names, 0)), Point(End, Scope(at.names, 1));
    assert Tail(at.names) == [first] + [last];
    PointsSplit(g, pc, [first], [last], None);
    OnlyPoint(g, pc, first, None);
    MarkIs(fns[M.Top(s).fn], M.Top(s).pc);
    PushOne(fns, places, s, w, Null);
    var s1 := M.Follow(fns, s, 1);
    GoesOn(fns, places, s, 1, places, s1, |s.cells|, Null, env, w, w, at);
    n, x := SimReturn(fns, places, s, 1, places, s1, |s.cells|, Null, env, w, at, None);
    M.FollowAppend(fns, s, 1, n);
    n := n + 1;
  }

  lemma {:induction false} PushOne(fns: seq<Function>, places: Places, s: M.State, w: World, v: Value)
    requires s.status == M.Running && M.Ready(fns, s) && M.Next(fns, s) == Instr.Constant(v)
             && Related(fns, places, w, s)
    ensures Valued(fns, places, s, 1, places, M.Follow(fns, s, 1), |s.cells|, v, w)
  {
    hide Related;
    OneStep(fns, s);
    PushVal(fns, places, s, w, v);
  }

  /** The return, after its value. */
  lemma {:induction false} SimReturn(fns: seq<Function>, places: Places, s: M.State, len: nat, places1: Places,
                                     s1: M.State, y: nat, v: Value, env: Env, w1: World, at: Site, end: Option<nat>)
    returns (n: nat, x: nat)
    requires s.frames != [] && M.Top(s).start <= |s.slots| && s.status == M.Running && M.Top(s).fn < |fns|
    requires Valued(fns, places, s, len, places1, s1, y, v, w1)
    requires PointsAt(fns[M.Top(s).fn], M.Top(s).pc + len, [Point(End, Scope(at.names, 1))], end)
    ensures Given(fns, places, s, places1, M.Follow(fns, s1, n), x, v, w1)
  {
    hide Related, Effect, Scope;
    OnlyPoint(fns[M.Top(s).fn], M.Top(s).pc + len, Point(End, Scope(at.names, 1)), end);
    Stay(Point(End, Scope(at.names, 1)), end);
    MarkIs(fns[M.Top(s).fn], M.Top(s).pc + len);
    OneStep(fns, s1);
    n, x := 1, |s1.cells|;
    var s2 := M.Returned(s1);
    assert M.LastValue(s1) == v;
    assert Effect(places1, s1, places1, s2) by {
      NoEffect(places1, s1, s2);
    }
    EffectOn(places, s, places1, s1, places1, s2);
    CellsGrow(places, s, places1, s1);
    MoreCells(fns, places1, w1, s1, s2);
    assert s1.slots[..M.Top(s).start] == s.slots[..M.Top(s).start];
    assert s1.frames[..|s1.frames| - 1] == s.frames[..|s.frames| - 1];
  }

  lemma {:induction false} MoreCells(fns: seq<Function>, places: Places, w: World, s: M.State, s': M.State)
    requires Related(fns, places, w, s) && s.cells <= s'.cells && s'.closures == s.closures
    ensures Related(fns, places, w, s') && forall x :: x in places ==> x < |s.cells|
  {
    hide ClosureFits;
    ClosuresMore(fns, places, places, w, w, s, s');
  }

  // ----- Definitions ----------------------------------------------------------------------------------------

  /** Definitions have been executed: the variables declared are above the slots there were. */
  ghost predicate Defined(fns: seq<Function>, places: Places, s: M.State, len: nat, more: nat, places': Places,
                          s': M.State, env': Env, w': World, at': Site)
    requires s.frames != []
  {
    && Moved(places, s, M.Top(s).pc + len, places', s') && s.slots <= s'.slots && |s'.slots| == |s.slots| + more
    && Going(fns, places', s', env', w', at') && Exact(s', env')
  }

  ghost predicate Shown(fns: seq<Function>, places: Places, s: M.State, len: nat, more: nat, k: nat, end: Option<nat>,
                        r: Outcome, fuel: nat, n: nat, places': Places, x: nat, at': Site)
    requires s.frames != []
  {
    if r.Normal? then Defined(fns, places, s, len, more, places', M.Follow(fns, s, n), r.env, r.w, at')
    else Ended(fns, places, s, k, end, r, fuel, n, places', x)
  }

  lemma {:induction false} SimDefs(fns: seq<Function>, places: Places, s: M.State, body: seq<Definition>, m: nat,
                                   env: Env, w: World, fuel: nat, at: Site, f: nat, k: nat, end: Option<nat>)
    returns (n: nat, places': Places, x: nat)
    requires m <= |body| && ProgramOk(fns) && Going(fns, places, s, env, w, at) && Exact(s, env) && k <= |at.names|
    requires CodeAt(fns, M.Top(s).fn, M.Top(s).pc, OfDefs(body, m, M.Top(s).pc, f, at, k), f, end)
    requires M.Top(s).extra > 0 ==> k == 0 && forall i :: 0 <= i < m ==> BareDef(body[i])
    ensures Shown(fns, places, s, |OfDefs(body, m, M.Top(s).pc, f, at, k).points|, |VarNames(body, m)|, k, end,
                  ExecDefs(body, m, env, w, fuel), fuel, n, places', x, With(at, VarNames(body, m)))
    decreases fuel, body, m
  {
    hide ProgramOk, CodeAt, Ended, Related, FrameFits, OfDef, ExecDef, BareDef, Going, Exact, Shown, M.Follow,
         M.Shifts, M.Halted, Effect;
    StillRuns(fns, places, s, env, w, at);
    if m == 0 {
      n, places', x := 0, places, 0;
      NoneShown(fns, places, s, env, w, k, end, fuel, at);
      return;
    }
    var pc, more := M.Top(s).pc, VarNames(body, m - 1);
    var a := OfDefs(body, m - 1, pc, f, at, k);
    var d := OfDef(body[m - 1], pc + |a.points|, f + |a.fns|, With(at, more), k + |more|);
    CodeSplit(fns, M.Top(s).fn, pc, a, d, f, end);
    n, places', x := SimDefs(fns, places, s, body, m - 1, env, w, fuel, at, f, k, end);
    var r := ExecDefs(body, m - 1, env, w, fuel);
    if !r.Normal? {
      SameEnd(fns, places, s, |a.points|, |more|, With(at, more), |a.points| + |d.points|, |VarNames(body, m)|, k, end,
              r,
              fuel, n, places', x, With(at, VarNames(body, m)));
      return;
    }
    var s1 := M.Follow(fns, s, n);
    DefinedHere(fns, places, s, |a.points|, |more|, k, end, r, fuel, n, places', x, With(at, more));
    if M.Top(s).extra > 0 {
      BareNames(body, m - 1);
    }
    var n1, places1, y := SimDef(fns, places', s1, body[m - 1], r.env, r.w, fuel, With(at, more), f + |a.fns|,
                                 k + |more|, end);
    var r1 := ExecDef(body[m - 1], r.env, r.w, fuel);
    var name := if body[m - 1].Var? then [body[m - 1].name] else [];
    StartBelow(s, env, at, fns, places, w);
    ShownOn(fns, places, s, |a.points|, |more|, places', n, r.env, r.w, at, more, |d.points|, name, k, end, r1, fuel,
            n1,
            places1, y);
    n, places', x := n + n1, places1, y;
  }

  lemma {:induction false} NoneShown(fns: seq<Function>, places: Places, s: M.State, env: Env, w: World, k: nat,
                                     end: Option<nat>, fuel: nat, at: Site)
    requires Going(fns, places, s, env, w, at) && Exact(s, env)
    ensures Shown(fns, places, s, 0, 0, k, end, Normal(env, w), fuel, 0, places, 0, With(at, []))
  {
    hide Related, FrameFits;
    NoEffect(places, s, s);
    assert at.names + [] == at.names;
  }

  lemma {:induction false} SameEnd(fns: seq<Function>, places: Places, s: M.State, len: nat, more: nat, at: Site,
                                   len': nat, more': nat, k: nat, end: Option<nat>, r: Outcome, fuel: nat, n: nat,
                                   places': Places, x: nat, at': Site)
    requires s.frames != [] && !r.Normal? && Shown(fns, places, s, len, more, k, end, r, fuel, n, places', x, at)
    ensures Shown(fns, places, s, len', more', k, end, r, fuel, n, places', x, at')
  {
  }

  lemma {:induction false} DefinedHere(fns: seq<Function>, places: Places, s: M.State, len: nat, more: nat, k: nat,
                                       end: Option<nat>, r: Outcome, fuel: nat, n: nat, places': Places, x: nat,
                                       at': Site)
    requires s.frames != [] && r.Normal? && Shown(fns, places, s, len, more, k, end, r, fuel, n, places', x, at')
    ensures var s' := M.Follow(fns, s, n);
            && Defined(fns, places, s, len, more, places', s', r.env, r.w, at')
            && Going(fns, places', s', r.env, r.w, at') && Exact(s', r.env)
            && s'.frames != [] && M.Top(s') == M.Top(s).(pc := M.Top(s).pc + len)
  {
  }

  /** Definitions, and one more. */
  lemma {:induction false} ShownOn(fns: seq<Function>, places: Places, s: M.State, len: nat, more: nat, places1: Places,
                                   n1: nat, env1: Env, w1: World, at: Site, names: seq<string>, len2: nat,
                                   name: seq<string>, k: nat, end: Option<nat>, r: Outcome, fuel: nat, n: nat,
                                   places': Places, x: nat)
    requires s.frames != [] && M.Top(s).start <= |s.slots| && k <= |s.slots| && |names| == more
    requires Defined(fns, places, s, len, more, places1, M.Follow(fns, s, n1), env1, w1, With(at, names))
    requires Shown(fns, places1, M.Follow(fns, s, n1), len2, |name|, k + more, end, r, fuel, n, places', x,
                   With(With(at, names), name))
    ensures Shown(fns, places, s, len + len2, more + |name|, k, end, r, fuel, n1 + n, places', x,
                  With(at, names + name))
  {
    hide Ended, Related, FrameFits, Going, M.Follow, M.Shifts, M.Halted, Effect, Exact;
    var s1 := M.Follow(fns, s, n1);
    M.FollowAppend(fns, s, n1, n);
    if r.Normal? {
      MovedOn(places, s, M.Top(s).pc + len, places1, s1, M.Top(s).pc + len + len2, places', M.Follow(fns, s1, n));
      Three(at.names, names, name);
    } else {
      EndedOn(fns, places, s, M.Top(s).pc + len, places1, n1, more, k, end, r, fuel, fuel, n, places', x);
    }
  }

  lemma {:induction false} BareNames(body: seq<Definition>, n: nat)
    requires n <= |body| && forall i :: 0 <= i < n ==> BareDef(body[i])
    ensures VarNames(body, n) == []
  {
    NoVars(body, n);
  }

  lemma {:induction false} StartBelow(s: M.State, env: Env, at: Site, fns: seq<Function>, places: Places, w: World)
    requires Going(fns, places, s, env, w, at) && Exact(s, env)
    ensures M.Top(s).start <= |s.slots| && |at.names| <= |s.slots| && |at.names| == |env[|env| - 1]|
  {
  }

  lemma {:induction false} SimDef(fns: seq<Function>, places: Places, s: M.State, def: Definition, env: Env, w: World,
                                  fuel: nat, at: Site, f: nat, k: nat, end: Option<nat>)
    returns (n: nat, places': Places, x: nat)
    requires ProgramOk(fns) && Going(fns, places, s, env, w, at) && Exact(s, env) && k <= |at.names|
    requires CodeAt(fns, M.Top(s).fn, M.Top(s).pc, OfDef(def, M.Top(s).pc, f, at, k), f, end)
    requires M.Top(s).extra > 0 ==> k == 0 && BareDef(def)
    ensures Shown(fns, places, s, |OfDef(def, M.Top(s).pc, f, at, k).points|, if def.Var? then 1 else 0, k, end,
                  ExecDef(def, env, w, fuel), fuel, n, places', x, With(at, if def.Var? then [def.name] else []))
    decreases fuel, def, 0
  {
    hide ProgramOk, CodeAt, Related, FrameFits, OfStmt, Exec, Valued;
    match def
    case Var(name, init) =>
      n, places', x := SimE(fns, places, s, init, env, w, fuel, at, 0, f, end);
      var a := Eval(init, env, w, fuel);
      if a.Val? {
        var s' := M.Follow(fns, s, n);
        DeclaredFits(fns, places, s, |OfExpr(init, f, at, 0).points|, places', s', x, a.v, env, w, a.w, at, name);
        places' := places' + [x];
      }
    case Plain(stmt) =>
      n, places', x := SimS(fns, places, s, stmt, env, w, fuel, at, f, k, end);
      assert at.names + [] == at.names;
      var r := Exec(stmt, env, w, fuel);
      if r.Normal? {
        PassedOn(fns, places, s, |OfStmt(stmt, M.Top(s).pc, f, at, k).points|, r.w, places', M.Follow(fns, s, n), env,
                 w,
                 at);
      }
  }

  /** After a statement all goes on as before. */
  lemma {:induction false} PassedOn(fns: seq<Function>, places: Places, s: M.State, len: nat, w': World,
                                    places': Places, s': M.State, env: Env, w: World, at: Site)
    requires Going(fns, places, s, env, w, at) && Passed(fns, places, s, len, w', places', s')
    ensures Going(fns, places', s', env, w', at) && (Exact(s, env) ==> Exact(s', env))
    ensures M.Top(s') == M.Top(s).(pc := M.Top(s).pc + len)
  {
    hide Related, FrameFits;
    SlotsThere(fns, places, s, env);
    CellsGrow(places, s, places', s');
    FrameMore(fns, places, places', env, M.Top(s), M.Top(s'), s.slots, s'.slots);
  }

  /** The last value becomes a variable. */
  lemma {:induction false} DeclaredFits(fns: seq<Function>, places: Places, s: M.State, len: nat, places1: Places,
                                        s1: M.State, x: nat, v: Value, env: Env, w: World, w1: World, at: Site,
                                        name: string)
    requires Going(fns, places, s, env, w, at) && Exact(s, env) && M.Top(s).extra == 0
    requires Valued(fns, places, s, len, places1, s1, x, v, w1)
    ensures var (env', w') := Declare(env, w1, name, v);
            Defined(fns, places, s, len, 1, places1 + [x], s1, env', w', With(at, [name]))
  {
    hide FunctionOk;
    GoesOn(fns, places, s, len, places1, s1, x, v, env, w, w1, at);
    var (env', w') := Declare(env, w1, name, v);
    var places' := places1 + [x];
    var scope := env[|env| - 1];
    var scope' := scope + [Binding(name, |w1.cells|)];
    assert env'[..|env| - 1] == env[..|env| - 1] && env'[|env| - 1] == scope';
    assert CellsFit(places', w', s1);
    ClosuresMore(fns, places1, places', w1, w', s1, s1);
    EnvMore(env, places1, places');
    assert EnvIn(env', places') by {
      forall l | 0 <= l < |env'| ensures InPlaces(env'[l], places') {
        assert InPlaces(env[l], places');
      }
    }
    UpvaluesMore(fns[M.Top(s1).fn], M.Top(s1).upvalues, env[..|env| - 1], places1, places');
    assert SlotsFit(places', scope', M.Top(s1).start, s1.slots) by {
      assert SlotsFit(places1, scope, M.Top(s1).start, s1.slots);
    }
    assert NamesOf(scope') == NamesOf(scope) + [name];
    assert Effect(places, s, places', s1);
  }

  // ----- Statements -----------------------------------------------------------------------------------------

  /** Locals are given up. */
  lemma {:induction false} SimDrops(fns: seq<Function>, s: M.State, names: seq<string>, n: nat, end: Option<nat>)
    requires s.status == M.Running && s.frames != [] && M.Top(s).fn < |fns| && n <= |names| && n <= |s.slots|
    requires PointsAt(fns[M.Top(s).fn], M.Top(s).pc, Drops(names, n), end)
    ensures M.Follow(fns, s, n) == M.Goto(s, M.Top(s).pc + n).(slots := s.slots[..|s.slots| - n])
  {
    hide PointsAt, Scope, M.Follow, M.Shifts, M.Step, M.Goto;
    if n == 0 {
      NoDrops(fns, s);
      return;
    }
    var g, pc := fns[M.Top(s).fn], M.Top(s).pc;
    var p := Point(Drop, Scope(names[..|names| - n + 1], 0));
    PointsSplit(g, pc, Drops(names, n - 1), [p], end);
    SimDrops(fns, s, names, n - 1, end);
    OnlyPoint(g, pc + n - 1, p, end);
    Stay(p, end);
    OneDrop(fns, s, n - 1);
  }

  lemma {:induction false} NoDrops(fns: seq<Function>, s: M.State)
    requires s.frames != []
    ensures M.Follow(fns, s, 0) == M.Goto(s, M.Top(s).pc).(slots := s.slots[..|s.slots|])
  {
  }

  /** One more. */
  lemma {:induction false} OneDrop(fns: seq<Function>, s: M.State, n: nat)
    requires s.status == M.Running && s.frames != [] && M.Top(s).fn < |fns| && n < |s.slots|
    requires M.Follow(fns, s, n) == M.Goto(s, M.Top(s).pc + n).(slots := s.slots[..|s.slots| - n])
    requires M.Top(s).pc + n < |fns[M.Top(s).fn].code|
    requires PointOf(fns[M.Top(s).fn], M.Top(s).pc + n).mark == Drop
    ensures M.Follow(fns, s, n + 1) == M.Goto(s, M.Top(s).pc + n + 1).(slots := s.slots[..|s.slots| - n - 1])
  {
    hide M.Follow, M.Shifts, PointOf;
    var s1 := M.Follow(fns, s, n);
    MarkIs(fns[M.Top(s).fn], M.Top(s).pc + n);
    OneStep(fns, s1);
    M.FollowAppend(fns, s, n, 1);
  }

  /** A point that is no open jump is the same in a loop. */
  lemma {:induction false} Stay(p: Point, end: Option<nat>)
    requires NotOpen(p)
    ensures Closed(p, end) == p
  {
  }

  lemma {:induction false} FillClosed(g: Function, pc: nat, points: seq<Point>, stop: nat, end: Option<nat>)
    requires PointsAt(g, pc, Fill(points, stop), end)
    ensures PointsAt(g, pc, points, Some(stop))
  {
    forall i | 0 <= i < |points| ensures PointOf(g, pc + i) == Closed(points[i], Some(stop)) {
      assert Fill(points, stop)[i] == Filled(points[i], stop);
      FilledOnce(points[i], stop);
      Stay(Filled(points[i], stop), end);
    }
  }

  /** The value of an expression is given up. */
  lemma {:induction false} ValueDropped(fns: seq<Function>, places: Places, s: M.State, len: nat, places1: Places,
                                        s1: M.State, y: nat, v: Value, w1: World, at: Site, f: nat, end: Option<nat>)
    requires s.frames != [] && s.status == M.Running && Valued(fns, places, s, len, places1, s1, y, v, w1)
    requires CodeAt(fns, M.Top(s).fn, M.Top(s).pc + len, Here(Drop, at, 1), f, end)
    ensures Passed(fns, places, s, len + 1, w1, places1, M.Follow(fns, s1, 1))
  {
    hide Related, Effect;
    Fetch(fns, M.Top(s).fn, M.Top(s).pc + len, Here(Drop, at, 1), f, end, 0);
    Stay(Point(Drop, Scope(at.names, 1)), end);
    MarkIs(fns[M.Top(s).fn], M.Top(s).pc + len);
    OneStep(fns, s1);
    Settled(fns, places, s, s1, M.Step(fns, s1), places1, w1);
  }

  lemma {:induction false} Settled(fns: seq<Function>, places: Places, s: M.State, s1: M.State, s2: M.State,
                                   places1: Places, w1: World)
    requires Related(fns, places1, w1, s1) && Effect(places, s, places1, s1)
    requires s2.cells == s1.cells && s2.closures == s1.closures
    ensures Related(fns, places1, w1, s2) && Effect(places, s, places1, s2)
  {
    hide Related;
    RelatedGoto(fns, places1, w1, s1, s2);
  }

  /** A condition decides where to go on. */
  lemma {:induction false} Decided(fns: seq<Function>, places: Places, s: M.State, len: nat, places1: Places,
                                   s1: M.State, y: nat, v: Value, w1: World, target: nat, n: nat)
    requires s.frames != [] && s.status == M.Running && Valued(fns, places, s, len, places1, s1, y, v, w1)
    requires M.Top(s).fn < |fns| && M.Top(s).pc + len < |fns[M.Top(s).fn].code| && M.Top(s).pc <= target
    requires PointOf(fns[M.Top(s).fn], M.Top(s).pc + len).mark == Unless(target) && s1 == M.Follow(fns, s, n)
    ensures Passed(fns, places, s, if Falsy(v) then target - M.Top(s).pc else len + 1, w1, places1,
                   M.Follow(fns, s, n + 1))
  {
    hide Related, Effect;
    MarkIs(fns[M.Top(s).fn], M.Top(s).pc + len);
    OneStep(fns, s1);
    assert M.LastValue(s1) == v;
    Settled(fns, places, s, s1, M.Step(fns, s1), places1, w1);
    M.FollowAppend(fns, s, n, 1);
  }

  lemma {:induction false} SimDo(fns: seq<Function>, places: Places, s: M.State, stmt: Stmt, env: Env, w: World,
                                 fuel: nat, at: Site, f: nat, k: nat, end: Option<nat>)
    returns (n: nat, places': Places, x: nat)
    requires stmt.Do? && ProgramOk(fns) && Going(fns, places, s, env, w, at) && k <= |at.names|
    requires CodeAt(fns, M.Top(s).fn, M.Top(s).pc, OfStmt(stmt, M.Top(s).pc, f, at, k), f, end)
    ensures Done(fns, places, s, |OfStmt(stmt, M.Top(s).pc, f, at, k).points|, k, end, Exec(stmt, env, w, fuel), fuel,
                 n, places', x)
    decreases fuel, stmt, 4
  {
    hide ProgramOk, CodeAt, FrameFits, Related, Valued, OfExpr, Eval, Passed;
    var c := OfExpr(stmt.e, f, at, 0);
    CodeSplit(fns, M.Top(s).fn, M.Top(s).pc, c, Here(Drop, at, 1), f, end);
    n, places', x := SimE(fns, places, s, stmt.e, env, w, fuel, at, 0, f, end);
    var a := Eval(stmt.e, env, w, fuel);
    if a.Val? {
      ValueDropped(fns, places, s, |c.points|, places', M.Follow(fns, s, n), x, a.v, a.w, at, f + |c.fns|, end);
      M.FollowAppend(fns, s, n, 1);
      n := n + 1;
    }
  }

  lemma {:induction false} SimReturnOf(fns: seq<Function>, places: Places, s: M.State, stmt: Stmt, env: Env, w: World,
                                       fuel: nat, at: Site, f: nat, k: nat, end: Option<nat>)
    returns (n: nat, places': Places, x: nat)
    requires stmt.ReturnOf? && ProgramOk(fns) && Going(fns, places, s, env, w, at) && k <= |at.names|
    requires CodeAt(fns, M.Top(s).fn, M.Top(s).pc, OfStmt(stmt, M.Top(s).pc, f, at, k), f, end) && Exact(s, env)
    ensures Done(fns, places, s, |OfStmt(stmt, M.Top(s).pc, f, at, k).points|, k, end, Exec(stmt, env, w, fuel), fuel,
                 n, places', x)
    decreases fuel, stmt, 4
  {
    hide ProgramOk, FrameFits, Related, Valued, OfExpr, Eval, Given;
    var c := OfExpr(stmt.e, f, at, 0);
    CodeSplit(fns, M.Top(s).fn, M.Top(s).pc, c, Here(End, at, 1), f, end);
    n, places', x := SimE(fns, places, s, stmt.e, env, w, fuel, at, 0, f, end);
    var a := Eval(stmt.e, env, w, fuel);
    if a.Val? {
      var n1, y := SimReturn(fns, places, s, |c.points|, places', M.Follow(fns, s, n), x, a.v, env, a.w, at, end);
      M.FollowAppend(fns, s, n, n1);
      n, x := n + n1, y;
    }
  }

  lemma {:induction false} SimBreak(fns: seq<Function>, places: Places, s: M.State, env: Env, w: World, at: Site,
                                    f: nat, k: nat, end: Option<nat>)
    requires Going(fns, places, s, env, w, at) && k <= |at.names| && Exact(s, env)
    requires CodeAt(fns, M.Top(s).fn, M.Top(s).pc, OfStmt(Break, M.Top(s).pc, f, at, k), f, end)
    ensures Left(fns, places, s, k, end, places, M.Follow(fns, s, k + 1), w)
  {
    hide FrameFits, Related, Effect, Drops, PointsAt, FnsAt, Scope, Exact, M.Follow, M.Shifts, M.Halted;
    StartBelow(s, env, at, fns, places, w);
    StillRuns(fns, places, s, env, w, at);
    var g, pc := fns[M.Top(s).fn], M.Top(s).pc;
    var p := Point(Hole, Scope(at.names[..|at.names| - k], 0));
    PointsSplit(g, pc, Drops(at.names, k), [p], end);
    SimDrops(fns, s, at.names, k, end);
    var s1 := M.Follow(fns, s, k);
    OnlyPoint(g, pc + k, p, end);
    MarkIs(g, pc + k);
    OneStep(fns, s1);
    M.FollowAppend(fns, s, k, 1);
    var s2 := M.Step(fns, s1);
    RelatedGoto(fns, places, w, s, s2);
    NoEffect(places, s, s2);
  }

  lemma {:induction false} SimBlock(fns: seq<Function>, places: Places, s: M.State, stmt: Stmt, env: Env, w: World,
                                    fuel: nat, at: Site, f: nat, k: nat, end: Option<nat>)
    returns (n: nat, places': Places, x: nat)
    requires stmt.Block? && ProgramOk(fns) && Going(fns, places, s, env, w, at) && Exact(s, env) && k <= |at.names|
    requires CodeAt(fns, M.Top(s).fn, M.Top(s).pc, OfStmt(stmt, M.Top(s).pc, f, at, k), f, end)
    requires M.Top(s).extra > 0 ==> k == 0 && BareStmt(stmt)
    ensures Done(fns, places, s, |OfStmt(stmt, M.Top(s).pc, f, at, k).points|, k, end, Exec(stmt, env, w, fuel), fuel,
                 n, places', x)
    decreases fuel, stmt, 4
  {
    hide ProgramOk, FrameFits, Related, Effect, OfDefs, ExecDefs, Ended, CodeAt, Going, M.Follow, M.Shifts, M.Halted,
         Drops, VarNames, Defined;
    StillRuns(fns, places, s, env, w, at);
    var more := VarNames(stmt.parts, |stmt.parts|);
    var pc := M.Top(s).pc;
    var a := OfDefs(stmt.parts, |stmt.parts|, pc, f, at, k);
    CodeSplit(fns, M.Top(s).fn, pc, a, Mere(Drops(at.names + more, |more|)), f, end);
    n, places', x := SimDefs(fns, places, s, stmt.parts, |stmt.parts|, env, w, fuel, at, f, k, end);
    var r := ExecDefs(stmt.parts, |stmt.parts|, env, w, fuel);
    if r.Normal? {
      BlockLeft(fns, places, s, |a.points|, at.names + more, |more|, n, places', r.env, r.w,
                With(at, more), f + |a.fns|, end);
      n := n + |more|;
    }
  }

  /** The variables of a block are given up at its end. */
  lemma {:induction false} BlockLeft(fns: seq<Function>, places: Places, s: M.State, len: nat, names: seq<string>,
                                     more: nat, n: nat, places': Places, env': Env, w': World, at': Site, f: nat,
                                     end: Option<nat>)
    requires s.frames != [] && s.status == M.Running && M.Top(s).fn < |fns| && more <= |names|
    requires Defined(fns, places, s, len, more, places', M.Follow(fns, s, n), env', w', at')
    requires CodeAt(fns, M.Top(s).fn, M.Top(s).pc + len, Mere(Drops(names, more)), f, end)
    ensures Passed(fns, places, s, len + more, w', places', M.Follow(fns, s, n + more))
  {
    hide FrameFits, Related, Effect, M.Follow, M.Shifts, M.Halted, Drops, PointsAt, FnsAt;
    var s1 := M.Follow(fns, s, n);
    SimDrops(fns, s1, names, more, end);
    M.FollowAppend(fns, s, n, more);
    var s2 := M.Follow(fns, s1, more);
    Settled(fns, places, s, s1, s2, places', w');
    assert s2.slots == s.slots;
  }

  /** A statement in this one's code, at a later instruction. */
  lemma {:induction false} SimPart(fns: seq<Function>, places: Places, s: M.State, len: nat, places1: Places, n1: nat,
                                   stmt: Stmt, env: Env, w: World, w1: World, fuel: nat, at: Site, f: nat, k: nat,
                                   end: Option<nat>)
    returns (n: nat, places': Places, x: nat)
    requires ProgramOk(fns) && Going(fns, places, s, env, w, at) && Exact(s, env) && k <= |at.names|
    requires Passed(fns, places, s, len, w1, places1, M.Follow(fns, s, n1))
    requires var pc := M.Top(s).pc + len;
             CodeAt(fns, M.Top(s).fn, pc, OfStmt(stmt, pc, f, at, k), f, end)
    requires M.Top(s).extra > 0 ==> k == 0 && BareStmt(stmt)
    ensures var pc := M.Top(s).pc + len;
            Done(fns, places, s, len + |OfStmt(stmt, pc, f, at, k).points|, k, end, Exec(stmt, env, w1, fuel), fuel, n,
                 places', x)
    decreases fuel, stmt, 6
  {
    hide ProgramOk, FrameFits, Related, Effect, CodeAt, OfStmt, Exec, Done, BareStmt, Going, Exact, M.Follow, M.Shifts,
         M.Halted, Passed;
    StillRuns(fns, places, s, env, w, at);
    var pc := M.Top(s).pc + len;
    var s1 := M.Follow(fns, s, n1);
    PassedOn(fns, places, s, len, w1, places1, s1, env, w, at);
    StartBelow(s, env, at, fns, places, w);
    ThereNow(fns, places, s, len, w1, places1, s1);
    n, places', x := SimS(fns, places1, s1, stmt, env, w1, fuel, at, f, k, end);
    var m := |OfStmt(stmt, pc, f, at, k).points|;
    DoneOn(fns, places, s, pc, places1, n1, m, k, end, Exec(stmt, env, w1, fuel), fuel, fuel, n, places', x, len + m);
    n := n1 + n;
  }

  lemma {:induction false} SimIf(fns: seq<Function>, places: Places, s: M.State, stmt: Stmt, env: Env, w: World,
                                 fuel: nat, at: Site, f: nat, k: nat, end: Option<nat>)
    returns (n: nat, places': Places, x: nat)
    requires stmt.If? && ProgramOk(fns) && Going(fns, places, s, env, w, at) && Exact(s, env) && k <= |at.names|
    requires CodeAt(fns, M.Top(s).fn, M.Top(s).pc, OfStmt(stmt, M.Top(s).pc, f, at, k), f, end)
    requires M.Top(s).extra > 0 ==> k == 0 && BareStmt(stmt)
    ensures Done(fns, places, s, |OfStmt(stmt, M.Top(s).pc, f, at, k).points|, k, end, Exec(stmt, env, w, fuel), fuel,
                 n, places', x)
    decreases fuel, stmt, 4
  {
    hide ProgramOk, Going, Exact, CodeAt, Valued, OfExpr, OfStmt, Eval, Passed, M.Follow, M.Shifts, M.Halted, M.Top,
         Left, Given;
    StillRuns(fns, places, s, env, w, at);
    var pc := M.Top(s).pc;
    var c := OfExpr(stmt.cond, f, at, 0);
    var t := OfStmt(stmt.thenBranch, pc + |c.points| + 1, f + |c.fns|, at, k);
    IfCode(stmt, pc, f, at, k);
    TestAt(fns, M.Top(s).fn, pc, c, Test(Unless(pc + |c.points| + 1 + |t.points|), at), t, f, end);
    n, places', x := SimE(fns, places, s, stmt.cond, env, w, fuel, at, 0, f, end);
    var a := Eval(stmt.cond, env, w, fuel);
    if a.Val? {
      StillRuns(fns, places, s, env, w, at);
      Decided(fns, places, s, |c.points|, places', M.Follow(fns, s, n), x, a.v, a.w, pc + |c.points| + 1 + |t.points|,
              n);
      n := n + 1;
      if !Falsy(a.v) {
        n, places', x := SimPart(fns, places, s, |c.points| + 1, places', n, stmt.thenBranch, env, w, a.w, fuel, at,
                                 f + |c.fns|, k, end);
      }
    }
  }

  /** A condition, its test, and what comes after. */
  lemma {:induction false} TestAt(fns: seq<Function>, g: nat, pc: nat, c: Code, p: Point, t: Code, f: nat,
                                  end: Option<nat>)
    requires CodeAt(fns, g, pc, Code(c.points + [p] + t.points, c.fns + t.fns), f, end)
    ensures g < |fns| && CodeAt(fns, g, pc, c, f, end)
    ensures pc + |c.points| < |fns[g].code| && PointOf(fns[g], pc + |c.points|) == Closed(p, end)
    ensures CodeAt(fns, g, pc + |c.points| + 1, t, f + |c.fns|, end)
    ensures NotOpen(p) ==> Closed(p, end) == p
  {
    hide FnsAt;
    PointsSplit(fns[g], pc, c.points + [p], t.points, end);
    PointsSplit(fns[g], pc, c.points, [p], end);
    OnlyPoint(fns[g], pc + |c.points|, p, end);
    FnsSplit(fns, f, c.fns, t.fns);
    if NotOpen(p) {
      Stay(p, end);
    }
  }

  lemma {:induction false} SimIfElse(fns: seq<Function>, places: Places, s: M.State, stmt: Stmt, env: Env, w: World,
                                     fuel: nat, at: Site, f: nat, k: nat, end: Option<nat>)
    returns (n: nat, places': Places, x: nat)
    requires stmt.IfElse? && ProgramOk(fns) && Going(fns, places, s, env, w, at) && Exact(s, env) && k <= |at.names|
    requires CodeAt(fns, M.Top(s).fn, M.Top(s).pc, OfStmt(stmt, M.Top(s).pc, f, at, k), f, end)
    requires M.Top(s).extra > 0 ==> k == 0 && BareStmt(stmt)
    ensures Done(fns, places, s, |OfStmt(stmt, M.Top(s).pc, f, at, k).points|, k, end, Exec(stmt, env, w, fuel), fuel,
                 n, places', x)
    decreases fuel, stmt, 4
  {
    hide ProgramOk, Going, Exact, CodeAt, Valued, OfExpr, OfStmt, Eval, Passed, Done, M.Follow, M.Shifts, M.Halted,
         M.Top;
    StillRuns(fns, places, s, env, w, at);
    var pc := M.Top(s).pc;
    var c := OfExpr(stmt.cond, f, at, 0);
    var t := OfStmt(stmt.thenBranch, pc + |c.points| + 1, f + |c.fns|, at, k);
    var q := pc + |c.points| + 1 + |t.points| + 1;
    var e := OfStmt(stmt.elseBranch, q, f + |c.fns| + |t.fns|, at, k);
    IfElseCode(stmt, pc, f, at, k);
    BranchesAt(fns, M.Top(s).fn, pc, c, Test(Unless(q), at), t, Plainly(Goto(q + |e.points|), at), e, f, end);
    n, places', x := SimE(fns, places, s, stmt.cond, env, w, fuel, at, 0, f, end);
    var a := Eval(stmt.cond, env, w, fuel);
    if !a.Val? {
      NotDone(fns, places, s, a, fuel, n, places', x, q + |e.points| - pc, k, end);
      return;
    }
    StillRuns(fns, places, s, env, w, at);
    Decided(fns, places, s, |c.points|, places', M.Follow(fns, s, n), x, a.v, a.w, q, n);
    n := n + 1;
    if Falsy(a.v) {
      n, places', x := SimPart(fns, places, s, q - pc, places', n, stmt.elseBranch, env, w, a.w, fuel, at,
                               f + |c.fns| + |t.fns|, k, end);
    } else {
      n, places', x := SimPart(fns, places, s, |c.points| + 1, places', n, stmt.thenBranch, env, w, a.w, fuel, at,
                               f + |c.fns|, k, end);
      var r := Exec(stmt.thenBranch, env, a.w, fuel);
      n := JumpedOn(fns, places, s, |c.points| + 1 + |t.points|, k, end, r, fuel, n, places', x, q + |e.points|);
    }
  }

  lemma {:induction false} NotDone(fns: seq<Function>, places: Places, s: M.State, a: Answer, fuel: nat, n: nat,
                                   places': Places, x: nat, len: nat, k: nat, end: Option<nat>)
    requires s.frames != [] && Stops(fns, s, n, a, fuel)
    ensures Done(fns, places, s, len, k, end, Stopped(a), fuel, n, places', x)
  {
  }

  /** A condition, its test, a branch, the jump after it, and the other branch. */
  lemma {:induction false} BranchesAt(fns: seq<Function>, g: nat, pc: nat, c: Code, p: Point, t: Code, j: Point,
                                      e: Code, f: nat, end: Option<nat>)
    requires CodeAt(fns, g, pc, Code(c.points + [p] + t.points + [j] + e.points, c.fns + t.fns + e.fns), f, end)
    requires NotOpen(p) && NotOpen(j)
    ensures g < |fns| && CodeAt(fns, g, pc, c, f, end)
    ensures pc + |c.points| < |fns[g].code| && PointOf(fns[g], pc + |c.points|) == p
    ensures CodeAt(fns, g, pc + |c.points| + 1, t, f + |c.fns|, end)
    ensures var q := pc + |c.points| + 1 + |t.points|;
            && q < |fns[g].code| && PointOf(fns[g], q) == j
            && CodeAt(fns, g, q + 1, e, f + |c.fns| + |t.fns|, end)
  {
    hide CodeAt;
    var first := Code(c.points + [p] + t.points, c.fns + t.fns);
    TestAt(fns, g, pc, first, j, e, f, end);
    TestAt(fns, g, pc, c, p, t, f, end);
  }

  /** A jump over the other branch. */
  lemma {:induction false} JumpedOn(fns: seq<Function>, places: Places, s: M.State, len: nat, k: nat, end: Option<nat>,
                                    r: Outcome, fuel: nat, n: nat, places': Places, x: nat, target: nat)
    returns (n': nat)
    requires s.frames != [] && s.status == M.Running && M.Top(s).fn < |fns| && M.Top(s).pc <= target
    requires Done(fns, places, s, len, k, end, r, fuel, n, places', x)
    requires M.Top(s).pc + len < |fns[M.Top(s).fn].code|
    requires PointOf(fns[M.Top(s).fn], M.Top(s).pc + len).mark == Goto(target)
    ensures Done(fns, places, s, target - M.Top(s).pc, k, end, r, fuel, n', places', x)
  {
    hide Related, Effect, Ended;
    n' := n;
    if r.Normal? {
      var s1 := M.Follow(fns, s, n);
      MarkIs(fns[M.Top(s).fn], M.Top(s).pc + len);
      OneStep(fns, s1);
      M.FollowAppend(fns, s, n, 1);
      Settled(fns, places, s, s1, M.Step(fns, s1), places', r.w);
      n' := n + 1;
    }
  }

  // ----- Loops ----------------------------------------------------------------------------------------------

  /** A loop: its condition, the test, its body, and the way back. */
  lemma {:induction false} LoopAt(fns: seq<Function>, g: nat, pc: nat, c: Code, at: Site, t: Code, f: nat,
                                  end: Option<nat>)
    requires var loop := c.points + [Test(HoleUnless, at)] + t.points + [Plainly(Back(pc), at)];
             CodeAt(fns, g, pc, Code(Fill(loop, pc + |loop|), c.fns + t.fns), f, end)
    ensures var back := pc + |c.points| + 1 + |t.points|;
            var stop := Some(back + 1);
            && g < |fns| && back < |fns[g].code| && PointOf(fns[g], back).mark == Back(pc)
            && PointOf(fns[g], pc + |c.points|).mark == Unless(back + 1)
            && CodeAt(fns, g, pc, c, f, stop) && CodeAt(fns, g, pc + |c.points| + 1, t, f + |c.fns|, stop)
  {
    var test, last := Test(HoleUnless, at), Plainly(Back(pc), at);
    var first := c.points + [test] + t.points;
    var loop := first + [last];
    var back := pc + |first|;
    var stop := Some(back + 1);
    FillClosed(fns[g], pc, loop, back + 1, end);
    hide FnsAt;
    PointsSplit(fns[g], pc, first, [last], stop);
    OnlyPoint(fns[g], back, last, stop);
    assert CodeAt(fns, g, pc, Code(first, c.fns + t.fns), f, stop);
    hide CodeAt, PointsAt;
    TestAt(fns, g, pc, c, test, t, f, stop);
  }

  lemma {:induction false} SimWhile(fns: seq<Function>, places: Places, s: M.State, stmt: Stmt, env: Env, w: World,
                                    fuel: nat, at: Site, f: nat, k: nat, end: Option<nat>)
    returns (n: nat, places': Places, x: nat)
    requires stmt.While? && ProgramOk(fns) && Going(fns, places, s, env, w, at) && Exact(s, env) && k <= |at.names|
    requires CodeAt(fns, M.Top(s).fn, M.Top(s).pc, OfStmt(stmt, M.Top(s).pc, f, at, k), f, end)
    requires M.Top(s).extra > 0 ==> k == 0 && BareStmt(stmt)
    ensures Done(fns, places, s, |OfStmt(stmt, M.Top(s).pc, f, at, k).points|, k, end, Exec(stmt, env, w, fuel), fuel,
                 n, places', x)
    decreases fuel, stmt, 4
  {
    hide ProgramOk, Going, Exact, CodeAt, Valued, OfExpr, OfStmt, Eval, Passed, Done, M.Follow, M.Shifts, M.Halted,
         M.Top;
    StillRuns(fns, places, s, env, w, at);
    var pc := M.Top(s).pc;
    var c := OfExpr(stmt.cond, f, at, 0);
    var t := OfStmt(stmt.body, pc + |c.points| + 1, f + |c.fns|, at, 0);
    var back := pc + |c.points| + 1 + |t.points|;
    WhileCode(stmt, pc, f, at, k);
    LoopAt(fns, M.Top(s).fn, pc, c, at, t, f, end);
    var len := |OfStmt(stmt, pc, f, at, k).points|;
    assert pc + len == back + 1;
    n, places', x := SimE(fns, places, s, stmt.cond, env, w, fuel, at, 0, f, Some(back + 1));
    var a := Eval(stmt.cond, env, w, fuel);
    if !a.Val? {
      NotDone(fns, places, s, a, fuel, n, places', x, len, k, end);
      return;
    }
    StillRuns(fns, places, s, env, w, at);
    Decided(fns, places, s, |c.points|, places', M.Follow(fns, s, n), x, a.v, a.w, back + 1, n);
    n := n + 1;
    if Falsy(a.v) {
      NowDone(fns, places, s, len, k, end, env, a.w, fuel, n, places', x);
      return;
    }
    n, places', x := SimPart(fns, places, s, |c.points| + 1, places', n, stmt.body, env, w, a.w, fuel, at, f + |c.fns|,
                             0,
                             Some(back + 1));
    var r := Exec(stmt.body, env, a.w, fuel);
    if r.Normal? && fuel > 0 {
      NormallyDone(fns, places, s, back - pc, 0, Some(back + 1), r, fuel, n, places', x);
      n, places', x := SimAgain(fns, places, s, stmt, env, w, fuel, at, f, k, end, back - pc, r.w, n, places', x);
    } else {
      LoopEnds(fns, places, s, back - pc, k, end, env, r, fuel, n, places', x, pc);
    }
  }

  lemma {:induction false} NowDone(fns: seq<Function>, places: Places, s: M.State, len: nat, k: nat, end: Option<nat>,
                                   env: Env, w': World, fuel: nat, n: nat, places': Places, x: nat)
    requires s.frames != [] && Passed(fns, places, s, len, w', places', M.Follow(fns, s, n))
    ensures Done(fns, places, s, len, k, end, Normal(env, w'), fuel, n, places', x)
  {
  }

  lemma {:induction false} NormallyDone(fns: seq<Function>, places: Places, s: M.State, len: nat, k: nat,
                                        end: Option<nat>, r: Outcome, fuel: nat, n: nat, places': Places, x: nat)
    requires s.frames != [] && Done(fns, places, s, len, k, end, r, fuel, n, places', x) && r.Normal?
    ensures Passed(fns, places, s, len, r.w, places', M.Follow(fns, s, n))
  {
  }

  /** The body has been executed, and the loop does not go on. */
  lemma {:induction false} LoopEnds(fns: seq<Function>, places: Places, s: M.State, len: nat, k: nat, end: Option<nat>,
                                    env: Env, r: Outcome, fuel: nat, n: nat, places': Places, x: nat, pc: nat)
    requires s.frames != [] && s.status == M.Running && M.Top(s).fn < |fns| && M.Top(s).pc == pc
    requires Done(fns, places, s, len, 0, Some(pc + len + 1), r, fuel, n, places', x)
    requires pc + len < |fns[M.Top(s).fn].code| && PointOf(fns[M.Top(s).fn], pc + len).mark == Back(pc)
    requires r.Normal? ==> fuel == 0
    ensures Done(fns, places, s, len + 1, k, end,
                 if r.Broke? then Normal(env, r.w) else if r.Normal? then Stopped(OutOfFuel) else r, fuel, n, places',
                     x)
  {
    hide Related, Effect;
    if r.Broke? {
      var s1 := M.Follow(fns, s, n);
      assert s1.slots == s.slots;
    } else if r.Normal? {
      MarkIs(fns[M.Top(s).fn], pc + len);
    }
  }

  lemma {:induction false} StepBack(fns: seq<Function>, places: Places, s: M.State, len: nat, w1: World,
                                    places1: Places, n: nat)
    requires s.frames != [] && s.status == M.Running && M.Top(s).fn < |fns|
    requires Passed(fns, places, s, len, w1, places1, M.Follow(fns, s, n))
    requires M.Top(s).pc + len < |fns[M.Top(s).fn].code|
    requires PointOf(fns[M.Top(s).fn], M.Top(s).pc + len).mark == Back(M.Top(s).pc)
    ensures Passed(fns, places, s, 0, w1, places1, M.Follow(fns, s, n + 1))
  {
    hide Related, Effect, M.Follow, M.Shifts;
    var s1 := M.Follow(fns, s, n);
    MarkIs(fns[M.Top(s).fn], M.Top(s).pc + len);
    OneStep(fns, s1);
    M.FollowAppend(fns, s, n, 1);
    Settled(fns, places, s, s1, M.Step(fns, s1), places1, w1);
  }

  lemma {:induction false} ThereNow(fns: seq<Function>, places: Places, s: M.State, len: nat, w1: World,
                                    places1: Places, s1: M.State)
    requires s.frames != [] && Passed(fns, places, s, len, w1, places1, s1)
    ensures Moved(places, s, M.Top(s).pc + len, places1, s1) && s1.slots == s.slots
  {
  }

  /** The way back, and the loop again. */
  lemma {:induction false} SimAgain(fns: seq<Function>, places: Places, s: M.State, stmt: Stmt, env: Env, w: World,
                                    fuel: nat, at: Site, f: nat, k: nat, end: Option<nat>, len: nat, w1: World, n1: nat,
                                    places1: Places, y: nat)
    returns (n: nat, places': Places, x: nat)
    requires stmt.While? && ProgramOk(fns) && Going(fns, places, s, env, w, at) && Exact(s, env) && k <= |at.names|
    requires CodeAt(fns, M.Top(s).fn, M.Top(s).pc, OfStmt(stmt, M.Top(s).pc, f, at, k), f, end)
    requires M.Top(s).extra > 0 ==> k == 0 && BareStmt(stmt)
    requires Passed(fns, places, s, len, w1, places1, M.Follow(fns, s, n1)) && fuel > 0
    requires M.Top(s).fn < |fns| && M.Top(s).pc + len < |fns[M.Top(s).fn].code|
    requires PointOf(fns[M.Top(s).fn], M.Top(s).pc + len).mark == Back(M.Top(s).pc)
    ensures Done(fns, places, s, |OfStmt(stmt, M.Top(s).pc, f, at, k).points|, k, end, Exec(stmt, env, w1, fuel - 1),
                 fuel, n, places', x)
    decreases fuel, stmt, 3
  {
    hide ProgramOk, FrameFits, Related, CodeAt, OfStmt, Exec, Done, BareStmt, Effect, Going, Exact, M.Follow, M.Shifts,
         M.Halted, Passed;
    StillRuns(fns, places, s, env, w, at);
    var pc := M.Top(s).pc;
    StepBack(fns, places, s, len, w1, places1, n1);
    var s2 := M.Follow(fns, s, n1 + 1);
    PassedOn(fns, places, s, 0, w1, places1, s2, env, w, at);
    StartBelow(s, env, at, fns, places, w);
    ThereNow(fns, places, s, 0, w1, places1, s2);
    n, places', x := SimS(fns, places1, s2, stmt, env, w1, fuel - 1, at, f, k, end);
    var m := |OfStmt(stmt, pc, f, at, k).points|;
    DoneOn(fns, places, s, pc, places1, n1 + 1, m, k, end, Exec(stmt, env, w1, fuel - 1), fuel - 1, fuel, n, places', x,
           m);
    n := n1 + 1 + n;
  }

  /** The machine does what a statement means: the slots are as they were afterwards, a break gives up the slots of the
      loop's locals and goes to its end, and a return leaves the function. */
  lemma {:induction false} SimS(fns: seq<Function>, places: Places, s: M.State, stmt: Stmt, env: Env, w: World,
                                fuel: nat, at: Site, f: nat, k: nat, end: Option<nat>)
    returns (n: nat, places': Places, x: nat)
    requires ProgramOk(fns) && Going(fns, places, s, env, w, at) && Exact(s, env) && k <= |at.names|
    requires CodeAt(fns, M.Top(s).fn, M.Top(s).pc, OfStmt(stmt, M.Top(s).pc, f, at, k), f, end)
    requires M.Top(s).extra > 0 ==> k == 0 && BareStmt(stmt)
    ensures Done(fns, places, s, |OfStmt(stmt, M.Top(s).pc, f, at, k).points|, k, end, Exec(stmt, env, w, fuel), fuel,
                 n, places', x)
    decreases fuel, stmt, 5
  {
    hide ProgramOk, Going, CodeAt, FrameFits, Related;
    match stmt
    case Do(_) =>
      hide *;
      n, places', x := SimDo(fns, places, s, stmt, env, w, fuel, at, f, k, end);
    case ReturnOf(_) =>
      hide *;
      n, places', x := SimReturnOf(fns, places, s, stmt, env, w, fuel, at, f, k, end);
    case Break =>
      SimBreak(fns, places, s, env, w, at, f, k, end);
      n, places', x := k + 1, places, 0;
    case Block(_) =>
      hide *;
      n, places', x := SimBlock(fns, places, s, stmt, env, w, fuel, at, f, k, end);
    case If(_, _) =>
      hide *;
      n, places', x := SimIf(fns, places, s, stmt, env, w, fuel, at, f, k, end);
    case IfElse(_, _, _) =>
      hide *;
      n, places', x := SimIfElse(fns, places, s, stmt, env, w, fuel, at, f, k, end);
    case While(_, _) =>
      hide *;
      n, places', x := SimWhile(fns, places, s, stmt, env, w, fuel, at, f, k, end);
  }
}

/** The compiler for functions within functions: blocks, loops and closures. */
module FunctionCompiler {
  import opened Basics
  import opened Wrappers
  import opened Closures
  import opened Functions
  import opened Drafts
  import opened FunctionSyntax
  import opened Outlines
  import opened Limits

  /** The innermost loop around a statement, if any: the depth of its scope. */
  type LoopScope = Option<int>

  // ----- Legal programs -------------------------------------------------------------------------------------

  /** A local as far as its scope goes. */
  datatype NameAt = NameAt(name: string, depth: int)

  /** The locals in scope, of each function from the outermost in. */
  type Scopes = seq<seq<NameAt>>

  predicate Known(env: Scopes, x: string) {
    x != "" && exists l :: 0 <= l < |env| && KnownIn(env[l], x)
  }

  predicate KnownIn(scope: seq<NameAt>, x: string) {
    exists i :: 0 <= i < |scope| && scope[i].name == x
  }

  predicate Taken(scope: seq<NameAt>, x: string, depth: int) {
    exists i :: 0 <= i < |scope| && scope[i].name == x && scope[i].depth == depth
  }

  function Params(params: seq<string>): seq<NameAt> {
    [NameAt("", -1)] + seq(|params|, i requires 0 <= i < |params| => NameAt(params[i], 0))
  }

  function Declaring(env: Scopes, x: string, depth: int): Scopes
    requires env != []
  {
    env[|env| - 1 := env[|env| - 1] + [NameAt(x, depth)]]
  }

  predicate LegalE(env: Scopes, e: Expr)
    decreases e, 1
  {
    match e
    case Constant(_) => true
    case Name(x) => Known(env, x)
    case Assign(x, value) => LegalE(env, value) && Known(env, x)
    case Fn(params, body) =>
      Distinct(params) && |params| <= MAX_PARAMETERS && LegalD(env + [Params(params)], 0, body, false)
    case CallOf(callee, args) =>
      |args| <= MAX_PARAMETERS && LegalE(env, callee) && forall i :: 0 <= i < |args| ==> LegalE(env, args[i])
  }

  predicate LegalS(env: Scopes, depth: int, stmt: Stmt, inLoop: bool)
    decreases stmt, 1
  {
    match stmt
    case Do(e) => LegalE(env, e)
    case Block(parts) => env != [] && LegalD(env, depth + 1, parts, inLoop)
    case If(c, a) => LegalE(env, c) && LegalS(env, depth, a, inLoop)
    case IfElse(c, a, b) => LegalE(env, c) && LegalS(env, depth, a, inLoop) && LegalS(env, depth, b, inLoop)
    case While(c, a) => LegalE(env, c) && LegalS(env, depth, a, true)
    case Break => inLoop
    case ReturnOf(e) => LegalE(env, e)
  }

  /** Declarations and statements in order: each sees the locals declared before. */
  predicate LegalD(env: Scopes, depth: int, body: seq<Definition>, inLoop: bool)
    requires env != []
    decreases body, 0
  {
    body != [] ==> LegalOne(env, depth, body[0], inLoop) && LegalD(Then(env, depth, body[0]), depth, body[1..], inLoop)
  }

  predicate LegalOne(env: Scopes, depth: int, def: Definition, inLoop: bool)
    requires env != []
    decreases def, 0
  {
    match def
    case Var(x, value) => LegalE(env, value) && !Taken(env[|env| - 1], x, depth) && |env[|env| - 1]| != MAX_LOCALS
    case Plain(stmt) => LegalS(env, depth, stmt, inLoop)
  }

  function Then(env: Scopes, depth: int, def: Definition): (env': Scopes)
    requires env != []
    ensures env' != []
  {
    match def
    case Var(x, _) => Declaring(env, x, depth)
    case Plain(_) => env
  }

  function NamesIn(locals: seq<Local>): seq<NameAt> {
    seq(|locals|, i requires 0 <= i < |locals| => NameAt(locals[i].name, locals[i].depth))
  }

  function NamesOf(cs: seq<Compiler>): (env: Scopes)
    ensures |env| == |cs|
  {
    seq(|cs|, l requires 0 <= l < |cs| => NamesIn(cs[l].locals))
  }

  // ----- Code is added --------------------------------------------------------------------------------------

  /** Code is only added, and slots of older instructions stay; so does the number of those at the beginning. */
  predicate Extends(d: Draft, d': Draft) {
    && Aligned(d) && Aligned(d') && d.code <= d'.code && d.kinds <= d'.kinds && d.names <= d'.names
    && d.next <= d'.next && d'.depth == d.depth && |AllKinds(d')[0]| == |AllKinds(d)[0]|
  }

  /** What a part of the program does to the compiler, as far as the functions around are concerned. */
  ghost predicate Went(fns: seq<Function>, cs: seq<Compiler>, drafts: seq<Draft>, fns': seq<Function>,
                       cs': seq<Compiler>, drafts': seq<Draft>)
  {
    && |drafts'| == |drafts| == |cs| > 0 && fns <= fns' && Grown(cs, cs', |cs| - 1)
    && (forall l :: 0 <= l < |drafts| - 1 ==> drafts'[l] == drafts[l])
    && Extends(drafts[|drafts| - 1], drafts'[|drafts| - 1])
  }

  lemma {:induction false} WentOn(fns0: seq<Function>, cs0: seq<Compiler>, drafts0: seq<Draft>, fns1: seq<Function>,
                                  cs1: seq<Compiler>, drafts1: seq<Draft>, fns2: seq<Function>, cs2: seq<Compiler>,
                                  drafts2: seq<Draft>)
    requires Went(fns0, cs0, drafts0, fns1, cs1, drafts1) && Went(fns1, cs1, drafts1, fns2, cs2, drafts2)
    ensures Went(fns0, cs0, drafts0, fns2, cs2, drafts2)
  {
    GrownTwice(cs0, cs1, cs2, |cs0| - 1, |cs0| - 1);
  }

  /** No local is popped from `start` on. */
  ghost predicate NonePopped(d: Draft, start: nat)
    requires Aligned(d)
  {
    forall p, id :: start <= p < |d.code| ==> !Pops(d.code, d.kinds, p, id)
  }

  /** Code that leaves so many temporaries; no local comes or goes. */
  ghost predicate Emitted(d: Draft, d': Draft, temps: nat) {
    && Extends(d, d') && d'.temps == temps && d'.ids == d.ids && d'.next == d.next && d'.pending == d.pending
    && NonePopped(d', |d.code|) && BeginsAt(d, d')
  }

  /** The first instruction added has the slots there were; with none added they are the same still. */
  predicate BeginsAt(d: Draft, d': Draft)
    requires Aligned(d) && Aligned(d') && d.code <= d'.code
  {
    if |d'.code| > |d.code| then d'.kinds[|d.code|] == d.now else d'.now == d.now
  }

  lemma {:induction false} EmittedOn(d0: Draft, d1: Draft, d2: Draft, m: nat, n: nat)
    requires Emitted(d0, d1, m) && Emitted(d1, d2, n)
    ensures Emitted(d0, d2, n)
  {
    forall p, id | |d0.code| <= p < |d2.code| ensures !Pops(d2.code, d2.kinds, p, id) {
      if p < |d1.code| {
        assert d2.code[p] == d1.code[p] && d2.kinds[p] == d1.kinds[p];
        assert !Pops(d1.code, d1.kinds, p, id);
      }
    }
  }

  // ----- What a part of a program does ----------------------------------------------------------------------

  datatype State = State(fns: seq<Function>, cs: seq<Compiler>, drafts: seq<Draft>)

  ghost predicate StateGood(s: State) {
    AllGood(s.fns, s.cs, s.drafts) && s.drafts != []
  }

  function Last(s: State): Draft
    requires s.drafts != []
  {
    s.drafts[|s.drafts| - 1]
  }

  function Locals(s: State): seq<Local>
    requires s.cs != []
  {
    s.cs[|s.cs| - 1].locals
  }

  /** The innermost function has its first `n` locals only. */
  function Cut(cs: seq<Compiler>, n: nat): seq<Compiler>
    requires cs != [] && n <= |cs[|cs| - 1].locals|
  {
    cs[|cs| - 1 := cs[|cs| - 1].(locals := cs[|cs| - 1].locals[..n])]
  }

  /** Jumps out of a loop, in the order of the code, that take the slots `k` along. */
  predicate BreaksOk(d: Draft, breaks: seq<nat>, start: nat, k: Kinds)
    requires Aligned(d)
  {
    && (forall i :: 0 <= i < |breaks| ==> BreakOk(d, breaks[i], start, k))
    && (forall i, j :: 0 <= i < j < |breaks| ==> breaks[i] < breaks[j])
  }

  predicate BreakOk(d: Draft, b: nat, start: nat, k: Kinds)
    requires Aligned(d)
  {
    start <= b < |d.code| && b in d.pending && d.code[b].Jump? && d.kinds[b] == k
  }

  function SetOf(s: seq<nat>): set<nat> {
    set b | b in s
  }

  /** From `s` to `s'` code has been added that leaves so many temporaries, and perhaps locals in the scope; it pops
      none of the first `m` locals; `breaks` are its jumps out of the loop, and `others` more without targets. */
  ghost predicate Ran(s: State, s': State, m: nat, breaks: seq<nat>, others: set<nat>, temps: nat) {
    && |s.drafts| == |s.cs| == |s'.cs| > 0 && m <= |Locals(s)| <= |Locals(s')|
    && Went(s.fns, s.cs, s.drafts, s'.fns, Cut(s'.cs, |Locals(s)|), s'.drafts)
    && var d, d' := Last(s), Last(s');
       && m <= |d.now| && d.ids <= d'.ids && d'.temps == temps
       && d'.pending == d.pending + others + SetOf(breaks)
       && (forall p :: p in others ==> |d.code| <= p && p !in breaks)
       && BreaksOk(d', breaks, |d.code|, d.now[..m]) && NotPopped(d', |d.code|, d.now[..m])
       && forall i :: |Locals(s)| <= i < |Locals(s')| ==> Locals(s')[i].depth == d.depth
  }

  /** Code without declarations, jumps and pops of locals. */
  lemma {:induction false} EmittedRan(s: State, s': State, m: nat, temps: nat)
    requires StateGood(s) && Went(s.fns, s.cs, s.drafts, s'.fns, s'.cs, s'.drafts) && Emitted(Last(s), Last(s'), temps)
    requires m <= |Locals(s)|
    ensures Ran(s, s', m, [], {}, temps)
  {
    var t := |s.cs| - 1;
    assert LevelGood(s.fns, s.cs, s.drafts, t);
    assert GrownAt(s.cs[t], s'.cs[t]);
    assert Locals(s')[..|Locals(s)|] == Locals(s');
    assert Cut(s'.cs, |Locals(s)|) == s'.cs;
  }

  /** The first slots are those of the first locals, before and after. */
  lemma {:induction false} SameSlots(s: State, s': State, m: nat)
    requires StateGood(s) && StateGood(s') && |s.cs| == |s'.cs| && m <= |Locals(s)| <= |Locals(s')|
    requires Grown(s.cs, Cut(s'.cs, |Locals(s)|), |s.cs| - 1) && Last(s).ids <= Last(s').ids
    ensures m <= |Last(s).now| && m <= |Last(s').now| && Last(s').now[..m] == Last(s).now[..m]
  {
    var t := |s.cs| - 1;
    assert LevelGood(s.fns, s.cs, s.drafts, t) && LevelGood(s'.fns, s'.cs, s'.drafts, t);
    assert GrownAt(s.cs[t], Cut(s'.cs, |Locals(s)|)[t]);
    forall i | 0 <= i < m ensures Last(s').now[i] == Last(s).now[i] {
      assert Cut(s'.cs, |Locals(s)|)[t].locals[i] == Locals(s')[i];
    }
  }

  lemma {:induction false} CutTwice(a: seq<Compiler>, b: seq<Compiler>, c: seq<Compiler>)
    requires a != [] && |a| == |b| == |c|
    requires |a[|a| - 1].locals| <= |b[|b| - 1].locals| <= |c[|c| - 1].locals|
    requires Grown(a, Cut(b, |a[|a| - 1].locals|), |a| - 1) && Grown(b, Cut(c, |b[|b| - 1].locals|), |a| - 1)
    ensures Grown(a, Cut(c, |a[|a| - 1].locals|), |a| - 1)
  {
    var n := |a[|a| - 1].locals|;
    var t := |a| - 1;
    var b', c' := Cut(b, n), Cut(c, n);
    var c'' := Cut(c, |b[t].locals|);
    forall l | 0 <= l < |a| ensures GrownAt(a[l], c'[l]) {
      assert GrownAt(a[l], b'[l]) && GrownAt(b[l], c''[l]);
      if l == t {
        forall i | 0 <= i < n ensures c'[t].locals[i] == a[t].locals[i].(isUpvalue := c'[t].locals[i].isUpvalue)
                                      && (a[t].locals[i].isUpvalue ==> c'[t].locals[i].isUpvalue) {
          assert b'[t].locals[i] == b[t].locals[i] && c''[t].locals[i] == c[t].locals[i];
        }
      }
    }
  }

  /** One part after another. */
  lemma {:induction false} RanOn(s0: State, s1: State, s2: State, m: nat, b1: seq<nat>, o1: set<nat>, t1: nat,
                                 b2: seq<nat>, o2: set<nat>, t2: nat)
    requires StateGood(s0) && StateGood(s1)
    requires Ran(s0, s1, m, b1, o1, t1) && Ran(s1, s2, m, b2, o2, t2)
    ensures Ran(s0, s2, m, b1 + b2, o1 + o2, t2)
  {
    hide LevelGood;
    var d0, d1, d2 := Last(s0), Last(s1), Last(s2);
    SameSlots(s0, s1, m);
    CutTwice(s0.cs, s1.cs, s2.cs);
    RanPopped(d0, d1, d2, d0.now[..m]);
    RanBreaks(d0, d1, d2, b1, b2, d0.now[..m]);
    assert SetOf(b1 + b2) == SetOf(b1) + SetOf(b2);
    forall p | p in o1 + o2 ensures |d0.code| <= p && p !in b1 + b2 {
      PendingApart(s0, s1, s2, m, b1, o1, t1, b2, o2, t2, p);
    }
    forall i | |Locals(s0)| <= i < |Locals(s2)| ensures Locals(s2)[i].depth == d0.depth {
      if i < |Locals(s1)| {
        assert GrownAt(s1.cs[|s1.cs| - 1], Cut(s2.cs, |Locals(s1)|)[|s1.cs| - 1]);
        assert Cut(s2.cs, |Locals(s1)|)[|s1.cs| - 1].locals[i] == Locals(s2)[i];
      }
    }
  }

  lemma {:induction false} RanSeq(s0: State, s1: State, s2: State, m: nat, b1: seq<nat>, t1: nat, b2: seq<nat>, t2: nat)
    requires StateGood(s0) && StateGood(s1) && Ran(s0, s1, m, b1, {}, t1) && Ran(s1, s2, m, b2, {}, t2)
    ensures Ran(s0, s2, m, b1 + b2, {}, t2) && (b1 == [] ==> Ran(s0, s2, m, b2, {}, t2))
  {
    RanOn(s0, s1, s2, m, b1, {}, t1, b2, {}, t2);
    var none: set<nat> := {};
    assert none + none == none;
    assert [] + b2 == b2;
  }

  lemma {:induction false} RanTemp(s: State, s': State, m: nat, breaks: seq<nat>, others: set<nat>, temps: nat)
    requires Ran(s, s', m, breaks, others, temps)
    ensures s'.drafts != [] && Last(s').temps == temps
  {
  }

  lemma {:induction false} PendingApart(s0: State, s1: State, s2: State, m: nat, b1: seq<nat>, o1: set<nat>, t1: nat,
                                        b2: seq<nat>, o2: set<nat>, t2: nat, p: nat)
    requires StateGood(s0) && StateGood(s1)
    requires Ran(s0, s1, m, b1, o1, t1) && Ran(s1, s2, m, b2, o2, t2) && p in o1 + o2
    ensures |Last(s0).code| <= p && p !in b1 + b2
  {
    var d1 := Last(s1);
    assert LevelGood(s1.fns, s1.cs, s1.drafts, |s1.drafts| - 1);
    assert forall q :: q in d1.pending ==> q < |d1.code|;
    assert forall b :: b in b1 ==> b in d1.pending;
    assert forall b :: b in b2 ==> b >= |d1.code|;
  }

  lemma {:induction false} RanPopped(d0: Draft, d1: Draft, d2: Draft, k: Kinds)
    requires Extends(d0, d1) && Extends(d1, d2) && NotPopped(d1, |d0.code|, k) && NotPopped(d2, |d1.code|, k)
    ensures NotPopped(d2, |d0.code|, k)
  {
    forall p, id | |d0.code| <= p < |d2.code| && Pops(d2.code, d2.kinds, p, id) ensures !Has(k, id) {
      if p < |d1.code| {
        assert d2.code[p] == d1.code[p] && d2.kinds[p] == d1.kinds[p];
        assert Pops(d1.code, d1.kinds, p, id);
      }
    }
  }

  lemma {:induction false} RanBreaks(d0: Draft, d1: Draft, d2: Draft, b1: seq<nat>, b2: seq<nat>, k: Kinds)
    requires Extends(d0, d1) && Extends(d1, d2) && d1.pending <= d2.pending
    requires BreaksOk(d1, b1, |d0.code|, k) && BreaksOk(d2, b2, |d1.code|, k)
    ensures BreaksOk(d2, b1 + b2, |d0.code|, k)
  {
    var bs := b1 + b2;
    forall i | 0 <= i < |bs| ensures BreakOk(d2, bs[i], |d0.code|, k) {
      if i < |b1| {
        assert BreakOk(d1, b1[i], |d0.code|, k);
        assert d2.code[b1[i]] == d1.code[b1[i]] && d2.kinds[b1[i]] == d1.kinds[b1[i]];
      } else {
        assert BreakOk(d2, b2[i - |b1|], |d1.code|, k);
      }
    }
  }

  /** One of the jumps gets its target. */
  lemma {:induction false} RanPatched(s: State, s': State, m: nat, breaks: seq<nat>, others: set<nat>, temps: nat,
                                      p: nat)
    requires Ran(s, s', m, breaks, others, temps) && p in others && p < |Last(s').code| && IsJump(Last(s').code[p])
             && StateGood(s)
    ensures Ran(s, s'.(drafts := s'.drafts[|s'.drafts| - 1 := Patched(Last(s'), p)]), m, breaks, others - {p}, temps)
  {
    var d, d' := Last(s), Last(s');
    var e := Patched(d', p);
    assert LevelGood(s.fns, s.cs, s.drafts, |s.drafts| - 1);
    assert p !in d.pending;
    assert AllKinds(e) == AllKinds(d');
    assert Extends(d, e);
    forall q, id | |d.code| <= q < |e.code| && Pops(e.code, e.kinds, q, id) ensures !Has(d.now[..m], id) {
      assert Pops(d'.code, d'.kinds, q, id);
    }
  }

  lemma {:induction false} PatchedMarks(s: State, s': State, m: nat, breaks: seq<nat>, others: set<nat>, temps: nat,
                                        p: nat)
    requires StateGood(s) && Ran(s, s', m, breaks, others, temps) && p in others && Leaves(Last(s'), p)
    ensures p < |Last(s').code|
    ensures PointsOf(Patched(Last(s'), p)) == PointsOf(Last(s'))[p := Filled(PointsOf(Last(s'))[p], |Last(s').code|)]
  {
    var d := Last(s');
    PointsPatched(d.code, d.names, d.kinds, d.pending, p, if d.code[p].JumpIf? then JumpIf(|d.code|)
                  else Jump(|d.code|));
  }

  /** A jump that takes along the slots there are at the end of the code. */
  predicate Leaves(d: Draft, b: nat) {
    Aligned(d) && b < |d.code| && IsJump(d.code[b]) && d.kinds[b] != [] && TakesAlong(d, b) == d.now
  }

  predicate Leaving(d: Draft, breaks: seq<nat>) {
    forall i :: 0 <= i < |breaks| ==> Leaves(d, breaks[i])
  }

  predicate IsJump(i: Instr) {
    i.Jump? || i.JumpIf?
  }

  /** The jumps out of a loop, seen from outside of it. */
  lemma {:induction false} RanLoop(s: State, s': State, m: nat, m': nat, breaks: seq<nat>, others: set<nat>, temps: nat)
    requires Ran(s, s', m', breaks, others, temps) && m <= m'
    ensures Ran(s, s', m, [], others + SetOf(breaks), temps)
  {
    var d, d' := Last(s), Last(s');
    assert d.now[..m] <= d.now[..m'];
    forall q, id | |d.code| <= q < |d'.code| && Pops(d'.code, d'.kinds, q, id) ensures !Has(d.now[..m], id) {
      HasMore(d.now, m, m', id);
    }
  }

  lemma {:induction false} HasMore(k: Kinds, m: nat, m': nat, id: nat)
    requires m <= m' <= |k|
    ensures Has(k[..m], id) ==> Has(k[..m'], id)
  {
    if Has(k[..m], id) {
      var i :| 0 <= i < m && k[..m][i].Named? && k[..m][i].id == id;
      assert k[..m'][i] == k[..m][i];
    }
  }

  /** Code of an expression, or part of one, has been added, and so many temporaries are there now. */
  ghost predicate Did(s: State, s': State, temps: nat) {
    && s.drafts != [] && s'.drafts != [] && Went(s.fns, s.cs, s.drafts, s'.fns, s'.cs, s'.drafts)
    && Emitted(Last(s), Last(s'), temps)
  }

  lemma {:induction false} DidTemps(s: State, s': State, temps: nat)
    requires Did(s, s', temps)
    ensures Last(s').temps == temps && s.drafts != [] && s'.drafts != []
  {
  }

  lemma {:induction false} DidThen(s0: State, s1: State, s2: State, m: nat, n: nat)
    requires Did(s0, s1, m) && Did(s1, s2, n)
    ensures Did(s0, s2, n)
  {
    WentOn(s0.fns, s0.cs, s0.drafts, s1.fns, s1.cs, s1.drafts, s2.fns, s2.cs, s2.drafts);
    EmittedOn(Last(s0), Last(s1), Last(s2), m, n);
  }

  // ----- What the code is -----------------------------------------------------------------------------------

  function PointsOf(d: Draft): (q: seq<Point>)
    ensures |q| == |d.code|
  {
    Points(d.code, d.names, d.kinds, d.pending)
  }

  function LocalNames(locals: seq<Local>): (names: seq<string>)
    ensures |names| == |locals|
  {
    seq(|locals|, i requires 0 <= i < |locals| => locals[i].name)
  }

  /** Where in the program the compiler is. */
  function SiteOf(s: State): (at: Site)
    ensures s.cs != [] ==> |at.names| == |Locals(s)|
  {
    Site(if s.drafts == [] then [] else ShapesOf(Outers(s.drafts, |s.drafts| - 1)),
         if s.cs == [] then [] else LocalNames(Locals(s)))
  }

  /** The slots at the end of the code are the locals in scope and the temporaries. */
  lemma {:induction false} NowIs(s: State)
    requires StateGood(s)
    ensures ShapeOf(Last(s).now) == Scope(SiteOf(s).names, Last(s).temps)
  {
    assert LevelGood(s.fns, s.cs, s.drafts, |s.drafts| - 1);
  }

  /** The same locals are in scope, and the functions around are as they were. */
  lemma {:induction false} SameSite(s: State, s': State)
    requires |s'.drafts| == |s.drafts| == |s.cs| == |s'.cs| > 0 && NamesOf(s'.cs) == NamesOf(s.cs)
    requires forall l :: 0 <= l < |s.drafts| - 1 ==> s'.drafts[l] == s.drafts[l]
    ensures SiteOf(s') == SiteOf(s)
  {
    assert Outers(s'.drafts, |s.drafts| - 1) == Outers(s.drafts, |s.drafts| - 1);
    var names, names' := NamesOf(s.cs)[|s.cs| - 1], NamesOf(s'.cs)[|s.cs| - 1];
    assert names == NamesIn(Locals(s)) && names' == NamesIn(Locals(s'));
    forall i | 0 <= i < |Locals(s)| ensures Locals(s')[i].name == Locals(s)[i].name {
      assert names'[i] == names[i];
    }
  }

  lemma {:induction false} DidSite(s: State, s': State, temps: nat)
    requires Did(s, s', temps)
    ensures SiteOf(s') == SiteOf(s)
  {
    WentNames(s, s');
    SameSite(s, s');
  }

  /** After a part of a program that leaves the locals as they are. */
  lemma {:induction false} RanSite(s: State, s': State, m: nat, breaks: seq<nat>, others: set<nat>, temps: nat)
    requires Ran(s, s', m, breaks, others, temps) && NamesOf(s'.cs) == NamesOf(s.cs)
    ensures SiteOf(s') == SiteOf(s)
  {
    SameSite(s, s');
  }

  lemma {:induction false} FoundSite(s: State, s': State)
    requires s' == s.(cs := s'.cs) && |s.drafts| == |s.cs| > 0 && Grown(s.cs, s'.cs, |s.cs| - 1)
    ensures SiteOf(s') == SiteOf(s)
  {
    GrownNames(s.cs, s'.cs);
    SameSite(s, s');
  }

  lemma {:induction false} DeeperSite(s: State, s': State)
    requires s.drafts != [] && s'.fns == s.fns && s'.cs == s.cs
    requires s'.drafts == s.drafts[|s.drafts| - 1 := Last(s).(depth := Last(s).depth + 1)]
    ensures SiteOf(s') == SiteOf(s)
  {
    assert Outers(s'.drafts, |s.drafts| - 1) == Outers(s.drafts, |s.drafts| - 1);
  }

  lemma {:induction false} ElseSite(s: State, s': State, s'': State, m: nat, p: nat)
    requires Ran(s, s', m, [], {p}, 0) && s'.cs == s.cs && s''.cs == s.cs && |s''.drafts| == |s'.drafts|
    requires s''.drafts == s'.drafts[|s'.drafts| - 1 := Last(s'')]
    ensures SiteOf(s'') == SiteOf(s)
  {
    SameSite(s, s'');
  }

  /** After a definition. */
  lemma {:induction false} DefinedSite(s: State, s': State, m: nat, breaks: seq<nat>, def: Definition, depth: int)
    requires Ran(s, s', m, breaks, {}, 0) && NamesOf(s'.cs) == Then(NamesOf(s.cs), depth, def)
    ensures SiteOf(s') == With(SiteOf(s), if def.Var? then [def.name] else [])
  {
    assert Outers(s'.drafts, |s.drafts| - 1) == Outers(s.drafts, |s.drafts| - 1);
    var names, names' := NamesOf(s.cs)[|s.cs| - 1], NamesOf(s'.cs)[|s.cs| - 1];
    assert names == NamesIn(Locals(s)) && names' == NamesIn(Locals(s'));
    var more := if def.Var? then [NameAt(def.name, depth)] else [];
    assert names' == names + more;
    forall i | 0 <= i < |names'| ensures Locals(s')[i].name == names'[i].name {
    }
    assert LocalNames(Locals(s')) == LocalNames(Locals(s)) + (if def.Var? then [def.name] else []);
  }

  /** From `s` to `s'` this code has been added, and these functions have been finished. */
  ghost predicate Outlined(s: State, s': State, c: Code) {
    && s.drafts != [] && s'.drafts != []
    && PointsOf(Last(s')) == PointsOf(Last(s)) + c.points && OutlinesOf(s'.fns) == OutlinesOf(s.fns) + c.fns
  }

  lemma {:induction false} OutlinedOn(s0: State, s1: State, s2: State, a: Code, b: Code)
    requires Outlined(s0, s1, a) && Outlined(s1, s2, b)
    ensures Outlined(s0, s2, Plus(a, b))
  {
    Three(PointsOf(Last(s0)), a.points, b.points);
    Three(OutlinesOf(s0.fns), a.fns, b.fns);
  }

  lemma {:induction false} FoundOutlined(s: State, s1: State, s2: State, c: Code)
    requires s1 == s.(cs := s1.cs) && Outlined(s1, s2, c)
    ensures Outlined(s, s2, c)
  {
  }

  /** How many locals there are beyond the first `m`. */
  function Within(s: State, m: nat): (k: nat)
    ensures k <= |SiteOf(s).names|
  {
    if s.cs != [] && m <= |Locals(s)| then |Locals(s)| - m else 0
  }

  lemma {:induction false} SameWithin(s: State, s': State, m: nat)
    requires NamesOf(s'.cs) == NamesOf(s.cs)
    ensures Within(s', m) == Within(s, m)
  {
    if s.cs != [] {
      assert NamesOf(s'.cs)[|s'.cs| - 1] == NamesIn(Locals(s')) && NamesOf(s.cs)[|s.cs| - 1] == NamesIn(Locals(s));
    }
  }

  lemma {:induction false} NoneWithin(s: State)
    ensures s.cs != [] ==> Within(s, |Locals(s)|) == 0
  {
  }

  lemma {:induction false} PlusNone(c: Code)
    ensures Plus(c, Mere([])) == c
  {
    assert c.points + [] == c.points && c.fns + [] == c.fns;
  }

  lemma {:induction false} ArgsOutlined0(s: State, args: seq<Expr>, t: nat)
    requires s.drafts != []
    ensures Outlined(s, s, OfArgs(args, 0, |s.fns|, SiteOf(s), t))
  {
    OutlinedNone(s, s);
  }

  lemma {:induction false} ArgsOutlined(s: State, s1: State, s2: State, args: seq<Expr>, i: nat, t: nat)
    requires i < |args| && SiteOf(s1) == SiteOf(s) && Outlined(s, s1, OfArgs(args, i, |s.fns|, SiteOf(s), t))
    requires Outlined(s1, s2, OfExpr(args[i], |s1.fns|, SiteOf(s1), t + i))
    ensures Outlined(s, s2, OfArgs(args, i + 1, |s.fns|, SiteOf(s), t))
  {
    hide SiteOf, PointsOf, OutlinesOf, OfExpr;
    var a := OfArgs(args, i, |s.fns|, SiteOf(s), t);
    OutlinedSize(s, s1, a);
    OutlinedOn(s, s1, s2, a, OfExpr(args[i], |s1.fns|, SiteOf(s), t + i));
    assert OfArgs(args, i + 1, |s.fns|, SiteOf(s), t) == Plus(a, OfExpr(args[i], |s1.fns|, SiteOf(s), t + i));
  }

  lemma {:induction false} CallOutlined(s: State, s1: State, s2: State, s3: State, e: Expr, t: nat)
    requires e.CallOf? && SiteOf(s2) == SiteOf(s1) == SiteOf(s)
             && Outlined(s, s1, OfExpr(e.callee, |s.fns|, SiteOf(s), t))
    requires Outlined(s1, s2, OfArgs(e.args, |e.args|, |s1.fns|, SiteOf(s1), t + 1))
    requires Outlined(s2, s3, Here(Invoke(|e.args|), SiteOf(s2), t + 1 + |e.args|))
    ensures Outlined(s, s3, OfExpr(e, |s.fns|, SiteOf(s), t))
  {
    hide SiteOf, PointsOf, OutlinesOf, Here;
    var c := OfExpr(e.callee, |s.fns|, SiteOf(s), t);
    OutlinedSize(s, s1, c);
    var a := OfArgs(e.args, |e.args|, |s1.fns|, SiteOf(s), t + 1);
    OutlinedOn(s, s1, s2, c, a);
    OutlinedOn(s, s2, s3, Plus(c, a), Here(Invoke(|e.args|), SiteOf(s), t + 1 + |e.args|));
  }

  lemma {:induction false} BodyOutlined(s0: State, s1: State, s2: State, s3: State, params: seq<string>,
                                        body: seq<Definition>, around: seq<Shape>)
    requires Begun(s0, s1, |params|) && SiteOf(s1) == Entry(params, around)
    requires SiteOf(s2) == With(SiteOf(s1), VarNames(body, |body|)) && SiteOf(s3) == SiteOf(s2)
    requires Outlined(s1, s2, OfDefs(body, |body|, |Last(s1).code|, |s1.fns|, SiteOf(s1), Within(s1, |params| + 1)))
    requires Outlined(s2, s3, Here(Push(Null), SiteOf(s2), 0))
    ensures s3.drafts != []
    ensures OutlinesOf(s3.fns)
         + [Outline(|params|, SiteOf(s3).around, PointsOf(Last(s3)) + Here(End, SiteOf(s3), 1).points)]
         == OutlinesOf(s0.fns) + OfFunction(params, body, |s0.fns|, around)
  {
    hide SiteOf;
    var b := OfDefs(body, |body|, 0, |s0.fns|, SiteOf(s1), 0);
    assert Within(s1, |params| + 1) == 0 && PointsOf(Last(s1)) == [];
    OutlinedOn(s1, s2, s3, b, Here(Push(Null), SiteOf(s2), 0));
    assert PointsOf(Last(s3)) + Here(End, SiteOf(s3), 1).points == b.points + Tail(SiteOf(s2).names);
    assert OutlinesOf(s3.fns) == OutlinesOf(s0.fns) + b.fns;
  }

  lemma {:induction false} LiteralOutlined(s: State, s1: State, s2: State, e: Expr, f: nat, t: nat)
    requires e.Fn? && s.drafts != [] && s1.drafts == s.drafts && SiteOf(s1) == SiteOf(s)
    requires Outlined(s1, s2, Here(Make(f), SiteOf(s1), t))
    requires OutlinesOf(s1.fns) == OutlinesOf(s.fns)
                                   + OfFunction(e.params, e.body, |s.fns|,
                                                SiteOf(s).around + [Scope(SiteOf(s).names, t)])
    requires f == |s1.fns| - 1
    ensures Outlined(s, s2, OfExpr(e, |s.fns|, SiteOf(s), t))
  {
    assert |OutlinesOf(s1.fns)| == |s1.fns|;
  }

  lemma {:induction false} DefsOutlined0(s: State, body: seq<Definition>, m: nat)
    requires s.drafts != []
    ensures Outlined(s, s, OfDefs(body, 0, |Last(s).code|, |s.fns|, SiteOf(s), Within(s, m)))
    ensures With(SiteOf(s), VarNames(body, 0)) == SiteOf(s)
  {
    OutlinedNone(s, s);
    assert SiteOf(s).names + [] == SiteOf(s).names;
  }

  lemma {:induction false} DefsOutlined(s: State, s1: State, s2: State, body: seq<Definition>, i: nat, m: nat)
    requires i < |body| && s.drafts != [] && s1.drafts != [] && s.cs != [] && s1.cs != [] && m <= |Locals(s)|
    requires SiteOf(s1) == With(SiteOf(s), VarNames(body, i))
    requires Outlined(s, s1, OfDefs(body, i, |Last(s).code|, |s.fns|, SiteOf(s), Within(s, m)))
    requires Outlined(s1, s2, OfDef(body[i], |Last(s1).code|, |s1.fns|, SiteOf(s1), Within(s1, m)))
    ensures Outlined(s, s2, OfDefs(body, i + 1, |Last(s).code|, |s.fns|, SiteOf(s), Within(s, m)))
  {
    var k := Within(s, m);
    assert Within(s1, m) == k + |VarNames(body, i)|;
    hide SiteOf, PointsOf, OutlinesOf, OfDef, Within;
    var a := OfDefs(body, i, |Last(s).code|, |s.fns|, SiteOf(s), k);
    var d := OfDef(body[i], |Last(s1).code|, |s1.fns|, SiteOf(s1), Within(s1, m));
    OutlinedSize(s, s1, a);
    OutlinedOn(s, s1, s2, a, d);
    assert OfDefs(body, i + 1, |Last(s).code|, |s.fns|, SiteOf(s), k) == Plus(a, d);
  }

  lemma {:induction false} MoreNames(at: Site, body: seq<Definition>, i: nat)
    requires i < |body|
    ensures With(With(at, VarNames(body, i)), if body[i].Var? then [body[i].name] else [])
         == With(at, VarNames(body, i + 1))
  {
    Three(at.names, VarNames(body, i), if body[i].Var? then [body[i].name] else []);
  }

  lemma {:induction false} StmtCases(stmt: Stmt, pc: nat, f: nat, at: Site, k: nat)
    requires k <= |at.names|
    ensures stmt.Do? ==> OfStmt(stmt, pc, f, at, k) == Plus(OfExpr(stmt.e, f, at, 0), Here(Drop, at, 1))
    ensures stmt.ReturnOf? ==> OfStmt(stmt, pc, f, at, k) == Plus(OfExpr(stmt.e, f, at, 0), Here(End, at, 1))
    ensures stmt.Break? ==> OfStmt(stmt, pc, f, at, k) == LeavingCode(at, k)
  {
  }

  /** The locals declared within the loop are given up, and a jump leads out of it. */
  function LeavingCode(at: Site, k: nat): Code
    requires k <= |at.names|
  {
    Mere(Drops(at.names, k) + [Point(Hole, Scope(at.names[..|at.names| - k], 0))])
  }

  lemma {:induction false} BlockOutlined(s0: State, s1: State, s2: State, s3: State, stmt: Stmt, m: nat)
    requires stmt.Block? && |s0.drafts| == |s1.drafts| > 0 && s1.fns == s0.fns && s1.cs == s0.cs != [] && s2.cs != []
    requires Last(s1) == Last(s0).(depth := Last(s1).depth) && SiteOf(s1) == SiteOf(s0)
    requires SiteOf(s2) == With(SiteOf(s1), VarNames(stmt.parts, |stmt.parts|))
    requires Outlined(s1, s2, OfDefs(stmt.parts, |stmt.parts|, |Last(s1).code|, |s1.fns|, SiteOf(s1), Within(s1, m)))
    requires |Locals(s0)| <= |Locals(s2)|
    requires Outlined(s2, s3, Mere(Drops(SiteOf(s2).names, |Locals(s2)| - |Locals(s0)|)))
    ensures Outlined(s0, s3, OfStmt(stmt, |Last(s0).code|, |s0.fns|, SiteOf(s0), Within(s0, m)))
  {
    hide SiteOf, PointsOf, OutlinesOf, OfDefs, Within, Drops, OfStmt, VarNames, With;
    var n := |Locals(s2)| - |Locals(s0)|;
    NamesAdded(s0, s1, s2, VarNames(stmt.parts, |stmt.parts|), m);
    BlockCode(stmt, |Last(s0).code|, |s0.fns|, SiteOf(s0), Within(s0, m));
    OutlinedOn(s1, s2, s3, OfDefs(stmt.parts, |stmt.parts|, |Last(s1).code|, |s1.fns|, SiteOf(s1), Within(s1, m)),
               Mere(Drops(SiteOf(s2).names, n)));
  }

  lemma {:induction false} NamesAdded(s0: State, s1: State, s2: State, names: seq<string>, m: nat)
    requires s0.drafts != [] && s1.drafts != [] && s1.cs == s0.cs != [] && s2.cs != [] && SiteOf(s1) == SiteOf(s0)
    requires Last(s1) == Last(s0).(depth := Last(s1).depth) && SiteOf(s2) == With(SiteOf(s1), names)
    ensures |Locals(s2)| == |Locals(s0)| + |names| && SiteOf(s2).names == SiteOf(s0).names + names
    ensures PointsOf(Last(s1)) == PointsOf(Last(s0)) && Within(s1, m) == Within(s0, m)
  {
  }

  lemma {:induction false} BlockCode(stmt: Stmt, pc: nat, f: nat, at: Site, k: nat)
    requires stmt.Block? && k <= |at.names|
    ensures var more := VarNames(stmt.parts, |stmt.parts|);
            OfStmt(stmt, pc, f, at, k)
              == Plus(OfDefs(stmt.parts, |stmt.parts|, pc, f, at, k), Mere(Drops(at.names + more, |more|)))
  {
    hide OfDefs, Drops;
  }

  /** A jump gets the end of the code as its target. */
  ghost predicate PatchedAt(s: State, s': State, p: nat) {
    && s.drafts != [] && s'.drafts != [] && s'.fns == s.fns && p < |Last(s).code|
    && PointsOf(Last(s')) == PointsOf(Last(s))[p := Filled(PointsOf(Last(s))[p], |Last(s).code|)]
  }

  function CondCode(e: Expr, f: nat, at: Site): Code {
    Plus(OfExpr(e, f, at, 0), Here(HoleUnless, at, 1))
  }

  lemma {:induction false} IfOutlined(s: State, s1: State, s2: State, s3: State, stmt: Stmt, p: nat, m: nat)
    requires stmt.If? && s.drafts != [] && s1.drafts != [] && Within(s1, m) == Within(s, m) && SiteOf(s1) == SiteOf(s)
    requires Outlined(s, s1, CondCode(stmt.cond, |s.fns|, SiteOf(s))) && p == |Last(s1).code| - 1
    requires Outlined(s1, s2, OfStmt(stmt.thenBranch, |Last(s1).code|, |s1.fns|, SiteOf(s1), Within(s1, m)))
    requires PatchedAt(s2, s3, p)
    ensures Outlined(s, s3, OfStmt(stmt, |Last(s).code|, |s.fns|, SiteOf(s), Within(s, m)))
  {
    hide PointsOf, OutlinesOf, OfExpr, OfStmt, Within, SiteOf, Scope;
    var at := SiteOf(s);
    var c := OfExpr(stmt.cond, |s.fns|, at, 0);
    OutlinedSize(s, s1, CondCode(stmt.cond, |s.fns|, at));
    var t := OfStmt(stmt.thenBranch, |Last(s1).code|, |s1.fns|, at, Within(s1, m));
    OutlinedSize(s1, s2, t);
    IfCode(stmt, |Last(s).code|, |s.fns|, at, Within(s, m));
    OneJump(PointsOf(Last(s)), c.points, Test(HoleUnless, at), t.points, p);
    Three(OutlinesOf(s.fns), c.fns, t.fns);
  }

  /** The other branch comes next, after a jump past it. */
  ghost predicate OtherwiseOutlined(s: State, s': State, ifJump: nat, e: Code) {
    && s.drafts != [] && s'.drafts != [] && ifJump < |Last(s).code|
    && var q := PointsOf(Last(s));
       var n := |q| + 1;
       && PointsOf(Last(s')) == q[ifJump := Filled(q[ifJump], n)] + [Plainly(Goto(n + |e.points|),
                                                                             SiteOf(s))] + e.points
       && OutlinesOf(s'.fns) == OutlinesOf(s.fns) + e.fns
  }

  lemma {:induction false} OtherwiseDone(s1: State, s2: State, s3: State, s4: State, s5: State, ifJump: nat,
                                         elseJump: nat, stmt: Stmt, m: nat)
    requires s1.drafts != [] && s3.drafts != [] && Outlined(s1, s2, Here(Hole, SiteOf(s1), 0))
    requires ifJump < |Last(s1).code| && elseJump == |Last(s1).code| && PatchedAt(s2, s3, ifJump)
    requires Within(s3, m) == Within(s1, m) && SiteOf(s3) == SiteOf(s1)
    requires Outlined(s3, s4, OfStmt(stmt, |Last(s3).code|, |s3.fns|, SiteOf(s3), Within(s3, m)))
    requires PatchedAt(s4, s5, elseJump)
    ensures OtherwiseOutlined(s1, s5, ifJump, OfStmt(stmt, |Last(s1).code| + 1, |s1.fns|, SiteOf(s1), Within(s1, m)))
  {
    hide PointsOf, OutlinesOf, OfStmt, Within, SiteOf, Scope;
    var at := SiteOf(s1);
    OutlinedSize(s1, s2, Here(Hole, at, 0));
    var q := PointsOf(Last(s1));
    var q' := q[ifJump := Filled(q[ifJump], |q| + 1)];
    var e := OfStmt(stmt, |q| + 1, |s1.fns|, at, Within(s1, m));
    assert PointsOf(Last(s3)) == q' + [Plainly(Hole, at)];
    OutlinedSize(s3, s4, e);
    OneJump(q', [], Plainly(Hole, at), e.points, elseJump);
  }

  lemma {:induction false} IfElseOutlined(s: State, s1: State, s2: State, s3: State, stmt: Stmt, p: nat, m: nat)
    requires stmt.IfElse? && s.drafts != [] && s1.drafts != [] && s2.drafts != []
    requires Within(s1, m) == Within(s, m) == Within(s2, m) && SiteOf(s2) == SiteOf(s1) == SiteOf(s)
    requires Outlined(s, s1, CondCode(stmt.cond, |s.fns|, SiteOf(s))) && p == |Last(s1).code| - 1
    requires Outlined(s1, s2, OfStmt(stmt.thenBranch, |Last(s1).code|, |s1.fns|, SiteOf(s1), Within(s1, m)))
    requires OtherwiseOutlined(s2, s3, p,
                               OfStmt(stmt.elseBranch, |Last(s2).code| + 1, |s2.fns|, SiteOf(s2), Within(s2, m)))
    ensures Outlined(s, s3, OfStmt(stmt, |Last(s).code|, |s.fns|, SiteOf(s), Within(s, m)))
  {
    hide PointsOf, OutlinesOf, OfExpr, OfStmt, Within, SiteOf, Scope;
    var at := SiteOf(s);
    var c := OfExpr(stmt.cond, |s.fns|, at, 0);
    OutlinedSize(s, s1, CondCode(stmt.cond, |s.fns|, at));
    var t := OfStmt(stmt.thenBranch, |Last(s1).code|, |s1.fns|, at, Within(s1, m));
    OutlinedSize(s1, s2, t);
    var n := |Last(s2).code| + 1;
    var e := OfStmt(stmt.elseBranch, n, |s2.fns|, at, Within(s2, m));
    IfElseCode(stmt, |Last(s).code|, |s.fns|, at, Within(s, m));
    BothBranches(PointsOf(Last(s)), PointsOf(Last(s2)), PointsOf(Last(s3)), c.points, t.points, e.points, p, n, at);
    Three(OutlinesOf(s.fns), c.fns, t.fns);
    Three(OutlinesOf(s.fns), c.fns + t.fns, e.fns);
  }

  lemma {:induction false} BothBranches(q: seq<Point>, q2: seq<Point>, q3: seq<Point>, c: seq<Point>, t: seq<Point>,
                                        e: seq<Point>, p: nat, n: nat, at: Site)
    requires q2 == q + (c + [Test(HoleUnless, at)]) + t && p == |q| + |c|
    requires q3 == q2[p := Filled(q2[p], n)] + [Plainly(Goto(n + |e|), at)] + e
    ensures q3 == q + (c + [Test(Unless(n), at)] + t + [Plainly(Goto(n + |e|), at)] + e)
  {
    hide Scope;
    Retarget(q, c, Test(HoleUnless, at), Test(Unless(n), at), t, p);
    Four(q, c + [Test(Unless(n), at)] + t, [Plainly(Goto(n + |e|), at)], e);
  }

  lemma {:induction false} WhileOutlined(s: State, s1: State, s2: State, s3: State, s4: State, s5: State, stmt: Stmt,
                                         p: nat, breaks: seq<nat>, m: nat)
    requires stmt.While? && StateGood(s) && s1.drafts != [] && s3.drafts != [] && s4.drafts != [] && s5.drafts != []
    requires Ran(s, s3, m, [], {p} + SetOf(breaks), 0) && SiteOf(s1) == SiteOf(s2) == SiteOf(s)
    requires Outlined(s, s1, CondCode(stmt.cond, |s.fns|, SiteOf(s)))
    requires Outlined(s1, s2, OfStmt(stmt.body, |Last(s1).code|, |s1.fns|, SiteOf(s1), 0))
    requires Outlined(s2, s3, Here(Back(|Last(s).code|), SiteOf(s2), 0))
    requires PatchedAt(s3, s4, p) && s5.fns == s4.fns && FilledAt(PointsOf(Last(s4)), PointsOf(Last(s5)), breaks)
    ensures Outlined(s, s5, OfStmt(stmt, |Last(s).code|, |s.fns|, SiteOf(s), Within(s, m)))
  {
    hide PointsOf, OutlinesOf, OfExpr, OfStmt, Ran, StateGood, SiteOf, Scope, Within, Fill;
    var at, pc := SiteOf(s), |Last(s).code|;
    var c := OfExpr(stmt.cond, |s.fns|, at, 0);
    OutlinedSize(s, s1, CondCode(stmt.cond, |s.fns|, at));
    var t := OfStmt(stmt.body, |Last(s1).code|, |s1.fns|, at, 0);
    OutlinedSize(s1, s2, t);
    OutlinedSize(s2, s3, Here(Back(pc), at, 0));
    var loop := c.points + [Test(HoleUnless, at)] + t.points + [Plainly(Back(pc), at)];
    Four(PointsOf(Last(s)), c.points + [Test(HoleUnless, at)], t.points, [Plainly(Back(pc), at)]);
    LoopFilled(s, s3, s4, s5, p, breaks, m, loop);
    WhileCode(stmt, pc, |s.fns|, at, Within(s, m));
    Three(OutlinesOf(s.fns), c.fns, t.fns);
  }

  /** All jumps without a target since `s` get the end of the code. */
  lemma {:induction false} LoopFilled(s: State, s3: State, s4: State, s5: State, p: nat, breaks: seq<nat>, m: nat,
                                      loop: seq<Point>)
    requires StateGood(s) && s4.drafts != [] && s5.drafts != [] && Ran(s, s3, m, [], {p} + SetOf(breaks), 0)
    requires PointsOf(Last(s3)) == PointsOf(Last(s)) + loop
    requires PatchedAt(s3, s4, p) && FilledAt(PointsOf(Last(s4)), PointsOf(Last(s5)), breaks)
    ensures PointsOf(Last(s5)) == PointsOf(Last(s)) + Fill(loop, |Last(s).code| + |loop|)
  {
    hide Ran, StateGood, PointsOf, OutlinesOf, NotOpen, Filled, Fill, FilledAt;
    LoopPending(s, s3, m, p, breaks);
    LoopPoints(PointsOf(Last(s)), loop, PointsOf(Last(s4)), PointsOf(Last(s5)), p, breaks);
  }

  /** What has no target is one of the jumps of the loop. */
  lemma {:induction false} LoopPending(s: State, s3: State, m: nat, p: nat, breaks: seq<nat>)
    requires StateGood(s) && Ran(s, s3, m, [], {p} + SetOf(breaks), 0)
    ensures s.drafts != [] && s3.drafts != []
    ensures p >= |Last(s).code| && forall b :: b in breaks ==> b >= |Last(s).code|
    ensures forall i :: |Last(s).code| <= i < |Last(s3).code| && i != p && i !in breaks ==>
              NotOpen(PointsOf(Last(s3))[i])
  {
    var d, d' := Last(s), Last(s3);
    hide LevelGood, AllGood, StateGood;
    LastLevel(s);
    assert p in {p} + SetOf(breaks);
    forall b | b in breaks ensures b >= |d.code| {
      assert b in {p} + SetOf(breaks);
    }
    forall i | |d.code| <= i < |d'.code| && i != p && i !in breaks
      ensures NotOpen(PointsOf(d')[i])
    {
      assert i !in d'.pending;
    }
  }

  lemma {:induction false} OutlinedSize(s: State, s': State, c: Code)
    requires Outlined(s, s', c)
    ensures s.drafts != [] && s'.drafts != []
    ensures |s'.fns| == |s.fns| + |c.fns| && |Last(s').code| == |Last(s).code| + |c.points|
  {
  }

  lemma {:induction false} OutlinedNone(s: State, s': State)
    requires s.drafts != [] && s'.drafts != [] && s'.fns == s.fns && PointsOf(Last(s')) == PointsOf(Last(s))
    ensures Outlined(s, s', Mere([]))
  {
  }

  /** One instruction. */
  lemma {:induction false} OutlinedOne(s: State, s': State, i: Instr, name: string, now: Kinds, pending: bool)
    requires StateGood(s) && s'.drafts != [] && s'.fns == s.fns
    requires var d, d' := Appended(Last(s), i, name, now, pending), Last(s');
             d'.code == d.code && d'.names == d.names && d'.kinds == d.kinds && d'.pending == d.pending
    ensures Outlined(s, s', Here(MarkOf(i, name, pending), SiteOf(s), Last(s).temps))
  {
    NowIs(s);
    hide SiteOf, LevelGood, AllGood, StateGood;
    LastLevel(s);
    PointsOneMore(Last(s).code, Last(s).names, Last(s).kinds, Last(s).pending, i, name, Last(s).now, pending);
  }

  lemma {:induction false} PushFits(fns: seq<Function>, cs: seq<Compiler>, drafts: seq<Draft>, level: nat, i: Instr,
                                    name: string)
    requires level < |cs| == |drafts| && LevelGood(fns, cs, drafts, level)
    requires match i
             case Constant(_) => true
             case LoadLocal(slot) => slot < |cs[level].locals|
             case LoadUpvalue(u) => u < |DenotesOf(cs, level)|
             case MakeClosure(f) => f < |fns| && MakesOk(fns[f], level, Outers(drafts, level), DenotesOf(cs, level),
                                                         drafts[level].now)
             case _ => false
    requires NameOk(i, drafts[level].now, Outers(drafts, level), DenotesOf(cs, level), name)
    ensures var d := drafts[level];
            Fits(fns, level, Outers(drafts, level), DenotesOf(cs, level), d, i, name,
                 Slots(cs[level].locals, d.ids, d.temps + 1), false)
  {
    var d, locals := drafts[level], cs[level].locals;
    var now := Slots(locals, d.ids, d.temps + 1);
    assert now == d.now + [Temp];
    var d' := Appended(d, i, name, now, false);
    assert AllKinds(d')[|d.code|] == d.now && AllKinds(d')[|d.code| + 1] == now;
    assert Flows(AllKinds(d'), d.now + [Temp], |d.code| + 1);
  }

  class FunctionCompiler {
    const scopes: Compilers
    var drafts: seq<Draft>
    var fns: seq<Function>

    ghost predicate Ready()
      reads this, scopes
    {
      AllGood(fns, scopes.cs, drafts)
    }

    ghost predicate Good()
      reads this, scopes
    {
      Ready() && drafts != []
    }

    ghost function At(): Site
      reads this, scopes
    {
      SiteOf(Now())
    }

    /** The slots of the functions around one that begins here. */
    ghost function Around(): seq<Shape>
      requires drafts != []
      reads this, scopes
    {
      At().around + [Scope(At().names, Top().temps)]
    }

    /** The locals in scope. */
    ghost function Env(): Scopes
      reads scopes
    {
      NamesOf(scopes.cs)
    }

    ghost function Now(): State
      reads this, scopes
    {
      State(fns, scopes.cs, drafts)
    }

    function Top(): Draft
      requires drafts != []
      reads this
    {
      drafts[|drafts| - 1]
    }

    constructor ()
      ensures Ready() && drafts == [] && fns == [] && fresh(scopes)
    {
      scopes := new Compilers();
      drafts, fns := [], [];
    }

    lemma {:induction false} TopAligned()
      requires Good()
      ensures |scopes.cs| == |drafts| && Aligned(Top()) && |Top().ids| == |Locals(Now())|
    {
      LevelAligned(fns, scopes.cs, drafts, |drafts| - 1);
    }

    lemma {:induction false} TopLevel()
      requires Good()
      ensures drafts != [] && |scopes.cs| == |drafts| && LevelGood(fns, scopes.cs, drafts, |drafts| - 1)
    {
    }

    /** An instruction that pushes a value. */
    method EmitPush(i: Instr, name: string)
      requires Good()
      requires var level := |drafts| - 1;
               && (match i
                   case Constant(_) => true
                   case LoadLocal(slot) => slot < |scopes.cs[level].locals|
                   case LoadUpvalue(u) => u < |DenotesOf(scopes.cs, level)|
                   case MakeClosure(f) => f < |fns| && MakesOk(fns[f], level, Outers(drafts, level),
                                                               DenotesOf(scopes.cs, level), Top().now)
                                          && CapturesMarked(fns, scopes.cs[level].locals, f)
                   case _ => false)
               && NameOk(i, Top().now, Outers(drafts, level), DenotesOf(scopes.cs, level), name)
      modifies this`drafts
      ensures Good() && Did(old(Now()), Now(), old(Top().temps) + 1)
      ensures Outlined(old(Now()), Now(), Here(MarkOf(i, name, false), old(At()), old(Top().temps)))
    {
      hide LevelGood, Fits, MakesOk, Emitted, Went, NameOk, CapturesMarked, Outlined, MarkOf, AllGood;
      ghost var s := Now();
      var level := |drafts| - 1;
      var d := drafts[level];
      ghost var cs := scopes.cs;
      TopLevel();
      PushFits(fns, cs, drafts, level, i, name);
      LevelAppend(fns, cs, drafts, level, i, name, d.temps + 1, false);
      LevelAligned(fns, cs, drafts, level);
      var now := Slots(scopes.cs[level].locals, d.ids, d.temps + 1);
      AppendEmitted(d, i, name, now, d.temps + 1);
      Update(Appended(d, i, name, now, false).(temps := d.temps + 1));
      WentHere(fns, cs, old(drafts), drafts);
      OutlinedOne(s, Now(), i, name, d.now, false);
    }

    method EmitConstant(v: Value)
      requires Good()
      modifies this`drafts
      ensures Good() && Did(old(Now()), Now(), old(Top().temps) + 1)
      ensures Outlined(old(Now()), Now(), Here(Push(v), old(At()), old(Top().temps)))
    {
      EmitPush(Instr.Constant(v), "");
    }

    /** An instruction that leaves the slots as they are, or gives up the last one, a temporary. */
    method EmitDown(i: Instr, name: string, n: nat)
      requires Good() && n <= 1 && Top().temps >= n
      requires var level := |drafts| - 1;
               && (match i
                   case StoreLocal(slot) => n == 0 && slot < |scopes.cs[level].locals|
                   case StoreUpvalue(u) => n == 0 && u < |DenotesOf(scopes.cs, level)|
                   case Pop => n == 1
                   case _ => false)
               && NameOk(i, Top().now, Outers(drafts, level), DenotesOf(scopes.cs, level), name)
      modifies this`drafts
      ensures var temps := old(Top().temps); temps >= n && Good() && Did(old(Now()), Now(), temps - n)
      ensures Outlined(old(Now()), Now(), Here(MarkOf(i, name, false), old(At()), old(Top().temps)))
    {
      hide LevelGood, Fits, MakesOk, Emitted, Went, NameOk, CapturesMarked, Outlined, MarkOf, AllGood;
      ghost var s := Now();
      var level := |drafts| - 1;
      var d := drafts[level];
      ghost var cs := scopes.cs;
      TopLevel();
      DownFits(fns, cs, drafts, level, i, name, n);
      LevelAppend(fns, cs, drafts, level, i, name, d.temps - n, false);
      LevelAligned(fns, cs, drafts, level);
      var now := Slots(scopes.cs[level].locals, d.ids, d.temps - n);
      AppendEmitted(d, i, name, now, d.temps - n);
      Update(Appended(d, i, name, now, false).(temps := d.temps - n));
      WentHere(fns, cs, old(drafts), drafts);
      OutlinedOne(s, Now(), i, name, d.now, false);
    }

    /** A name is looked up in the function itself, and then in those around it. */
    method Lookup(name: string, store: bool) returns (ok: bool)
      requires Good() && (store ==> Top().temps > 0)
      modifies this`drafts, scopes
      ensures ok ==> Good() && Did(old(Now()), Now(), old(Top().temps) + if store then 0 else 1)
      ensures ok ==> Outlined(old(Now()), Now(),
                              Here(if store then Write(name) else Read(name), old(At()), old(Top().temps)))
      ensures ok <==> Known(old(Env()), name)
    {
      hide LevelGood, Did, Resolved, Outlined;
      if name == "" {
        return false;
      }
      TopAligned();
      var level := |drafts| - 1;
      var local := scopes.ResolveLocal(level, name);
      if local.None? {
        ok := LookupAround(name, store);
        return;
      }
      LocalMeans(fns, scopes.cs, drafts, level, name, local.value);
      LocalKnown(scopes.cs, level, name, local.value);
      if store {
        EmitDown(StoreLocal(local.value), name, 0);
      } else {
        EmitPush(LoadLocal(local.value), name);
      }
      return true;
    }

    method LookupAround(name: string, store: bool) returns (ok: bool)
      requires Good() && (store ==> Top().temps > 0) && name != "" && Lacks(scopes.cs[|drafts| - 1], name)
      modifies this`drafts, scopes
      ensures ok ==> Good() && Did(old(Now()), Now(), old(Top().temps) + if store then 0 else 1)
      ensures ok ==> Outlined(old(Now()), Now(),
                              Here(if store then Write(name) else Read(name), old(At()), old(Top().temps)))
      ensures ok <==> Known(old(Env()), name)
    {
      hide LevelGood, Did, Resolved, Known, MeansAround, NotIn, Lacks, Went, Emitted, Outlined, SiteOf, NamesOf, Here;
      ghost var s := Now();
      var level := |drafts| - 1;
      ghost var cs := scopes.cs;
      LacksNotIn(fns, cs, drafts, level, name);
      NoClasses(fns, cs, drafts);
      KnownMeans(cs, level, name);
      var upvalue := scopes.FindUpvalue(level, name);
      if upvalue.None? {
        return false;
      }
      FoundMeans(cs, scopes.cs, level, name, upvalue.value);
      AllStays(fns, fns, cs, scopes.cs, drafts);
      ghost var s1 := Now();
      UpvalueMeans(fns, scopes.cs, drafts, level, name, upvalue.value);
      if store {
        EmitDown(StoreUpvalue(upvalue.value), name, 0);
      } else {
        EmitPush(LoadUpvalue(upvalue.value), name);
      }
      FoundDid(s, s1, Now(), Last(s).temps + if store then 0 else 1);
      FoundSite(s, s1);
      FoundOutlined(s, s1, Now(), Here(if store then Write(name) else Read(name), SiteOf(s), Last(s).temps));
      return true;
    }

    /** An instruction that is known to fit. */
    method Put(i: Instr, temps: nat, pending: bool)
      requires Good() && |Top().ids| == |scopes.cs[|drafts| - 1].locals| && Aligned(Top())
      requires Fits(fns, |drafts| - 1, Outers(drafts, |drafts| - 1), DenotesOf(scopes.cs, |drafts| - 1), Top(), i, "",
                    Slots(scopes.cs[|drafts| - 1].locals, Top().ids, temps), pending)
      requires !i.MakeClosure?
      modifies this`drafts
      ensures Good()
      ensures drafts == old(drafts)[|old(drafts)| - 1 := Appended(old(Top()), i, "",
          Slots(scopes.cs[|drafts| - 1].locals, old(Top().ids), temps),
                                                                  pending).(temps := temps)]
    {
      var level := |drafts| - 1;
      var d := drafts[level];
      LevelAppend(fns, scopes.cs, drafts, level, i, "", temps, pending);
      Update(Appended(d, i, "", Slots(scopes.cs[level].locals, d.ids, temps), pending).(temps := temps));
    }

    /** One that neither jumps ahead nor gives up a slot. */
    method PutOne(i: Instr, temps: nat)
      requires Good() && |Top().ids| == |scopes.cs[|drafts| - 1].locals| && Aligned(Top())
      requires Fits(fns, |drafts| - 1, Outers(drafts, |drafts| - 1), DenotesOf(scopes.cs, |drafts| - 1), Top(), i, "",
                    Slots(scopes.cs[|drafts| - 1].locals, Top().ids, temps), false)
      requires !i.MakeClosure? && i != Pop
      modifies this`drafts
      ensures Good() && Did(old(Now()), Now(), temps)
      ensures Outlined(old(Now()), Now(), Here(MarkOf(i, "", false), old(At()), old(Top().temps)))
    {
      hide Fits, LevelGood, AllGood, Outlined, Slots, MarkOf;
      TopAligned();
      ghost var s := Now();
      var d := Top();
      Put(i, temps, false);
      AppendEmitted(d, i, "", Slots(scopes.cs[|drafts| - 1].locals, d.ids, temps), temps);
      SelfGrown(scopes.cs);
      OutlinedOne(s, Now(), i, "", d.now, false);
    }

    /** The function called and its arguments become the result. */
    method EmitCall(n: nat)
      requires Good() && Top().temps > n
      modifies this`drafts
      ensures var temps := old(Top().temps); temps > n && Good() && Did(old(Now()), Now(), temps - n)
      ensures Outlined(old(Now()), Now(), Here(Invoke(n), old(At()), old(Top().temps)))
    {
      hide Fits, LevelGood, AllGood, Outlined, Did;
      TopLevel();
      CallFits(fns, scopes.cs, drafts, |drafts| - 1, n);
      LevelAligned(fns, scopes.cs, drafts, |drafts| - 1);
      PutOne(Call(n), Top().temps - n);
    }

    /** The last temporary is returned. */
    method EmitReturn()
      requires Good() && Top().temps > 0
      modifies this`drafts
      ensures Good() && Did(old(Now()), Now(), 0)
      ensures Outlined(old(Now()), Now(), Here(End, old(At()), old(Top().temps)))
    {
      hide Fits, LevelGood, AllGood, Outlined, Did;
      TopLevel();
      ReturnFits(fns, scopes.cs, drafts, |drafts| - 1);
      LevelAligned(fns, scopes.cs, drafts, |drafts| - 1);
      PutOne(Return, 0);
    }

    /** A jump whose target comes later; a conditional one takes the last temporary. */
    method EmitJump(conditional: bool, ghost m: nat) returns (p: nat)
      requires Good() && (if conditional then Top().temps == 1 else Top().temps == 0) && m <= |Locals(Now())|
      modifies this`drafts
      ensures Good() && p == |old(Top().code)| && Ran(old(Now()), Now(), m, [], {p}, 0)
      ensures Leaves(Top(), p)
      ensures Outlined(old(Now()), Now(), Here(if conditional then HoleUnless else Hole, old(At()), old(Top().temps)))
    {
      hide Fits, LevelGood, AllGood, Ran, Leaves, Outlined;
      ghost var s := Now();
      var d := Top();
      var i := if conditional then JumpIf(0) else Jump(0);
      TopLevel();
      JumpFits(fns, scopes.cs, drafts, |drafts| - 1, i);
      LevelAligned(fns, scopes.cs, drafts, |drafts| - 1);
      Put(i, 0, true);
      p := |d.code|;
      JumpRan(s, Now(), i, m);
      OutlinedOne(s, Now(), i, "", d.now, true);
    }

    /** A jump back. */
    method EmitLoop(start: nat, ghost m: nat)
      requires Good() && Top().temps == 0 && m <= |Locals(Now())| && Aligned(Top())
      requires start < |AllKinds(Top())| && AllKinds(Top())[start] == Top().now && NotPopped(Top(), start, Top().now)
      modifies this`drafts
      ensures Good() && Ran(old(Now()), Now(), m, [], {}, 0)
      ensures Outlined(old(Now()), Now(), Here(Back(start), old(At()), 0))
    {
      hide Fits, LevelGood, AllGood, Outlined;
      ghost var s := Now();
      var d := Top();
      TopLevel();
      LoopFits(fns, scopes.cs, drafts, |drafts| - 1, start);
      LevelAligned(fns, scopes.cs, drafts, |drafts| - 1);
      PutOne(Loop(start), 0);
      EmittedRan(s, Now(), m, 0);
    }

    /** A jump gets its target. */
    method PatchJump(p: nat, ghost s: State, ghost m: nat, ghost breaks: seq<nat>, ghost others: set<nat>,
                     ghost temps: nat)
      requires Good() && StateGood(s) && Ran(s, Now(), m, breaks, others, temps) && p in others
      requires Leaves(Top(), p)
      modifies this`drafts
      ensures Good() && Ran(s, Now(), m, breaks, others - {p}, temps)
      ensures drafts == old(drafts)[|old(drafts)| - 1 := Patched(old(Top()), p)]
      ensures fns == old(fns) && scopes.cs == old(scopes.cs) && p < |old(Top().code)|
      ensures PointsOf(Top()) == old(PointsOf(Top())[p := Filled(PointsOf(Top())[p], |Top().code|)])
    {
      var d := Top();
      PatchedMarks(s, Now(), m, breaks, others, temps, p);
      RanPatched(s, Now(), m, breaks, others, temps, p);
      LevelPatch(fns, scopes.cs, drafts, |drafts| - 1, p);
      hide Ran, LevelGood, Patched;
      Update(Patched(d, p));
    }

    /** The last temporary becomes a local of the current scope. */
    method Declare(name: string, ghost m: nat) returns (ok: bool)
      requires Good() && Top().temps == 1 && m <= |Locals(Now())|
      modifies this`drafts, scopes
      ensures ok ==> Good() && Ran(old(Now()), Now(), m, [], {}, 0) && fns == old(fns)
      ensures ok ==> Outlined(old(Now()), Now(), Mere([]))
      ensures |old(scopes.cs)| > 0 && (ok ==> Env() == Declaring(old(Env()), name, old(Top().depth)))
      ensures var scope := old(Env())[|old(scopes.cs)| - 1];
              ok <==> !Taken(scope, name, old(Top().depth)) && |scope| != MAX_LOCALS
    {
      hide LevelGood, AllGood, Taken, Ran, Outlined, Slots, SiteOf, Aligned;
      TopAligned();
      var level := |drafts| - 1;
      var d, c := drafts[level], scopes.cs[level];
      var i := |c.locals|;
      while i > 0 && c.locals[i - 1].depth >= d.depth
        invariant 0 <= i <= |c.locals| && forall j :: i <= j < |c.locals| ==> c.locals[j].name != name
        modifies {}
      {
        TakenBy(fns, scopes.cs, drafts, i - 1, name);
        if c.locals[i - 1].name == name {
          return false;
        }
        i := i - 1;
      }
      if |c.locals| == MAX_LOCALS {
        return false;
      }
      NotTaken(fns, scopes.cs, drafts, i, name);
      ghost var s := Now();
      var locals := c.locals + [Local(name, d.depth, false)];
      var ids := d.ids + [d.next];
      scopes.cs := scopes.cs[level := c.(locals := locals)];
      drafts := drafts[level := d.(now := Slots(locals, ids, 0), ids := ids, next := d.next + 1, temps := 0)];
      Declared(s, Now(), name, m);
      OutlinedNone(s, Now());
      DeclaredNames(s.cs, scopes.cs, name, d.depth);
      return true;
    }

    /** The code that gives up the locals at `depth` or deeper, which stay in scope. */
    method Discards(depth: int) returns (d: Draft, n: nat)
      requires Good() && Top().temps == 0 && depth >= 0
      ensures n < |Locals(Now())| && Discarded(Now(), d, n) && PointsOf(d) == PointsOf(Top()) + Drops(At().names, n)
      ensures var locals := Locals(Now());
              (forall i :: |locals| - n <= i < |locals| ==>
                  locals[i].depth >= depth) && locals[|locals| - 1 - n].depth < depth
    {
      hide LevelGood, AllGood, Discarded, Closures.Discards, PointsOf, Drops, SiteOf, Appended;
      TopAligned();
      var level := |drafts| - 1;
      d := drafts[level];
      ghost var s := Now();
      ghost var locals := Locals(s);
      var code := scopes.DiscardLocals(level, depth);
      FirstStays(s, depth, code);
      NoneDiscarded(s);
      NoDrops(d, SiteOf(s).names);
      n := 0;
      while n < |code|
        invariant n <= |code| < |locals| && Discarded(s, d, n)
                  && PointsOf(d) == PointsOf(Top()) + Drops(SiteOf(s).names, n)
      {
        var op := if code[n] == Closed then CloseUpvalue else Pop;
        GivenUp(s, d, n, depth, code[n]);
        d := Appended(d, op, "", d.now[..|d.now| - 1], false);
        n := n + 1;
      }
      forall i | |locals| - n <= i < |locals| ensures locals[i].depth >= depth {
        DiscardIs(locals, depth, |locals| - 1 - i, code[|locals| - 1 - i]);
      }
    }

    /** A scope ends: its locals, those from `n` on, are given up. */
    method PopScope(ghost n: nat)
      requires Good() && Top().temps == 0 && Top().depth > 0 && 0 < n <= |Locals(Now())|
      requires forall i :: 0 <= i < |Locals(Now())| ==> (Locals(Now())[i].depth < Top().depth <==> i < n)
      modifies this`drafts, scopes
      ensures Good() && fns == old(fns) && PoppedScope(old(Now()), Now(), n)
      ensures Outlined(old(Now()), Now(), Mere(Drops(old(At()).names, old(|Locals(Now())|) - n)))
    {
      hide PoppedScope, Outlined, PointsOf, Drops;
      ghost var s := Now();
      var level := |drafts| - 1;
      var d, k := Discards(drafts[level].depth);
      var c := scopes.cs[level];
      var left := |c.locals| - k;
      Border(c.locals, drafts[level].depth, k, n);
      LevelAligned(fns, scopes.cs, drafts, level);
      scopes.cs := scopes.cs[level := c.(locals := c.locals[..left])];
      drafts := drafts[level := d.(ids := d.ids[..left], depth := d.depth - 1)];
      ScopePopped(s, Now(), d, n);
      DropsOutlined(s, Now(), d, |Locals(s)| - n);
    }

    /** Out of the loop: the locals declared within it are given up, and a jump gets its target at the end of the
        loop. */
    method EmitBreak(loopDepth: int, ghost m: nat) returns (breaks: seq<nat>)
      requires Good() && Top().temps == 0 && loopDepth >= 0 && 0 < m <= |Locals(Now())|
      requires forall i :: 0 <= i < |Locals(Now())| ==> (Locals(Now())[i].depth <= loopDepth <==> i < m)
      modifies this`drafts
      ensures Good() && Ran(old(Now()), Now(), m, breaks, {}, 0)
      ensures Outlined(old(Now()), Now(), LeavingCode(old(At()), old(|Locals(Now())|) - m))
    {
      hide Ran, LevelGood, Discarded, AllGood, Outlined, PointsOf, Drops;
      ghost var s := Now();
      var level := |drafts| - 1;
      TopAligned();
      var d, k := Discards(loopDepth + 1);
      Border(scopes.cs[level].locals, loopDepth + 1, k, m);
      breaks := [|d.code|];
      var d' := Appended(d, Jump(0), "", drafts[level].now, true);
      LeftLoop(s, d, d', m);
      Update(d');
      BreakOutlined(s, Now(), d, |Locals(s)| - m);
    }

    /** A function begins: its parameters are its first locals, after a slot for the function itself. */
    method Begin(params: seq<string>) returns (ok: bool)
      requires Ready()
      modifies this`drafts, scopes
      ensures ok ==> Good() && fns == old(fns) && Begun(old(Now()), Now(),
                                                        |params|) && Env() == old(Env()) + [Params(params)]
      ensures ok <==> Distinct(params) && |params| <= MAX_PARAMETERS
    {
      for i := 0 to |params|
        invariant forall k, l :: 0 <= k < l < i ==> params[k] != params[l]
      {
        for j := 0 to i
          invariant forall k :: 0 <= k < j ==> params[k] != params[i]
        {
          if params[i] == params[j] {
            return false;
          }
        }
      }
      if |params| > MAX_PARAMETERS {
        return false;
      }
      ghost var s := Now();
      var locals := [Local("", -1, false)] + seq(|params|, i requires 0 <= i < |params| => Local(params[i], 0, false));
      var ids := seq(|locals|, i => i);
      scopes.cs := scopes.cs + [Compiler(locals, [], false)];
      drafts := drafts + [Draft([], [], [], Slots(locals, ids, 0), {}, ids, 0, |ids|, 0)];
      BegunGood(s, Now(), |params|);
      assert NamesIn(locals) == Params(params);
      assert Env() == NamesOf(s.cs) + [Params(params)];
      return true;
    }

    /** A function ends, with a value to return: it is kept, and compiling goes on with the one around it. */
    method Finish(arity: nat) returns (f: nat)
      requires Good() && Top().temps == 1 && Top().pending == {} && Aligned(Top()) && |AllKinds(Top())[0]| == arity + 1
      modifies this`drafts, this`fns, scopes
      ensures Ready() && f < |fns| && FinishedAs(old(Now()), Now(), f) && fns[f].arity == arity && ProgramOk(fns)
      ensures f == |fns| - 1 && OutlinesOf(fns) == old(OutlinesOf(fns))
              + [Outline(arity, old(At()).around, old(PointsOf(Top())) + Here(End, old(At()), 1).points)]
    {
      ghost var s := Now();
      var level := |drafts| - 1;
      var d := drafts[level];
      TopAligned();
      var denotes := DenotesOf(scopes.cs, level);
      f := |fns|;
      var g := Function(level, arity, d.code + [Return], d.kinds + [d.now], d.names + [""], scopes.cs[level].upvalues,
                        denotes,
                        Outers(drafts, level));
      fns := fns + [g];
      scopes.cs := scopes.cs[..level];
      drafts := drafts[..level];
      FinishedGood(s, Now(), g);
      FinishedOutlines(s, g);
    }

    // ----- The program --------------------------------------------------------------------------------------

    /** A whole program: a function without parameters, within no other. */
    method Program(body: seq<Definition>) returns (ok: bool, main: nat)
      requires Ready() && drafts == []
      modifies this`drafts, this`fns, scopes
      ensures ok ==> ProgramOk(fns) && main < |fns| && fns[main].level == 0
      ensures ok ==> fns[main].arity == 0 && fns[main].upvalues == []
      ensures ok ==> main == |fns| - 1 && OutlinesOf(fns) == old(OutlinesOf(fns)) + OfFunction([], body, old(|fns|), [])
      ensures ok <==> LegalD([Params([])], 0, body, false)
    {
      hide LevelGood, Did, Ran, Begun, Outlined, AllGood, OfDefs, OfFunction, OutlinesOf, PointsOf, FunctionOk, Went,
           Within, DenotesOf, Outers, Resolved, ProgramOk, SiteOf, Here, With, VarNames, Entry, LegalD, Slots, Aligned,
           AllKinds, InLoop;
      main := 0;
      ghost var s0 := Now();
      ok := Begin([]);
      if !ok {
        return;
      }
      ghost var s1, s2 := Now(), Now();
      BegunFacts(s0, s1, 0);
      BegunSite(s0, s1, []);
      assert Env() == [Params([])];
      ok, s2 := Inside([], body, s0, []);
      if !ok {
        return;
      }
      BodyFacts(s0, s1, s2, Now(), 0);
      OuterUpvalues(s0, s1, s2, Now());
      main := Finish(0);
    }

    /** What is inside a function, and what it does in the end if it does not return by itself. */
    method Inside(params: seq<string>, body: seq<Definition>, ghost s0: State, ghost around: seq<Shape>)
      returns (ok: bool, ghost s2: State)
      requires Good() && Top().temps == 0 && InLoop(Now(), None, |params| + 1)
      requires Begun(s0, Now(), |params|) && At() == Entry(params, around)
      modifies this`drafts, this`fns, scopes
      ensures ok ==> Good() && Ran(old(Now()), s2, |params| + 1, [], {}, 0) && Did(s2, Now(), 1)
      ensures ok ==> OutlinesOf(fns) + [Outline(|params|, At().around, PointsOf(Top()) + Here(End, At(), 1).points)]
                     == OutlinesOf(s0.fns) + OfFunction(params, body, |s0.fns|, around)
      ensures |old(scopes.cs)| > 0 && (ok <==> LegalD(old(Env()), old(Top().depth), body, false))
      decreases body, 2
    {
      hide LevelGood, AllGood, Did, Ran, Begun, LegalD, Outlined, OfDefs, OfFunction, OutlinesOf, PointsOf, SiteOf,
           Here, With, VarNames, Entry, Within, InLoop, NamesOf, Aligned, Resolved, ProgramOk;
      ghost var s1 := Now();
      s2 := s1;
      var breaks;
      ok, breaks := Definitions(body, None, |params| + 1);
      if !ok {
        return;
      }
      s2 := Now();
      RanTemp(s1, s2, |params| + 1, [], {}, 0);
      EmitConstant(Null);
      DidSite(s2, Now(), 1);
      BodyOutlined(s0, s1, s2, Now(), params, body, around);
    }

    /** An expression leaves its value on the stack. */
    method Expression(e: Expr) returns (ok: bool)
      requires Good()
      modifies this`drafts, this`fns, scopes
      ensures ok ==> Good() && Did(old(Now()), Now(), old(Top().temps) + 1)
      ensures ok ==> Outlined(old(Now()), Now(), OfExpr(e, old(|fns|), old(At()), old(Top().temps)))
      ensures ok <==> LegalE(old(Env()), e)
      decreases e, 2
    {
      hide LevelGood, AllGood, Did, Outlined, LegalD, OfArgs, OfFunction, SiteOf, NamesOf, Aligned;
      ghost var s := Now();
      match e {
        case Constant(v) =>
          EmitConstant(v);
          ok := true;
        case Name(x) =>
          ok := Lookup(x, false);
        case Assign(x, value) =>
          ok := Expression(value);
          if ok {
            ghost var s1 := Now();
            DidTemps(s, s1, Last(s).temps + 1);
            DidNames(s, s1, Last(s).temps + 1);
            DidSite(s, s1, Last(s).temps + 1);
            ok := Lookup(x, true);
            if ok {
              DidThen(s, s1, Now(), Last(s).temps + 1, Last(s).temps + 1);
              OutlinedOn(s, s1, Now(), OfExpr(value, |s.fns|, SiteOf(s), Last(s).temps),
                         Here(Write(x), SiteOf(s), Last(s).temps + 1));
            }
          }
        case Fn(_, _) =>
          ok := FunctionLiteral(e);
        case CallOf(_, _) =>
          ok := CallExpression(e);
      }
    }

    /** A call: the function called, its arguments, and the call itself. */
    method CallExpression(e: Expr) returns (ok: bool)
      requires Good() && e.CallOf?
      modifies this`drafts, this`fns, scopes
      ensures ok ==> Good() && Did(old(Now()), Now(), old(Top().temps) + 1)
      ensures ok ==> Outlined(old(Now()), Now(), OfExpr(e, old(|fns|), old(At()), old(Top().temps)))
      ensures ok <==> LegalE(old(Env()), e)
      decreases e, 0
    {
      hide LevelGood, AllGood, Did, Outlined, OfArgs, OfExpr, SiteOf, Here, NamesOf, Aligned;
      ghost var s := Now();
      ghost var t := Last(s).temps;
      if |e.args| > MAX_PARAMETERS {
        return false;
      }
      ok := Expression(e.callee);
      if !ok {
        return;
      }
      ghost var c := OfExpr(e.callee, |s.fns|, SiteOf(s), t);
      ghost var called := Now();
      OutlinedSize(s, called, c);
      DidSite(s, called, t + 1);
      ArgsOutlined0(called, e.args, t + 1);
      for i := 0 to |e.args|
        invariant Good() && Did(s, Now(), t + 1 + i) && forall j :: 0 <= j < i ==> LegalE(NamesOf(s.cs), e.args[j])
        invariant Outlined(called, Now(), OfArgs(e.args, i, |called.fns|, SiteOf(called), t + 1))
      {
        ghost var s1 := Now();
        DidTemps(s, s1, t + 1 + i);
        DidNames(s, s1, t + 1 + i);
        DidSite(s, s1, t + 1 + i);
        ok := Expression(e.args[i]);
        if !ok {
          return;
        }
        DidThen(s, s1, Now(), t + 1 + i, t + 2 + i);
        ArgsOutlined(called, s1, Now(), e.args, i, t + 1);
      }
      ghost var s2 := Now();
      DidTemps(s, s2, t + 1 + |e.args|);
      DidSite(s, s2, t + 1 + |e.args|);
      EmitCall(|e.args|);
      DidThen(s, s2, Now(), t + 1 + |e.args|, t + 1);
      CallOutlined(s, called, s2, Now(), e, t);
      return true;
    }

    /** A function within the function: it is compiled, and the code that makes it a closure is added. */
    method FunctionLiteral(e: Expr) returns (ok: bool)
      requires Good() && e.Fn?
      modifies this`drafts, this`fns, scopes
      ensures ok ==> Good() && Did(old(Now()), Now(), old(Top().temps) + 1)
      ensures ok ==> Outlined(old(Now()), Now(), OfExpr(e, old(|fns|), old(At()), old(Top().temps)))
      ensures ok <==> LegalE(old(Env()), e)
      decreases e, 1
    {
      hide LevelGood, AllGood, Did, MakesOk, CapturesMarked, Went, Outlined, OfFunction, OutlinesOf, LegalE, LegalD,
           NamesOf, DenotesOf, Outers;
      ghost var s := Now();
      var f;
      ok, f := FunctionBody(e);
      if ok {
        ghost var s1 := Now();
        EmitPush(MakeClosure(f), "");
        LiteralDid(s, s1, Now(), Last(s).temps + 1);
        WentNames(s, s1);
        SameSite(s, s1);
        LiteralOutlined(s, s1, Now(), e, f, Last(s).temps);
      }
    }

    /** The function is compiled; the one around it is as it was, but for the marks of what was captured. */
    method FunctionBody(e: Expr) returns (ok: bool, f: nat)
      requires Good() && e.Fn?
      modifies this`drafts, this`fns, scopes
      ensures ok ==>
                Good() && drafts == old(drafts) && Went(old(fns), old(scopes.cs), old(drafts), fns, scopes.cs, drafts)
      ensures ok ==> var t := |drafts| - 1;
                     && f < |fns| && |scopes.cs| == |drafts|
                     && MakesOk(fns[f], t, Outers(drafts, t), DenotesOf(scopes.cs, t), Top().now)
                     && CapturesMarked(fns, scopes.cs[t].locals, f)
      ensures ok ==> f == |fns| - 1 && Env() == old(Env())
                     && OutlinesOf(fns) == old(OutlinesOf(fns)) + OfFunction(e.params, e.body, old(|fns|),
                                                                             old(Around()))
      ensures ok <==> LegalE(old(Env()), e)
      decreases e, 0
    {
      hide LevelGood, AllGood, Did, Ran, Begun, FinishedAs, MakesOk, CapturesMarked, Went, LegalE, LegalD, Distinct,
           Params, Outlined, OfDefs, OfFunction, OutlinesOf, PointsOf, SiteOf, Here, NamesOf, Aligned, Entry;
      f := 0;
      LegalFn(Env(), e);
      ghost var s0, around := Now(), Around();
      ok := Begin(e.params);
      if !ok {
        return;
      }
      ghost var s1 := Now();
      BegunFacts(s0, s1, |e.params|);
      BegunSite(s0, s1, e.params);
      ghost var s2 := s1;
      ok, s2 := Inside(e.params, e.body, s0, around);
      if !ok {
        return;
      }
      ghost var s3 := Now();
      BodyFacts(s0, s1, s2, s3, |e.params|);
      f := Finish(|e.params|);
      LiteralBack(s0, s1, s2, s3, Now(), f, |e.params|);
      WentNames(s0, Now());
    }

    /** Declarations and statements, in order. */
    method Definitions(body: seq<Definition>, loop: LoopScope, ghost m: nat) returns (ok: bool, breaks: seq<nat>)
      requires Good() && Top().temps == 0 && InLoop(Now(), loop, m) && (loop.Some? ==> Top().depth > loop.value)
      modifies this`drafts, this`fns, scopes
      ensures ok ==> Good() && Ran(old(Now()), Now(), m, breaks, {}, 0) && (loop.None? ==> breaks == [])
      ensures ok ==> Outlined(old(Now()), Now(),
                              OfDefs(body, |body|, old(|Top().code|), old(|fns|), old(At()), Within(old(Now()), m)))
      ensures ok ==> |scopes.cs| > 0 && At() == With(old(At()), VarNames(body, |body|))
      ensures |old(scopes.cs)| > 0 && (ok <==> LegalD(old(Env()), old(Top().depth), body, loop.Some?))
      decreases body, 0
    {
      hide LevelGood, AllGood, Did, Ran, InLoop, LegalD, LegalOne, Then, Outlined, OfDefs, OfDef, Within, VarNames,
           NamesOf, Aligned, Resolved;
      TopAligned();
      LegalEnds(Env(), Top().depth, body, loop.Some?);
      InLoopBelow(Now(), loop, m);
      ghost var s := Now();
      ghost var depth := Top().depth;
      breaks := [];
      NothingRan(s, m, loop);
      DefsOutlined0(s, body, m);
      for i := 0 to |body|
        invariant Good() && Ran(s, Now(), m, breaks, {}, 0) && (loop.None? ==> breaks == [])
        invariant Top().depth == depth && |scopes.cs| > 0
        invariant At() == With(SiteOf(s), VarNames(body, i))
        invariant Outlined(s, Now(), OfDefs(body, i, |Last(s).code|, |s.fns|, SiteOf(s), Within(s, m)))
        invariant LegalD(NamesOf(s.cs), depth, body, loop.Some?) == LegalD(Env(), depth, body[i..], loop.Some?)
      {
        LegalStep(Env(), depth, body, i, loop.Some?);
        ghost var s1 := Now();
        RanFacts(s, s1, m, breaks, {}, 0, loop);
        var more;
        ok, more := Define(body[i], loop, m);
        if !ok {
          return;
        }
        RanSeq(s, s1, Now(), m, breaks, 0, more, 0);
        RanDepth(s1, Now(), m, more, {}, 0);
        DefinedSite(s1, Now(), m, more, body[i], depth);
        MoreNames(SiteOf(s), body, i);
        DefsOutlined(s, s1, Now(), body, i, m);
        breaks := breaks + more;
      }
      LegalEnds(Env(), depth, body, loop.Some?);
      ok := true;
    }

    method Define(def: Definition, loop: LoopScope, ghost m: nat) returns (ok: bool, breaks: seq<nat>)
      requires Good() && Top().temps == 0 && InLoop(Now(), loop, m) && (loop.Some? ==> Top().depth > loop.value)
      modifies this`drafts, this`fns, scopes
      ensures ok ==> Good() && Ran(old(Now()), Now(), m, breaks, {}, 0) && (loop.None? ==> breaks == [])
      ensures ok ==> Outlined(old(Now()), Now(),
                              OfDef(def, old(|Top().code|), old(|fns|), old(At()), Within(old(Now()), m)))
      ensures |old(scopes.cs)| > 0 && (ok <==> LegalOne(old(Env()), old(Top().depth), def, loop.Some?))
      ensures ok ==> Env() == Then(old(Env()), old(Top().depth), def)
      decreases def, 0
    {
      hide LevelGood, AllGood, Did, Ran, Outlined, OfStmt, OfExpr, Within, LegalE, LegalS, InLoop, NamesOf, Aligned,
           Taken;
      TopAligned();
      InLoopBelow(Now(), loop, m);
      ghost var s := Now();
      breaks := [];
      match def {
        case Var(name, value) =>
          ok := DefineVar(name, value, m);
        case Plain(stmt) =>
          ok, breaks := Statement(stmt, loop, m);
          if ok {
            RanNames(s, Now(), m, breaks, {}, 0);
          }
      }
    }

    method DefineVar(name: string, value: Expr, ghost m: nat) returns (ok: bool)
      requires Good() && Top().temps == 0 && m <= |Locals(Now())|
      modifies this`drafts, this`fns, scopes
      ensures ok ==> Good() && Ran(old(Now()), Now(), m, [], {}, 0)
      ensures ok ==> Outlined(old(Now()), Now(), OfExpr(value, old(|fns|), old(At()), 0))
      ensures |old(scopes.cs)| > 0 && (ok ==> Env() == Declaring(old(Env()), name, old(Top().depth)))
      ensures var scope := old(Env())[|old(scopes.cs)| - 1];
              ok <==> LegalE(old(Env()), value) && !Taken(scope, name, old(Top().depth)) && |scope| != MAX_LOCALS
      decreases value, 3
    {
      hide LevelGood, AllGood, Did, Ran, LegalE, Taken, Declaring, Aligned, Outlined, OfExpr, NamesOf, Went,
           OutlinesOf, Resolved;
      TopAligned();
      ghost var s := Now();
      ok := Expression(value);
      if !ok {
        return;
      }
      ghost var s1 := Now();
      DidRan(s, s1, m, 1);
      DidNames(s, s1, 1);
      ok := Declare(name, m);
      if ok {
        RanSeq(s, s1, Now(), m, [], 1, [], 0);
        OutlinedOn(s, s1, Now(), OfExpr(value, |s.fns|, SiteOf(s), 0), Mere([]));
        PlusNone(OfExpr(value, |s.fns|, SiteOf(s), 0));
      }
    }

    /** A statement leaves the locals and the stack as they are. */
    method Statement(stmt: Stmt, loop: LoopScope, ghost m: nat) returns (ok: bool, breaks: seq<nat>)
      requires Good() && Top().temps == 0 && InLoop(Now(), loop, m)
      modifies this`drafts, this`fns, scopes
      ensures ok ==> Good() && Ran(old(Now()), Now(), m, breaks, {}, 0) && (loop.None? ==> breaks == [])
                     && Top().ids == old(Top().ids)
      ensures ok ==> Outlined(old(Now()), Now(),
                              OfStmt(stmt, old(|Top().code|), old(|fns|), old(At()), Within(old(Now()), m)))
      ensures ok <==> LegalS(old(Env()), old(Top().depth), stmt, loop.Some?)
      decreases stmt, 1
    {
      hide LevelGood, AllGood, Did, Ran, Outlined, OfExpr, OfStmt, Drops, LegalE, LegalD, SiteOf, NamesOf, PointsOf,
           Went, Here, OfDefs;
      TopAligned();
      ghost var s := Now();
      StmtCases(stmt, |Last(s).code|, |s.fns|, SiteOf(s), Within(s, m));
      breaks := [];
      match stmt {
        case Do(e) =>
          ok := Expression(e);
          if ok {
            ghost var s1 := Now();
            DidTemps(s, s1, 1);
            EmitDown(Pop, "", 1);
            DidThen(s, s1, Now(), 1, 0);
            DidRan(s, Now(), m, 0);
            DidSite(s, s1, 1);
            OutlinedOn(s, s1, Now(), OfExpr(e, |s.fns|, SiteOf(s), 0), Here(Drop, SiteOf(s), 1));
          }
        case ReturnOf(e) =>
          ok := Expression(e);
          if ok {
            ghost var s1 := Now();
            DidTemps(s, s1, 1);
            EmitReturn();
            DidThen(s, s1, Now(), 1, 0);
            DidRan(s, Now(), m, 0);
            DidSite(s, s1, 1);
            OutlinedOn(s, s1, Now(), OfExpr(e, |s.fns|, SiteOf(s), 0), Here(End, SiteOf(s), 1));
          }
        case Break =>
          if loop.None? {
            return false, [];
          }
          breaks := EmitBreak(loop.value, m);
          ok := true;
          BreakIds(s, Now(), m, breaks);
        case Block(_) =>
          ok, breaks := BlockStatement(stmt, loop, m);
        case If(_, _) =>
          ok, breaks := IfStatement(stmt, loop, m);
        case IfElse(_, _, _) =>
          ok, breaks := IfElseStatement(stmt, loop, m);
        case While(_, _) =>
          ok := WhileStatement(stmt, loop, m);
      }
    }

    method PushScope()
      requires Good()
      modifies this`drafts
      ensures Good() && drafts == old(drafts)[|old(drafts)| - 1 := old(Top()).(depth := old(Top()).depth + 1)]
    {
      var d := Top();
      Deeper(Now());
      Update(d.(depth := d.depth + 1));
    }

    /** A block is a scope of its own. */
    method BlockStatement(stmt: Stmt, loop: LoopScope, ghost m: nat) returns (ok: bool, breaks: seq<nat>)
      requires Good() && Top().temps == 0 && InLoop(Now(), loop, m) && stmt.Block?
      modifies this`drafts, this`fns, scopes
      ensures ok ==> Good() && Ran(old(Now()), Now(), m, breaks, {}, 0) && (loop.None? ==> breaks == [])
                     && Top().ids == old(Top().ids)
      ensures ok ==> Outlined(old(Now()), Now(),
                              OfStmt(stmt, old(|Top().code|), old(|fns|), old(At()), Within(old(Now()), m)))
      ensures ok <==> LegalS(old(Env()), old(Top().depth), stmt, loop.Some?)
      decreases stmt, 0
    {
      hide LevelGood, AllGood, Ran, PoppedScope, Outlined, OfDefs, OfStmt, Drops, LegalD, PointsOf, SiteOf, VarNames,
           With, Within, NamesOf;
      ghost var s0 := Now();
      PushScope();
      ghost var s1 := Now();
      DeeperSite(s0, s1);
      assert InLoop(s1, loop, m);
      ok, breaks := Definitions(stmt.parts, loop, m);
      if !ok {
        return;
      }
      ghost var s2 := Now();
      ScopeFacts(s0, s1, s2, m, breaks);
      PopScope(|Locals(s0)|);
      BlockRan(s0, s1, s2, Now(), m, breaks);
      BlockOutlined(s0, s1, s2, Now(), stmt, m);
    }

    method IfStatement(stmt: Stmt, loop: LoopScope, ghost m: nat) returns (ok: bool, breaks: seq<nat>)
      requires Good() && Top().temps == 0 && InLoop(Now(), loop, m) && stmt.If?
      modifies this`drafts, this`fns, scopes
      ensures ok ==> Good() && Ran(old(Now()), Now(), m, breaks, {}, 0) && (loop.None? ==> breaks == [])
                     && Top().ids == old(Top().ids)
      ensures ok ==> Outlined(old(Now()), Now(),
                              OfStmt(stmt, old(|Top().code|), old(|fns|), old(At()), Within(old(Now()), m)))
      ensures ok <==> LegalS(old(Env()), old(Top().depth), stmt, loop.Some?)
      decreases stmt, 0
    {
      hide LevelGood, AllGood, Ran, InLoop, Leaves, Outlined, OfExpr, OfStmt, PointsOf, LegalE, OtherwiseOutlined,
           Went, Emitted, Slots, FunctionOk, Within, Filled, NamesOf, Resolved, SiteOf, Here, CondCode, LegalD,
           Aligned, AllKinds;
      TopAligned();
      ghost var s := Now();
      var ifJump;
      breaks := [];
      ok, ifJump := Condition(stmt.cond, loop, m);
      if !ok {
        return;
      }
      ghost var s1 := Now();
      ok, breaks := Statement(stmt.thenBranch, loop, m);
      if !ok {
        return;
      }
      RanOn(s, s1, Now(), m, [], {ifJump}, 0, breaks, {}, 0);
      StillPending(s1, Now(), m, breaks, ifJump);
      assert [] + breaks == breaks && {ifJump} + {} == {ifJump};
      ghost var s2 := Now();
      PatchJump(ifJump, s, m, breaks, {ifJump}, 0);
      assert {ifJump} - {ifJump} == {};
      IfOutlined(s, s1, s2, Now(), stmt, ifJump, m);
    }

    /** A condition, and the jump that is taken when it is false. */
    method Condition(e: Expr, loop: LoopScope, ghost m: nat) returns (ok: bool, p: nat)
      requires Good() && Top().temps == 0 && InLoop(Now(), loop, m)
      modifies this`drafts, this`fns, scopes
      ensures ok ==> Good() && Ran(old(Now()), Now(), m, [], {p},
                                   0) && Top().temps == 0 && Top().ids == old(Top().ids) && InLoop(Now(), loop, m)
      ensures ok ==> Leaves(Top(), p) && p == |Top().code| - 1 && Within(Now(), m) == Within(old(Now()), m)
      ensures ok ==> Outlined(old(Now()), Now(), CondCode(e, old(|fns|), old(At()))) && At() == old(At())
      ensures ok ==> old(|Top().code|) < |Top().kinds| && Top().kinds[old(|Top().code|)] == old(Top().now) == Top().now
      ensures ok ==> p >= old(|Top().code|) && Env() == old(Env()) && Top().depth == old(Top().depth)
      ensures ok <==> LegalE(old(Env()), e)
      decreases e, 3
    {
      hide LevelGood, AllGood, Ran, Did, Leaves, Outlined, OfExpr, Within, SiteOf, NamesOf, Went, Emitted, Slots,
           PointsOf, LegalE, Resolved, InLoop;
      TopAligned();
      ghost var s := Now();
      InLoopBelow(s, loop, m);
      p := 0;
      ok := Expression(e);
      if !ok {
        return;
      }
      ghost var s1 := Now();
      DidRan(s, s1, m, 1);
      p := EmitJump(true, m);
      RanOn(s, s1, Now(), m, [], {}, 1, [], {p}, 0);
      ghost var none: seq<nat> := [];
      assert {} + {p} == {p} && none + none == none;
      ConditionFacts(s, s1, Now(), loop, m, p);
      DidSite(s, s1, 1);
      OutlinedOn(s, s1, Now(), OfExpr(e, |s.fns|, SiteOf(s), 0), Here(HoleUnless, SiteOf(s), 1));
      OutlinedSize(s1, Now(), Here(HoleUnless, SiteOf(s), 1));
      RanNames(s, Now(), m, [], {p}, 0);
      RanDepth(s, Now(), m, [], {p}, 0);
      SameWithin(s, Now(), m);
      RanSite(s, Now(), m, [], {p}, 0);
    }

    method IfElseStatement(stmt: Stmt, loop: LoopScope, ghost m: nat) returns (ok: bool, breaks: seq<nat>)
      requires Good() && Top().temps == 0 && InLoop(Now(), loop, m) && stmt.IfElse?
      modifies this`drafts, this`fns, scopes
      ensures ok ==> Good() && Ran(old(Now()), Now(), m, breaks, {}, 0) && (loop.None? ==> breaks == [])
                     && Top().ids == old(Top().ids)
      ensures ok ==> Outlined(old(Now()), Now(),
                              OfStmt(stmt, old(|Top().code|), old(|fns|), old(At()), Within(old(Now()), m)))
      ensures ok <==> LegalS(old(Env()), old(Top().depth), stmt, loop.Some?)
      decreases stmt, 0
    {
      hide LevelGood, AllGood, Ran, InLoop, Leaves, Outlined, OfExpr, OfStmt, PointsOf, LegalE, OtherwiseOutlined,
           Went, Emitted, Slots, FunctionOk, Within, Filled, NamesOf, Resolved, SiteOf, Here, CondCode, LegalD,
           Aligned, AllKinds;
      TopAligned();
      ghost var s := Now();
      var ifJump;
      breaks := [];
      ok, ifJump := Condition(stmt.cond, loop, m);
      if !ok {
        return;
      }
      ghost var s1 := Now();
      ok, breaks := Statement(stmt.thenBranch, loop, m);
      if !ok {
        return;
      }
      RanOn(s, s1, Now(), m, [], {ifJump}, 0, breaks, {}, 0);
      assert [] + breaks == breaks && {ifJump} + {} == {ifJump};
      RanTemps(s1, Now(), m, breaks, {}, 0, loop);
      StillPending(s1, Now(), m, breaks, ifJump);
      RanNames(s1, Now(), m, breaks, {}, 0);
      RanDepth(s1, Now(), m, breaks, {}, 0);
      ghost var s2 := Now();
      SameWithin(s1, s2, m);
      RanSite(s1, s2, m, breaks, {}, 0);
      ok, breaks := Otherwise(stmt.elseBranch, ifJump, breaks, loop, s, m);
      if ok {
        IfElseOutlined(s, s1, s2, Now(), stmt, ifJump, m);
      }
    }

    /** The other branch, and the jump past it. */
    method Otherwise(stmt: Stmt, ifJump: nat, before: seq<nat>, loop: LoopScope, ghost s: State, ghost m: nat)
      returns (ok: bool, breaks: seq<nat>)
      requires Good() && Top().temps == 0 && InLoop(Now(), loop, m) && Leaves(Top(), ifJump)
      requires StateGood(s) && Ran(s, Now(), m, before, {ifJump}, 0) && (loop.None? ==> before == [])
      modifies this`drafts, this`fns, scopes
      ensures ok ==> Good() && Ran(s, Now(), m, breaks, {}, 0) && (loop.None? ==>
                breaks == []) && Top().ids == old(Top().ids)
      ensures ok ==> OtherwiseOutlined(old(Now()), Now(), ifJump,
                                       OfStmt(stmt, old(|Top().code|) + 1, old(|fns|), old(At()),
                                              Within(old(Now()), m)))
      ensures ok <==> LegalS(old(Env()), old(Top().depth), stmt, loop.Some?)
      decreases stmt, 2
    {
      hide LevelGood, AllGood, Ran, InLoop, Leaves, Outlined, OfStmt, PointsOf, OtherwiseOutlined, Within, SiteOf,
           Scope, NamesOf, Filled;
      breaks := [];
      ghost var s1 := Now();
      InLoopBelow(s1, loop, m);
      var elseJump := EmitJump(false, m);
      ghost var s2 := Now();
      RanOn(s, s1, s2, m, before, {ifJump}, 0, [], {elseJump}, 0);
      assert before + [] == before && {ifJump} + {elseJump} == {ifJump, elseJump};
      JumpIds(s1, s2, m, elseJump, ifJump);
      StillPending(s1, s2, m, [], ifJump);
      RanTemps(s1, s2, m, [], {elseJump}, 0, loop);
      PatchJump(ifJump, s, m, before, {ifJump, elseJump}, 0);
      assert {ifJump, elseJump} - {ifJump} == {elseJump};
      ghost var s3 := Now();
      PatchedFacts(s2, s3, ifJump, elseJump, loop, m);
      RanDepth(s1, s2, m, [], {elseJump}, 0);
      SameWithin(s1, s3, m);
      ElseSite(s1, s2, s3, m, elseJump);
      OutlinedSize(s1, s2, Here(Hole, SiteOf(s1), 0));
      var more;
      ok, more := Statement(stmt, loop, m);
      if !ok {
        return;
      }
      RanOn(s, s3, Now(), m, before, {elseJump}, 0, more, {}, 0);
      assert {elseJump} + {} == {elseJump};
      StillPending(s3, Now(), m, more, elseJump);
      breaks := before + more;
      ghost var s4 := Now();
      PatchJump(elseJump, s, m, breaks, {elseJump}, 0);
      assert {elseJump} - {elseJump} == {};
      OtherwiseDone(s1, s2, s3, s4, Now(), ifJump, elseJump, stmt, m);
    }

    method WhileStatement(stmt: Stmt, loop: LoopScope, ghost m: nat) returns (ok: bool)
      requires Good() && Top().temps == 0 && InLoop(Now(), loop, m) && stmt.While?
      modifies this`drafts, this`fns, scopes
      ensures ok ==> Good() && Ran(old(Now()), Now(), m, [], {}, 0) && Top().ids == old(Top().ids)
      ensures ok ==> Outlined(old(Now()), Now(),
                              OfStmt(stmt, old(|Top().code|), old(|fns|), old(At()), Within(old(Now()), m)))
      ensures ok <==> LegalS(old(Env()), old(Top().depth), stmt, loop.Some?)
      decreases stmt, 0
    {
      hide LevelGood, AllGood, Ran, InLoop, Leaves, Outlined, OfExpr, OfStmt, PointsOf, LegalE, Went, Emitted, Slots,
           FunctionOk, Within, NamesOf, Resolved, SiteOf, Here, CondCode, LegalD, Aligned, AllKinds, NotPopped;
      TopAligned();
      ghost var s := Now();
      ghost var n := |Locals(s)|;
      var start := |Top().code|;
      var depth := Top().depth;
      LoopBegins(s);
      NoneWithin(s);
      var exitJump;
      ok, exitJump := Condition(stmt.cond, Some(depth), n);
      if !ok {
        return;
      }
      ghost var s1 := Now();
      var breaks;
      ok, breaks := Statement(stmt.body, Some(depth), n);
      if !ok {
        return;
      }
      ghost var s2 := Now();
      RanOn(s, s1, s2, n, [], {exitJump}, 0, breaks, {}, 0);
      assert [] + breaks == breaks && {exitJump} + {} == {exitJump};
      StillPending(s1, s2, n, breaks, exitJump);
      RanNames(s1, s2, n, breaks, {}, 0);
      RanSite(s1, s2, n, breaks, {}, 0);
      LoopEnds(s, s1, s2, n, breaks, exitJump, start);
      InLoopBelow(s, loop, m);
      EndLoop(start, exitJump, breaks, stmt, m, s, s1);
    }

    /** The jump back, and the targets of the jumps out of the loop. */
    method EndLoop(start: nat, exitJump: nat, breaks: seq<nat>, ghost stmt: Stmt, ghost m: nat, ghost s: State,
                   ghost s1: State)
      requires Good() && StateGood(s) && s.cs != [] && s1.drafts != [] && stmt.While?
      requires m <= |Locals(s)| && start == |Last(s).code|
      requires Ran(s, Now(), |Locals(s)|, breaks, {exitJump}, 0) && Last(s).temps == 0 && Leaves(Top(), exitJump)
      requires Top().ids == Last(s).ids && Top().temps == 0 && Aligned(Top()) && |Locals(s)| <= |Locals(Now())|
      requires start < |AllKinds(Top())| && AllKinds(Top())[start] == Top().now && NotPopped(Top(), start, Top().now)
      requires SiteOf(s1) == At() == SiteOf(s) && Outlined(s, s1, CondCode(stmt.cond, |s.fns|, SiteOf(s)))
      requires Outlined(s1, Now(), OfStmt(stmt.body, |Last(s1).code|, |s1.fns|, SiteOf(s1), 0))
      modifies this`drafts
      ensures Good() && Ran(s, Now(), m, [], {}, 0) && Top().ids == Last(s).ids && fns == old(fns)
      ensures Outlined(s, Now(), OfStmt(stmt, |Last(s).code|, |s.fns|, SiteOf(s), Within(s, m)))
    {
      hide LevelGood, AllGood, Ran, InLoop, Leaves, Outlined, OfExpr, OfStmt, PointsOf, Went, Emitted, Slots,
           FunctionOk, Within, FilledAt, NamesOf, Filled, Resolved, SiteOf, Here, CondCode, NotPopped, Leaving,
           AllKinds;
      ghost var n, s2 := |Locals(s)|, Now();
      EmitLoop(start, n);
      ghost var s3 := Now();
      RanOn(s, s2, s3, n, breaks, {exitJump}, 0, [], {}, 0);
      assert breaks + [] == breaks && {exitJump} + {} == {exitJump};
      LoopIds(s2, s3, n);
      StillPending(s2, s3, n, [], exitJump);
      RanLoop(s, s3, m, n, breaks, {exitJump}, 0);
      BreaksPending(s, s3, n, breaks, exitJump);
      PatchJump(exitJump, s, m, [], {exitJump} + SetOf(breaks), 0);
      assert ({exitJump} + SetOf(breaks)) - {exitJump} == SetOf(breaks);
      ghost var s4 := Now();
      PatchBreaks(breaks, s, m);
      WhileOutlined(s, s1, s2, s3, s4, Now(), stmt, exitJump, breaks, m);
    }

    /** The jumps out of the loop get their target. */
    method PatchBreaks(breaks: seq<nat>, ghost s: State, ghost m: nat)
      requires Good() && StateGood(s) && Ran(s, Now(), m, [], SetOf(breaks), 0)
      requires Leaving(Top(), breaks) && forall i, j :: 0 <= i < j < |breaks| ==> breaks[i] < breaks[j]
      modifies this`drafts
      ensures Good() && Ran(s, Now(), m, [], {}, 0) && Top().ids == old(Top().ids)
      ensures fns == old(fns) && FilledAt(PointsOf(old(Top())), PointsOf(Top()), breaks)
    {
      hide LevelGood, AllGood, Ran, PointsOf, Leaves, FilledAt;
      ghost var was := PointsOf(Top());
      NoneFilled(was);
      for i := 0 to |breaks|
        invariant drafts != [] && |Top().code| == |was|
        invariant fns == old(fns) && FilledAt(was, PointsOf(Top()), breaks[..i])
        invariant Good() && Ran(s, Now(), m, [], SetOf(breaks[i..]), 0) && Top().ids == old(Top().ids)
        invariant Leaving(Top(), breaks[i..])
      {
        ghost var rest := breaks[i..];
        assert rest[0] == breaks[i] && rest[1..] == breaks[i + 1..];
        assert Leaves(Top(), rest[0]);
        ghost var d := Top();
        PatchJump(breaks[i], s, m, [], SetOf(rest), 0);
        LeavingRest(d, breaks, i);
        OneFilled(was, PointsOf(d), PointsOf(Top()), breaks, i);
      }
      assert SetOf(breaks[|breaks|..]) == {} && breaks[..|breaks|] == breaks;
    }

    /** The draft of the innermost function changes. */
    method Update(d: Draft)
      requires Good() && LevelGood(fns, scopes.cs, drafts[|drafts| - 1 := d], |drafts| - 1)
      modifies this`drafts
      ensures Good() && drafts == old(drafts)[|old(drafts)| - 1 := d]
    {
      drafts := drafts[|drafts| - 1 := d];
      OthersGood(fns, scopes.cs, old(drafts), drafts);
    }
  }

  lemma {:induction false} LevelAligned(fns: seq<Function>, cs: seq<Compiler>, drafts: seq<Draft>, level: nat)
    requires level < |cs| == |drafts| && LevelGood(fns, cs, drafts, level)
    ensures var d := drafts[level];
            Aligned(d) && |d.ids| == |cs[level].locals| && (d.temps > 0 ==> d.now != [] && d.now[|d.now| - 1].Temp?)
  {
  }

  lemma {:induction false} AppendEmitted(d: Draft, i: Instr, name: string, now: Kinds, temps: nat)
    requires Aligned(d) && (i == Pop ==> d.now != [] && d.now[|d.now| - 1].Temp?)
    ensures Emitted(d, Appended(d, i, name, now, false).(temps := temps), temps)
    ensures Extends(d, Appended(d, i, name, now, false).(temps := temps))
  {
    var d' := Appended(d, i, name, now, false).(temps := temps);
    assert d.kinds == [] ==> AllKinds(d') == [d.now, now];
  }

  lemma {:induction false} WentHere(fns: seq<Function>, cs: seq<Compiler>, drafts: seq<Draft>, drafts': seq<Draft>)
    requires |drafts| == |drafts'| == |cs| > 0 && (forall l :: 0 <= l < |drafts| - 1 ==> drafts'[l] == drafts[l])
    requires Extends(drafts[|drafts| - 1], drafts'[|drafts| - 1])
    ensures Went(fns, cs, drafts, fns, cs, drafts')
  {
    SelfGrown(cs);
  }

  lemma {:induction false} SelfGrown(cs: seq<Compiler>)
    ensures cs != [] ==> Grown(cs, cs, |cs| - 1)
  {
  }

  lemma {:induction false} OthersGood(fns: seq<Function>, cs: seq<Compiler>, drafts: seq<Draft>, drafts': seq<Draft>)
    requires AllGood(fns, cs, drafts) && |drafts'| == |drafts| > 0
    requires forall l :: 0 <= l < |drafts| - 1 ==> drafts'[l] == drafts[l]
    requires LevelGood(fns, cs, drafts', |drafts| - 1)
    ensures AllGood(fns, cs, drafts')
  {
    forall l | 0 <= l < |drafts| ensures LevelGood(fns, cs, drafts', l) {
      if l < |drafts| - 1 {
        assert LevelGood(fns, cs, drafts, l);
        assert Outers(drafts', l) == Outers(drafts, l);
      }
    }
  }

  lemma {:induction false} DownFits(fns: seq<Function>, cs: seq<Compiler>, drafts: seq<Draft>, level: nat, i: Instr,
                                    name: string, n: nat)
    requires level < |cs| == |drafts| && LevelGood(fns, cs, drafts, level) && n <= 1 && drafts[level].temps >= n
    requires match i
             case StoreLocal(slot) => n == 0 && slot < |cs[level].locals|
             case StoreUpvalue(u) => n == 0 && u < |DenotesOf(cs, level)|
             case Pop => n == 1
             case _ => false
    requires NameOk(i, drafts[level].now, Outers(drafts, level), DenotesOf(cs, level), name)
    ensures var d := drafts[level];
            Fits(fns, level, Outers(drafts, level), DenotesOf(cs, level), d, i, name,
                 Slots(cs[level].locals, d.ids, d.temps - n), false)
  {
    var d, locals := drafts[level], cs[level].locals;
    var now := Slots(locals, d.ids, d.temps - n);
    assert now == d.now[..|d.now| - n];
    var d' := Appended(d, i, name, now, false);
    assert AllKinds(d')[|d.code|] == d.now && AllKinds(d')[|d.code| + 1] == now;
    assert Flows(AllKinds(d'), d.now[..|d.now| - n], |d.code| + 1);
    assert d.now[..|d.now| - 0] == d.now;
  }

  lemma {:induction false} FoundDid(s: State, s1: State, s2: State, temps: nat)
    requires s1 == s.(cs := s1.cs) && |s.cs| == |s.drafts| > 0 && Grown(s.cs, s1.cs, |s.cs| - 1) && Did(s1, s2, temps)
    ensures Did(s, s2, temps)
  {
    GrownTwice(s.cs, s1.cs, s2.cs, |s.cs| - 1, |s.cs| - 1);
  }

  /** A local that a search found is the last of its name. */
  lemma {:induction false} LocalMeans(fns: seq<Function>, cs: seq<Compiler>, drafts: seq<Draft>, level: nat,
                                      name: string, i: nat)
    requires level < |cs| == |drafts| && LevelGood(fns, cs, drafts, level) && Declares(cs[level], name, i)
    ensures Innermost(drafts[level].now, name, i)
  {
  }

  lemma {:induction false} LacksNotIn(fns: seq<Function>, cs: seq<Compiler>, drafts: seq<Draft>, level: nat,
                                      name: string)
    requires level < |cs| == |drafts| && LevelGood(fns, cs, drafts, level) && Lacks(cs[level], name)
    ensures NotIn(drafts[level].now, name)
  {
  }

  lemma {:induction false} AllStays(fns: seq<Function>, fns': seq<Function>, cs: seq<Compiler>, cs': seq<Compiler>,
                                    drafts: seq<Draft>)
    requires AllGood(fns, cs, drafts) && drafts != [] && fns <= fns' && Grown(cs, cs', |cs| - 1) && Resolved(cs')
             && ProgramOk(fns')
    ensures AllGood(fns', cs', drafts)
  {
    forall l | 0 <= l < |cs'| ensures LevelGood(fns', cs', drafts, l) {
      LevelStays(fns, fns', cs, cs', |cs| - 1, drafts, l);
    }
  }

  /** An upvalue that a search found denotes what the name means around. */
  lemma {:induction false} UpvalueMeans(fns: seq<Function>, cs: seq<Compiler>, drafts: seq<Draft>, level: nat,
                                        name: string, u: nat)
    requires AllGood(fns, cs, drafts) && level < |cs| && name != []
    requires exists v :: Means(cs, level, name, v) && Denotes(cs, level, u) == Some(v)
    ensures u < |DenotesOf(cs, level)| && MeansAround(Outers(drafts, level), name, DenotesOf(cs, level)[u])
  {
    var v :| Means(cs, level, name, v) && Denotes(cs, level, u) == Some(v);
    assert LevelGood(fns, cs, drafts, v.level);
    LocalMeans(fns, cs, drafts, v.level, name, v.slot);
    forall l | v.level < l < level ensures NotIn(Outers(drafts, level)[l], name) {
      assert LevelGood(fns, cs, drafts, l);
      LacksNotIn(fns, cs, drafts, l, name);
    }
  }

  lemma {:induction false} CallFits(fns: seq<Function>, cs: seq<Compiler>, drafts: seq<Draft>, level: nat, n: nat)
    requires level < |cs| == |drafts| && LevelGood(fns, cs, drafts, level) && drafts[level].temps > n
    ensures var d := drafts[level];
            Fits(fns, level, Outers(drafts, level), DenotesOf(cs, level), d, Call(n), "",
                 Slots(cs[level].locals, d.ids, d.temps - n), false)
  {
    var d, locals := drafts[level], cs[level].locals;
    var now := Slots(locals, d.ids, d.temps - n);
    assert now == d.now[..|d.now| - n - 1] + [Temp];
    var d' := Appended(d, Call(n), "", now, false);
    assert AllKinds(d')[|d.code|] == d.now && AllKinds(d')[|d.code| + 1] == now;
  }

  lemma {:induction false} ReturnFits(fns: seq<Function>, cs: seq<Compiler>, drafts: seq<Draft>, level: nat)
    requires level < |cs| == |drafts| && LevelGood(fns, cs, drafts, level)
    ensures var d := drafts[level];
            Fits(fns, level, Outers(drafts, level), DenotesOf(cs, level), d, Return, "",
                 Slots(cs[level].locals, d.ids, 0), false)
  {
    var d := drafts[level];
    var d' := Appended(d, Return, "", Slots(cs[level].locals, d.ids, 0), false);
    assert AllKinds(d')[|d.code|] == d.now;
  }

  lemma {:induction false} JumpFits(fns: seq<Function>, cs: seq<Compiler>, drafts: seq<Draft>, level: nat, i: Instr)
    requires level < |cs| == |drafts| && LevelGood(fns, cs, drafts, level)
    requires (i == Jump(0) && drafts[level].temps == 0) || (i == JumpIf(0) && drafts[level].temps == 1)
    ensures var d := drafts[level];
            Fits(fns, level, Outers(drafts, level), DenotesOf(cs, level), d, i, "", Slots(cs[level].locals, d.ids, 0),
                 true)
  {
    hide LevelGood, Slots, NotCaptured, NotPopped, SlotsOk, DenotesOf, Outers;
    LevelNow(fns, cs, drafts, level);
    var d := drafts[level];
    var now := Slots(cs[level].locals, d.ids, 0);
    var d' := Appended(d, i, "", now, true);
    assert AllKinds(d')[|d.code|] == d.now && AllKinds(d')[|d.code| + 1] == now;
    if i.JumpIf? {
      OneTemp(cs[level].locals, d.ids);
      Stays(now);
    }
  }

  lemma {:induction false} LevelNow(fns: seq<Function>, cs: seq<Compiler>, drafts: seq<Draft>, level: nat)
    requires level < |cs| == |drafts| && LevelGood(fns, cs, drafts, level)
    ensures var d, locals := drafts[level], cs[level].locals;
            && Aligned(d) && |d.ids| == |locals| > 0 && d.now == Slots(locals, d.ids, d.temps)
            && |Slots(locals, d.ids, 0)| == |locals|
  {
  }

  lemma {:induction false} OneTemp(locals: seq<Local>, ids: seq<nat>)
    requires |ids| == |locals|
    ensures Slots(locals, ids, 1) == Slots(locals, ids, 0) + [Temp]
  {
  }

  lemma {:induction false} Stays(k: Kinds)
    ensures Retypes(k, k) && (k + [Temp])[..|k + [Temp]| - 1] == k
  {
  }

  lemma {:induction false} LoopFits(fns: seq<Function>, cs: seq<Compiler>, drafts: seq<Draft>, level: nat, start: nat)
    requires level < |cs| == |drafts| && LevelGood(fns, cs, drafts, level) && drafts[level].temps == 0
    requires Aligned(drafts[level]) && start < |AllKinds(drafts[level])|
             && AllKinds(drafts[level])[start] == drafts[level].now
    requires NotPopped(drafts[level], start, drafts[level].now)
    ensures var d := drafts[level];
            Fits(fns, level, Outers(drafts, level), DenotesOf(cs, level), d, Loop(start), "",
                 Slots(cs[level].locals, d.ids, 0), false)
  {
    var d := drafts[level];
    var d' := Appended(d, Loop(start), "", Slots(cs[level].locals, d.ids, 0), false);
    assert AllKinds(d')[|d.code|] == d.now && AllKinds(d')[start] == AllKinds(d)[start];
  }

  lemma {:induction false} JumpRan(s: State, s': State, i: Instr, m: nat)
    requires StateGood(s) && m <= |Locals(s)|
             && ((i == Jump(0) && Last(s).temps == 0) || (i == JumpIf(0) && Last(s).temps == 1))
    requires |Last(s).ids| == |Locals(s)|
    requires s' == s.(drafts := s.drafts[|s.drafts| - 1 := Appended(Last(s), i, "", Slots(Locals(s), Last(s).ids, 0),
                                                                    true).(temps := 0)])
    ensures var p := |Last(s).code|;
            && Ran(s, s', m, [], {p}, 0)
            && Leaves(Last(s'), p)
  {
    var d, d' := Last(s), Last(s');
    assert LevelGood(s.fns, s.cs, s.drafts, |s.drafts| - 1);
    assert d.kinds == [] ==> AllKinds(d') == [d.now, d'.now];
    assert Locals(s)[..|Locals(s)|] == Locals(s);
    assert Cut(s'.cs, |Locals(s)|) == s.cs;
    SelfGrown(s.cs);
    assert d'.kinds[|d.code|] == d.now;
    assert TakesAlong(d', |d.code|) == d'.now;
  }

  lemma {:induction false} LevelPatch(fns: seq<Function>, cs: seq<Compiler>, drafts: seq<Draft>, level: nat, p: nat)
    requires level < |cs| == |drafts| && LevelGood(fns, cs, drafts, level)
    requires var d := drafts[level];
             Aligned(d) && p in d.pending && p < |d.code| && d.kinds[p] != [] && TakesAlong(d, p) == d.now
               && IsJump(d.code[p])
    ensures LevelGood(fns, cs, drafts[level := Patched(drafts[level], p)], level)
  {
    var d := drafts[level];
    var d' := Patched(d, p);
    Patch(fns, level, Outers(drafts, level), DenotesOf(cs, level), d, p);
    assert Outers(drafts[level := d'], level) == Outers(drafts, level);
    forall i | 0 <= i < |d.ids| && !cs[level].locals[i].isUpvalue ensures NotCaptured(fns, d', d.ids[i]) {
      assert NotCaptured(fns, d, d.ids[i]);
      forall q | 0 <= q < |d'.code| ensures !Captures(fns, d'.code, d'.kinds, q, d.ids[i]) {
        assert !Captures(fns, d.code, d.kinds, q, d.ids[i]);
      }
    }
  }

  // ----- Locals come and go ---------------------------------------------------------------------------------

  /** What upvalues denote depends on the functions around, and on the function's own list. */
  lemma {:induction false} DenotesSame(cs: seq<Compiler>, cs': seq<Compiler>, level: nat)
    requires level < |cs| && level < |cs'| && cs'[..level] == cs[..level] && cs'[level].upvalues == cs[level].upvalues
    ensures DenotesOf(cs', level) == DenotesOf(cs, level)
    ensures forall u: nat :: Denotes(cs', level, u) == Denotes(cs, level, u)
  {
    forall u: nat ensures Denotes(cs', level, u) == Denotes(cs, level, u) {
      DenotesAt(cs, cs', level, u);
    }
  }

  lemma {:induction false} DenotesAt(cs: seq<Compiler>, cs': seq<Compiler>, level: nat, u: nat)
    requires level < |cs| && level < |cs'| && cs'[..level] == cs[..level] && cs'[level].upvalues == cs[level].upvalues
    ensures Denotes(cs', level, u) == Denotes(cs, level, u)
    decreases level
  {
    if level > 0 && u < |cs[level].upvalues| {
      assert cs'[level - 1] == cs'[..level][level - 1] == cs[..level][level - 1] == cs[level - 1];
      assert cs'[..level - 1] == cs'[..level][..level - 1] == cs[..level][..level - 1] == cs[..level - 1];
      DenotesAt(cs, cs', level - 1, cs[level].upvalues[u].index);
    }
  }

  /** Only the locals and the draft of the innermost function change. */
  lemma {:induction false} InnermostChanges(s: State, s': State)
    requires StateGood(s) && |s'.cs| == |s.cs| && |s'.drafts| == |s.drafts| && s'.fns == s.fns
    requires var t := |s.cs| - 1;
             && s'.cs == s.cs[t := s.cs[t].(locals := s'.cs[t].locals)]
             && (forall l :: 0 <= l < t ==> s'.drafts[l] == s.drafts[l])
             && var d, locals := s'.drafts[t], s'.cs[t].locals;
                && DraftOk(s.fns, t, Outers(s.drafts, t), DenotesOf(s.cs, t), d)
                && |d.ids| == |locals| > 0 && d.now == Slots(locals, d.ids, d.temps) && IdsOk(d)
                   && MarksOk(s.fns, locals, d)
                && locals[0].depth == -1 && d.depth >= 0 && DepthsOk(locals, d.depth)
    ensures StateGood(s')
  {
    var t := |s.cs| - 1;
    forall l | 0 <= l < |s'.cs| ensures LevelGood(s'.fns, s'.cs, s'.drafts, l) {
      assert LevelGood(s.fns, s.cs, s.drafts, l);
      DenotesSame(s.cs, s'.cs, l);
      assert Outers(s'.drafts, l) == Outers(s.drafts, l);
    }
    forall l | 0 <= l < |s'.cs| ensures LevelOk(s'.cs, l) {
      assert LevelOk(s.cs, l);
      forall u | 0 <= u < |s'.cs[l].upvalues| ensures UpvalueOk(s'.cs, l, u) {
        assert UpvalueOk(s.cs, l, u);
      }
    }
  }

  lemma {:induction false} Declared(s: State, s': State, name: string, m: nat)
    requires StateGood(s) && Last(s).temps == 1 && m <= |Locals(s)| == |Last(s).ids|
    requires var t := |s.cs| - 1;
             var d := Last(s);
             var locals, ids := Locals(s) + [Local(name, d.depth, false)], d.ids + [d.next];
             s' == State(s.fns, s.cs[t := s.cs[t].(locals := locals)],
                         s.drafts[t := d.(now := Slots(locals, ids, 0), ids := ids, next := d.next + 1, temps := 0)])
    ensures StateGood(s') && Ran(s, s', m, [], {}, 0)
  {
    DeclaredGood(s, s', name);
    DeclaredRan(s, s', name, m);
  }

  lemma {:induction false} LastLevel(s: State)
    requires StateGood(s)
    ensures s.cs != [] && |s.drafts| == |s.cs| && LevelGood(s.fns, s.cs, s.drafts, |s.cs| - 1)
  {
  }

  lemma {:induction false} DeclaredGood(s: State, s': State, name: string)
    requires StateGood(s) && Last(s).temps == 1 && |Locals(s)| == |Last(s).ids|
    requires var t := |s.cs| - 1;
             var d := Last(s);
             var locals, ids := Locals(s) + [Local(name, d.depth, false)], d.ids + [d.next];
             s' == State(s.fns, s.cs[t := s.cs[t].(locals := locals)],
                         s.drafts[t := d.(now := Slots(locals, ids, 0), ids := ids, next := d.next + 1, temps := 0)])
    ensures StateGood(s')
  {
    hide PopsOk, LoopsOk, AllGood, InstrOk, StateGood;
    LastLevel(s);
    var t := |s.cs| - 1;
    var d, d' := Last(s), Last(s');
    var outer, denotes := Outers(s.drafts, t), DenotesOf(s.cs, t);
    Retype(s.fns, t, outer, denotes, d, d'.now);
    OtherFields(s.fns, t, outer, denotes, d.(now := d'.now), d');
    NewNotCaptured(s.fns, d, d.next);
    forall i | 0 <= i < |d'.ids| && !Locals(s')[i].isUpvalue ensures NotCaptured(s.fns, d', d'.ids[i]) {
      assert NotCaptured(s.fns, d, d'.ids[i]);
      SameCode(s.fns, d, d', d'.ids[i]);
    }
    InnermostChanges(s, s');
  }

  lemma {:induction false} SameCode(fns: seq<Function>, d: Draft, d': Draft, id: nat)
    requires Aligned(d) && d'.code == d.code && d'.kinds == d.kinds && d'.names == d.names && NotCaptured(fns, d, id)
    ensures NotCaptured(fns, d', id)
  {
  }

  lemma {:induction false} DeclaredRan(s: State, s': State, name: string, m: nat)
    requires StateGood(s) && Last(s).temps == 1 && m <= |Locals(s)| == |Last(s).ids|
    requires var t := |s.cs| - 1;
             var d := Last(s);
             var locals, ids := Locals(s) + [Local(name, d.depth, false)], d.ids + [d.next];
             s' == State(s.fns, s.cs[t := s.cs[t].(locals := locals)],
                         s.drafts[t := d.(now := Slots(locals, ids, 0), ids := ids, next := d.next + 1, temps := 0)])
    ensures Ran(s, s', m, [], {}, 0)
  {
    hide DraftOk, AllGood, IdsOk, MarksOk, StateGood;
    LastLevel(s);
    LevelAligned(s.fns, s.cs, s.drafts, |s.cs| - 1);
    var d, d' := Last(s), Last(s');
    assert Locals(s')[..|Locals(s)|] == Locals(s);
    assert Cut(s'.cs, |Locals(s)|) == s.cs;
    SelfGrown(s.cs);
    assert d.kinds == [] ==> AllKinds(d) == [d.now] && AllKinds(d') == [d'.now];
  }

  lemma {:induction false} OtherFields(fns: seq<Function>, level: nat, outer: seq<Kinds>, denotes: seq<Variable>,
                                       d: Draft, d': Draft)
    requires DraftOk(fns, level, outer, denotes, d)
             && d' == d.(ids := d'.ids, temps := d'.temps, next := d'.next, depth := d'.depth)
    ensures DraftOk(fns, level, outer, denotes, d')
  {
    assert AllKinds(d') == AllKinds(d);
    forall p | 0 <= p < |d'.code| ensures InstrOk(fns, level, outer, denotes, d', p) {
      assert InstrOk(fns, level, outer, denotes, d, p);
    }
  }

  /** An identity not given out yet is not captured. */
  lemma {:induction false} NewNotCaptured(fns: seq<Function>, d: Draft, id: nat)
    requires Aligned(d) && IdsOk(d) && id >= d.next
    ensures NotCaptured(fns, d, id)
  {
    forall q | 0 <= q < |d.code| ensures !Captures(fns, d.code, d.kinds, q, id) {
      assert Below(d.kinds[q], d.next);
    }
  }

  /** The code after the last `n` locals have been given up. */
  ghost predicate Discarded(s: State, d: Draft, n: nat) {
    && s.drafts != [] && |s.cs| == |s.drafts| && n < |Locals(s)| && |Locals(s)| == |Last(s).ids| == |Last(s).now|
    && DraftOk(s.fns, |s.cs| - 1, Outers(s.drafts, |s.cs| - 1), DenotesOf(s.cs, |s.cs| - 1), d)
    && Extends(Last(s), d) && d.now == Last(s).now[..|Locals(s)| - n] && IdsOk(d)
    && d.ids == Last(s).ids && d.temps == Last(s).temps == 0 && d.next == Last(s).next && d.pending == Last(s).pending
    && (forall id :: NotCaptured(s.fns, Last(s), id) ==> NotCaptured(s.fns, d, id))
    && (forall p, id :: |Last(s).code| <= p < |d.code| && Pops(d.code, d.kinds, p, id) ==>
         id in d.ids[|Locals(s)| - n..])
  }

  lemma {:induction false} DiscardIs(locals: seq<Local>, depth: int, i: nat, op: Discard)
    requires i < |locals| && Closures.Discards(locals, depth, i, op)
    ensures locals[|locals| - 1 - i].depth >= depth && (op == Closed <==> locals[|locals| - 1 - i].isUpvalue)
  {
  }

  /** One more local is given up. */
  lemma {:induction false} GivenUp(s: State, d: Draft, n: nat, depth: int, discard: Discard)
    requires StateGood(s) && Discarded(s, d, n) && n + 1 < |Locals(s)| && Last(s).temps == 0
    requires Closures.Discards(Locals(s), depth, n, discard)
    requires PointsOf(d) == PointsOf(Last(s)) + Drops(SiteOf(s).names, n)
    ensures d.now != []
    ensures var d' := Appended(d, if discard == Closed then CloseUpvalue else Pop, "", d.now[..|d.now| - 1], false);
            Discarded(s, d', n + 1) && PointsOf(d') == PointsOf(Last(s)) + Drops(SiteOf(s).names, n + 1)
  {
    hide StateGood, LevelGood, Discarded, Closures.Discards, PointsOf, Drops, SiteOf, Appended;
    LastLevel(s);
    var op := if discard == Closed then CloseUpvalue else Pop;
    DiscardIs(Locals(s), depth, n, discard);
    DiscardedAligned(s, d, n);
    OneDiscarded(s, d, n, op);
    DropPoints(s, d, n, op);
  }

  lemma {:induction false} NoDrops(d: Draft, names: seq<string>)
    ensures PointsOf(d) == PointsOf(d) + Drops(names, 0)
  {
  }

  lemma {:induction false} DropPoints(s: State, d: Draft, n: nat, op: Instr)
    requires StateGood(s) && Discarded(s, d, n) && n < |SiteOf(s).names| && Last(s).temps == 0
    requires PointsOf(d) == PointsOf(Last(s)) + Drops(SiteOf(s).names, n)
    requires (op == Pop || op == CloseUpvalue) && d.now != []
    ensures PointsOf(Appended(d, op, "", d.now[..|d.now| - 1], false))
         == PointsOf(Last(s)) + Drops(SiteOf(s).names, n + 1)
  {
    var names := SiteOf(s).names;
    NowIs(s);
    assert ShapeOf(d.now) == Scope(names[..|names| - n], 0) by {
      ShapeCut(Last(s).now, names, n);
    }
    hide SiteOf, Scope;
    PointsOneMore(d.code, d.names, d.kinds, d.pending, op, "", d.now, false);
    Three(PointsOf(Last(s)), Drops(names, n), [Point(Drop, Scope(names[..|names| - n], 0))]);
  }

  lemma {:induction false} ShapeCut(k: Kinds, names: seq<string>, n: nat)
    requires ShapeOf(k) == Scope(names, 0) && n <= |names|
    ensures |k| == |names| && ShapeOf(k[..|k| - n]) == Scope(names[..|names| - n], 0)
  {
    assert |ShapeOf(k)| == |k|;
    forall i | 0 <= i < |k| - n ensures ShapeOf(k[..|k| - n])[i] == Some(names[i]) {
      assert ShapeOf(k)[i] == Some(names[i]);
    }
  }

  lemma {:induction false} DropsOutlined(s: State, s': State, d: Draft, n: nat)
    requires s.drafts != [] && s'.drafts != [] && n <= |SiteOf(s).names| && s'.fns == s.fns
    requires PointsOf(d) == PointsOf(Last(s)) + Drops(SiteOf(s).names, n)
    requires Last(s').code == d.code && Last(s').names == d.names && Last(s').kinds == d.kinds
    requires Last(s').pending == d.pending
    ensures Outlined(s, s', Mere(Drops(SiteOf(s).names, n)))
  {
  }

  lemma {:induction false} BreakOutlined(s: State, s': State, d: Draft, n: nat)
    requires |s.drafts| == |s'.drafts| && StateGood(s) && n <= |SiteOf(s).names| && s'.fns == s.fns
    requires PointsOf(d) == PointsOf(Last(s)) + Drops(SiteOf(s).names, n) && Last(s).temps == 0
    requires Discarded(s, d, n) && Last(s') == Appended(d, Jump(0), "", Last(s).now, true)
    ensures Outlined(s, s', LeavingCode(SiteOf(s), n))
  {
    var names := SiteOf(s).names;
    NowIs(s);
    assert ShapeOf(d.now) == Scope(names[..|names| - n], 0) by {
      ShapeCut(Last(s).now, names, n);
    }
    hide SiteOf, Scope;
    PointsOneMore(d.code, d.names, d.kinds, d.pending, Jump(0), "", d.now, true);
    Three(PointsOf(Last(s)), Drops(names, n), [Point(Hole, Scope(names[..|names| - n], 0))]);
  }

  lemma {:induction false} NoneDiscarded(s: State)
    requires StateGood(s) && Last(s).temps == 0
    ensures Discarded(s, Last(s), 0)
  {
    assert LevelGood(s.fns, s.cs, s.drafts, |s.cs| - 1);
    assert Last(s).now[..|Locals(s)|] == Last(s).now;
  }

  /** The first slot, which is no local of the program's, is never given up. */
  lemma {:induction false} FirstStays(s: State, depth: int, code: seq<Discard>)
    requires StateGood(s) && depth >= 0 && |code| <= |Locals(s)|
    requires forall i :: 0 <= i < |code| ==> Closures.Discards(Locals(s), depth, i, code[i])
    ensures |code| < |Locals(s)|
  {
    assert LevelGood(s.fns, s.cs, s.drafts, |s.cs| - 1);
    if code != [] {
      assert Closures.Discards(Locals(s), depth, |code| - 1, code[|code| - 1]);
      assert Locals(s)[|Locals(s)| - |code|].depth >= depth;
    }
  }

  /** As many locals as are at `depth` or deeper have been counted from the end. */
  lemma {:induction false} Border(locals: seq<Local>, depth: int, k: nat, n: nat)
    requires k < |locals| && n <= |locals|
    requires forall i :: 0 <= i < |locals| ==> (locals[i].depth < depth <==> i < n)
    requires forall i :: |locals| - k <= i < |locals| ==> locals[i].depth >= depth
    requires locals[|locals| - 1 - k].depth < depth
    ensures |locals| - k == n
  {
    assert |locals| - 1 - k < n;
    assert k > 0 ==> locals[|locals| - k].depth >= depth;
  }

  lemma {:induction false} OneDiscarded(s: State, d: Draft, n: nat, op: Instr)
    requires StateGood(s) && Discarded(s, d, n) && n + 1 < |Locals(s)|
    requires op == CloseUpvalue || (op == Pop && !Locals(s)[|Locals(s)| - 1 - n].isUpvalue)
    ensures Discarded(s, Appended(d, op, "", d.now[..|d.now| - 1], false), n + 1)
  {
    hide DraftOk, PopsOk, LoopsOk, AllGood, LevelGood, Fits, Extends, IdsOk;
    var t := |s.cs| - 1;
    var now := d.now[..|d.now| - 1];
    var d' := Appended(d, op, "", now, false);
    DiscardFits(s, d, n, op);
    Append(s.fns, t, Outers(s.drafts, t), DenotesOf(s.cs, t), d, op, "", now, false);
    DiscardedAligned(s, d, n);
    forall id | NotCaptured(s.fns, Last(s), id) ensures NotCaptured(s.fns, d', id) {
      StillFree(s.fns, d, op, now, id);
    }
    DiscardedPops(s, d, n, op);
    IdsAppended(d, op, now, false);
    ExtendsAppended(Last(s), d, op, now);
    assert d'.now == Last(s).now[..|Locals(s)| - n - 1];
  }

  lemma {:induction false} DiscardedAligned(s: State, d: Draft, n: nat)
    requires StateGood(s) && Discarded(s, d, n)
    ensures Aligned(d) && Aligned(Last(s)) && Last(s).ids == d.ids && |d.now| == |Locals(s)| - n
            && |d.code| >= |Last(s).code|
    ensures forall i :: 0 <= i < |d.now| ==> d.now[i] == Named(d.ids[i], Locals(s)[i].name)
    ensures Below(d.now, d.next) && IdsOk(d)
  {
    assert LevelGood(s.fns, s.cs, s.drafts, |s.cs| - 1);
  }

  lemma {:induction false} IdsAppended(d: Draft, op: Instr, now: Kinds, pending: bool)
    requires Aligned(d) && IdsOk(d) && Below(d.now, d.next)
    ensures IdsOk(Appended(d, op, "", now, pending))
  {
  }

  lemma {:induction false} DiscardFits(s: State, d: Draft, n: nat, op: Instr)
    requires StateGood(s) && Discarded(s, d, n) && n + 1 < |Locals(s)|
    requires op == CloseUpvalue || (op == Pop && !Locals(s)[|Locals(s)| - 1 - n].isUpvalue)
    ensures Aligned(d) && |d.now| > 1
    ensures Fits(s.fns, |s.cs| - 1, Outers(s.drafts, |s.cs| - 1), DenotesOf(s.cs, |s.cs| - 1), d, op, "",
                 d.now[..|d.now| - 1], false)
  {
    DiscardedAligned(s, d, n);
    hide DraftOk, AllGood, LevelGood, Outers, DenotesOf, IdsOk, Discarded;
    DiscardNow(s, d, n, op);
    var now := d.now[..|d.now| - 1];
    var d' := Appended(d, op, "", now, false);
    assert AllKinds(d')[|d.code|] == d.now && AllKinds(d')[|d.code| + 1] == now;
    assert Flows(AllKinds(d'), now, |d.code| + 1);
  }

  lemma {:induction false} DiscardNow(s: State, d: Draft, n: nat, op: Instr)
    requires StateGood(s) && Discarded(s, d, n) && n + 1 < |Locals(s)|
    requires op == CloseUpvalue || (op == Pop && !Locals(s)[|Locals(s)| - 1 - n].isUpvalue)
    ensures |d.now| > 1 && Aligned(d)
    ensures op == Pop && d.now[|d.now| - 1].Named? ==> NotCaptured(s.fns, d, d.now[|d.now| - 1].id)
  {
    DiscardedAligned(s, d, n);
    hide DraftOk, AllGood, StateGood;
    LastLevel(s);
    if op == Pop {
      assert NotCaptured(s.fns, Last(s), Last(s).ids[|Locals(s)| - 1 - n]);
    }
  }

  lemma {:induction false} DiscardedPops(s: State, d: Draft, n: nat, op: Instr)
    requires StateGood(s) && Discarded(s, d, n) && n + 1 < |Locals(s)|
    ensures var d' := Appended(d, op, "", d.now[..|d.now| - 1], false);
            Aligned(d') && forall p, id :: |Last(s).code| <= p < |d'.code| && Pops(d'.code, d'.kinds, p, id) ==>
                id in d'.ids[|Locals(s)| - n - 1..]
  {
    hide DraftOk, AllGood, IdsOk;
    DiscardedAligned(s, d, n);
    var d' := Appended(d, op, "", d.now[..|d.now| - 1], false);
    var i := |Locals(s)| - 1 - n;
    assert d.ids[i..] == [d.ids[i]] + d.ids[i + 1..];
    forall p, id | |Last(s).code| <= p < |d'.code| && Pops(d'.code, d'.kinds, p, id) ensures id in d'.ids[i..] {
      if p < |d.code| {
        assert d'.kinds[p] == d.kinds[p] && d'.code[p] == d.code[p];
        assert Pops(d.code, d.kinds, p, id);
      } else {
        assert d'.kinds[p] == d.now;
      }
    }
  }

  lemma {:induction false} ExtendsAppended(d0: Draft, d: Draft, op: Instr, now: Kinds)
    requires Extends(d0, d)
    ensures Extends(d0, Appended(d, op, "", now, false))
  {
    var d' := Appended(d, op, "", now, false);
    assert d.kinds == [] ==> AllKinds(d') == [d.now, now];
  }

  lemma {:induction false} StillFree(fns: seq<Function>, d: Draft, op: Instr, now: Kinds, id: nat)
    requires Aligned(d) && NotCaptured(fns, d, id) && !op.MakeClosure?
    ensures NotCaptured(fns, Appended(d, op, "", now, false), id)
            && NotCaptured(fns, Appended(d, op, "", now, true), id)
  {
    var d' := Appended(d, op, "", now, false);
    forall q | 0 <= q < |d'.code| ensures !Captures(fns, d'.code, d'.kinds, q, id) {
      if q < |d.code| {
        assert !Captures(fns, d.code, d.kinds, q, id);
      }
    }
  }

  /** A scope has ended: the first `n` locals are left. */
  ghost predicate PoppedScope(s: State, s': State, n: nat) {
    && s.drafts != [] && |s.cs| == |s.drafts| == |s'.drafts| && n <= |Locals(s)| == |Last(s).ids| && s'.fns == s.fns
    && s'.cs == Cut(s.cs, n) && (forall l :: 0 <= l < |s.drafts| - 1 ==> s'.drafts[l] == s.drafts[l])
    && var d, d' := Last(s), Last(s');
       && Extends(d, d'.(depth := d.depth)) && d'.depth == d.depth - 1 && d'.ids == d.ids[..n] && d'.temps == 0
       && d'.pending == d.pending
       && (forall p, id :: |d.code| <= p < |d'.code| && Pops(d'.code, d'.kinds, p, id) ==> id in d.ids[n..])
  }

  lemma {:induction false} ScopePopped(s: State, s': State, d: Draft, n: nat)
    requires StateGood(s) && 0 < n <= |Locals(s)| == |Last(s).ids| && Last(s).depth > 0
    requires Discarded(s, d, |Locals(s)| - n)
    requires forall i :: 0 <= i < n ==> Locals(s)[i].depth < Last(s).depth
    requires var t := |s.cs| - 1;
             s' == State(s.fns, s.cs[t := s.cs[t].(locals := Locals(s)[..n])],
                         s.drafts[t := d.(ids := d.ids[..n], depth := d.depth - 1)])
    ensures StateGood(s') && PoppedScope(s, s', n)
  {
    hide AllGood, StateGood, DraftOk, Pops;
    LastLevel(s);
    var t := |s.cs| - 1;
    var d' := Last(s');
    OtherFields(s.fns, t, Outers(s.drafts, t), DenotesOf(s.cs, t), d, d');
    assert d'.now == Slots(Locals(s'), d'.ids, 0);
    forall i | 0 <= i < n && !Locals(s')[i].isUpvalue ensures NotCaptured(s.fns, d', d'.ids[i]) {
      assert NotCaptured(s.fns, Last(s), Last(s).ids[i]);
      assert NotCaptured(s.fns, d, Last(s).ids[i]);
    }
    InnermostChanges(s, s');
  }

  /** A jump out of the loop has been added. */
  lemma {:induction false} LeftLoop(s: State, d: Draft, d': Draft, m: nat)
    requires StateGood(s) && 0 < m <= |Locals(s)| == |Last(s).ids| && Discarded(s, d, |Locals(s)| - m)
    requires d' == Appended(d, Jump(0), "", Last(s).now, true)
    ensures LevelGood(s.fns, s.cs, s.drafts[|s.drafts| - 1 := d'], |s.drafts| - 1)
    ensures Ran(s, s.(drafts := s.drafts[|s.drafts| - 1 := d']), m, [|d.code|], {}, 0)
  {
    LeftGood(s, d, d', m);
    LeftRan(s, d, d', m);
  }

  lemma {:induction false} LeftGood(s: State, d: Draft, d': Draft, m: nat)
    requires StateGood(s) && 0 < m <= |Locals(s)| == |Last(s).ids| && Discarded(s, d, |Locals(s)| - m)
    requires d' == Appended(d, Jump(0), "", Last(s).now, true)
    ensures LevelGood(s.fns, s.cs, s.drafts[|s.drafts| - 1 := d'], |s.drafts| - 1)
  {
    var t := |s.cs| - 1;
    hide DraftOk, AllGood, StateGood;
    LastLevel(s);
    var s' := s.(drafts := s.drafts[t := d']);
    var locals := Locals(s);
    DiscardedAligned(s, d, |locals| - m);
    assert AllKinds(d')[|d.code|] == d.now;
    Append(s.fns, t, Outers(s.drafts, t), DenotesOf(s.cs, t), d, Jump(0), "", Last(s).now, true);
    forall i | 0 <= i < |locals| && !locals[i].isUpvalue ensures NotCaptured(s.fns, d', d'.ids[i]) {
      assert NotCaptured(s.fns, Last(s), Last(s).ids[i]);
      StillFree(s.fns, d, Jump(0), Last(s).now, d.ids[i]);
    }
    IdsAppended(d, Jump(0), Last(s).now, true);
    assert Outers(s'.drafts, t) == Outers(s.drafts, t);
  }

  lemma {:induction false} LeftRan(s: State, d: Draft, d': Draft, m: nat)
    requires StateGood(s) && 0 < m <= |Locals(s)| == |Last(s).ids| && Discarded(s, d, |Locals(s)| - m)
    requires d' == Appended(d, Jump(0), "", Last(s).now, true)
    ensures Ran(s, s.(drafts := s.drafts[|s.drafts| - 1 := d']), m, [|d.code|], {}, 0)
  {
    hide DraftOk, AllGood, MarksOk, StateGood, NotPopped;
    LastLevel(s);
    var t := |s.cs| - 1;
    var s' := s.(drafts := s.drafts[t := d']);
    var locals := Locals(s);
    assert locals[..|locals|] == locals;
    assert Cut(s'.cs, |locals|) == s.cs;
    SelfGrown(s.cs);
    var k := Last(s).now[..m];
    LeftPops(s, d, d', m);
    assert d.kinds == [] ==> AllKinds(d') == [d.now, d'.now];
    assert BreakOk(d', |d.code|, |Last(s).code|, k);
  }

  lemma {:induction false} LeftPops(s: State, d: Draft, d': Draft, m: nat)
    requires StateGood(s) && 0 < m <= |Locals(s)| == |Last(s).ids| && Discarded(s, d, |Locals(s)| - m)
    requires d' == Appended(d, Jump(0), "", Last(s).now, true)
    ensures Aligned(d') && NotPopped(d', |Last(s).code|, Last(s).now[..m])
  {
    hide DraftOk, AllGood, MarksOk, Extends, StateGood;
    LastLevel(s);
    DiscardedAligned(s, d, |Locals(s)| - m);
    OthersPopped(Last(s), Locals(s), d, m);
    JumpNotPopped(d, |Last(s).code|, Last(s).now[..m], Last(s).now);
  }

  /** What is popped is not among the first `m` locals, if it is among the others. */
  lemma {:induction false} OthersPopped(d0: Draft, locals: seq<Local>, d: Draft, m: nat)
    requires Aligned(d0) && Aligned(d) && |d0.ids| == |locals| && m <= |locals|
             && d0.now == Slots(locals, d0.ids, d0.temps) && IdsOk(d0)
    requires forall p, id :: |d0.code| <= p < |d.code| && Pops(d.code, d.kinds, p, id) ==> id in d0.ids[m..]
    ensures m <= |d0.now| && NotPopped(d, |d0.code|, d0.now[..m])
  {
    forall p, id | |d0.code| <= p < |d.code| && Pops(d.code, d.kinds, p, id) ensures !Has(d0.now[..m], id) {
      OthersNotIn(d0.ids, m, id);
      HasId(d0, locals, m, id);
    }
  }

  lemma {:induction false} JumpNotPopped(d: Draft, start: nat, k: Kinds, now: Kinds)
    requires Aligned(d) && NotPopped(d, start, k)
    ensures Aligned(Appended(d, Jump(0), "", now, true)) && NotPopped(Appended(d, Jump(0), "", now, true), start, k)
  {
    var d' := Appended(d, Jump(0), "", now, true);
    forall p, id | start <= p < |d'.code| && Pops(d'.code, d'.kinds, p, id) ensures !Has(k, id) {
      assert p < |d.code| ==> Pops(d.code, d.kinds, p, id);
    }
  }

  lemma {:induction false} OthersNotIn(ids: seq<nat>, m: nat, id: nat)
    requires m <= |ids| && id in ids[m..] && forall i, j :: 0 <= i < j < |ids| ==> ids[i] != ids[j]
    ensures id !in ids[..m]
  {
    var j :| 0 <= j < |ids[m..]| && ids[m..][j] == id;
    assert ids[m + j] == id;
    forall i | 0 <= i < m ensures ids[..m][i] != id {
      assert ids[i] != ids[m + j];
    }
  }

  lemma {:induction false} HasId(d: Draft, locals: seq<Local>, m: nat, id: nat)
    requires |d.ids| == |locals| && d.now == Slots(locals, d.ids, d.temps) && m <= |locals|
    ensures Has(d.now[..m], id) <==> id in d.ids[..m]
  {
    if Has(d.now[..m], id) {
      var i :| 0 <= i < m && d.now[..m][i].Named? && d.now[..m][i].id == id;
      assert d.ids[..m][i] == id;
    }
    if id in d.ids[..m] {
      var i :| 0 <= i < m && d.ids[..m][i] == id;
      assert d.now[..m][i] == Named(id, locals[i].name);
    }
  }

  // ----- Functions begin and end ----------------------------------------------------------------------------

  ghost predicate Begun(s: State, s': State, arity: nat) {
    && |s.cs| == |s.drafts| && |s'.cs| == |s'.drafts| == |s.cs| + 1 && s'.fns == s.fns
    && s'.cs[..|s.cs|] == s.cs && s'.drafts[..|s.drafts|] == s.drafts
    && var d := Last(s');
       && Aligned(d) && d.code == [] && d.pending == {} && d.temps == 0 && d.depth == 0
       && |Locals(s')| == |d.now| == arity + 1
  }

  lemma {:induction false} BegunGood(s: State, s': State, arity: nat)
    requires AllGood(s.fns, s.cs, s.drafts)
    requires |s'.cs| == |s.cs| + 1 && s'.fns == s.fns
    requires var c := s'.cs[|s.cs|];
             && s'.cs == s.cs + [c] && c.upvalues == [] && !c.inClass && |c.locals| == arity + 1
                && c.locals[0].depth == -1
             && (forall i :: 0 < i < |c.locals| ==> c.locals[i].depth == 0)
             && var ids := seq(|c.locals|, i => i);
                s'.drafts == s.drafts + [Draft([], [], [], Slots(c.locals, ids, 0), {}, ids, 0, |ids|, 0)]
    ensures StateGood(s') && Begun(s, s', arity)
  {
    var n := |s.cs|;
    forall l | 0 <= l < |s'.cs| ensures LevelGood(s'.fns, s'.cs, s'.drafts, l) {
      if l < n {
        assert LevelGood(s.fns, s.cs, s.drafts, l);
        assert s'.cs[..l] == s.cs[..l];
        DenotesSame(s.cs, s'.cs, l);
        assert Outers(s'.drafts, l) == Outers(s.drafts, l);
      }
    }
    forall l | 0 <= l < |s'.cs| ensures LevelOk(s'.cs, l) {
      if l < n {
        assert LevelOk(s.cs, l);
        forall u | 0 <= u < |s'.cs[l].upvalues| ensures UpvalueOk(s'.cs, l, u) {
          assert UpvalueOk(s.cs, l, u);
        }
      }
    }
  }

  /** Function `f` has been finished, and can be made into a closure where compiling goes on. */
  ghost predicate FinishedAs(s: State, s': State, f: nat) {
    && |s.drafts| == |s.cs| > 0 && f == |s.fns| && |s'.fns| == f + 1 && s.fns <= s'.fns
    && s'.cs == s.cs[..|s.cs| - 1] && s'.drafts == s.drafts[..|s.drafts| - 1]
    && s'.fns[f].level == |s.cs| - 1 && s'.fns[f].upvalues == s.cs[|s.cs| - 1].upvalues
    && (s'.drafts != [] ==>
          var t := |s'.drafts| - 1;
          && MakesOk(s'.fns[f], t, Outers(s'.drafts, t), DenotesOf(s'.cs, t), s'.drafts[t].now)
          && CapturesMarked(s'.fns, s'.cs[t].locals, f))
  }

  lemma {:induction false} FinishedOutlines(s: State, g: Function)
    requires StateGood(s) && Aligned(Last(s)) && Last(s).pending == {} && Last(s).temps == 1
    requires g.code == Last(s).code + [Return] && g.names == Last(s).names + [""]
    requires g.kinds == Last(s).kinds + [Last(s).now] && g.outer == Outers(s.drafts, |s.drafts| - 1)
    ensures OutlinesOf(s.fns + [g]) == OutlinesOf(s.fns)
         + [Outline(g.arity, SiteOf(s).around, PointsOf(Last(s)) + Here(End, SiteOf(s), 1).points)]
  {
    NowIs(s);
    PointsOneMore(Last(s).code, Last(s).names, Last(s).kinds, {}, Return, "", Last(s).now, false);
  }

  /** A function begins: its locals are its parameters. */
  lemma {:induction false} BegunSite(s0: State, s1: State, params: seq<string>)
    requires Begun(s0, s1, |params|) && NamesOf(s1.cs) == NamesOf(s0.cs) + [Params(params)]
    requires s0.drafts != [] ==> StateGood(s0)
    ensures SiteOf(s1) == Entry(params, if s0.drafts == [] then []
                                        else SiteOf(s0).around + [Scope(SiteOf(s0).names, Last(s0).temps)])
  {
    var n := |s0.cs|;
    var names := NamesOf(s1.cs)[n];
    assert names == NamesIn(Locals(s1)) == Params(params);
    forall i | 0 <= i <= |params| ensures Locals(s1)[i].name == ([""] + params)[i] {
      assert names[i].name == Locals(s1)[i].name;
    }
    assert LocalNames(Locals(s1)) == [""] + params;
    forall l | 0 <= l < n ensures s1.drafts[l] == s0.drafts[l] {
      assert s1.drafts[l] == s1.drafts[..n][l];
    }
    if s0.drafts == [] {
      assert SiteOf(s1).around == [];
    } else {
      NowIs(s0);
      assert Outers(s1.drafts, n) == Outers(s0.drafts, n - 1) + [Last(s0).now];
      assert ShapesOf(Outers(s1.drafts, n)) == ShapesOf(Outers(s0.drafts, n - 1)) + [ShapeOf(Last(s0).now)];
    }
  }

  lemma {:induction false} FinishedGood(s: State, s': State, g: Function)
    requires StateGood(s) && Last(s).temps == 1 && Last(s).pending == {}
    requires Aligned(Last(s)) && |AllKinds(Last(s))[0]| == g.arity + 1
    requires var t := |s.cs| - 1;
             var d := Last(s);
             && g == Function(t, g.arity, d.code + [Return], d.kinds + [d.now], d.names + [""], s.cs[t].upvalues,
                              DenotesOf(s.cs, t),
                              Outers(s.drafts, t))
             && s' == State(s.fns + [g], s.cs[..t], s.drafts[..t])
    ensures AllGood(s'.fns, s'.cs, s'.drafts) && FinishedAs(s, s', |s.fns|)
  {
    FinishedFunction(s, g);
    FinishedProgram(s.fns, g);
    FinishedLevels(s, s', g);
    if s'.drafts != [] {
      FinishedMakes(s, s', g);
    }
  }

  lemma {:induction false} FinishedFunction(s: State, g: Function)
    requires StateGood(s) && Last(s).pending == {} && Aligned(Last(s)) && |AllKinds(Last(s))[0]| == g.arity + 1
    requires var t := |s.cs| - 1;
             var d := Last(s);
             g == Function(t, g.arity, d.code + [Return], d.kinds + [d.now], d.names + [""], s.cs[t].upvalues,
                           DenotesOf(s.cs, t),
                           Outers(s.drafts, t))
    ensures FunctionOk(s.fns, g)
  {
    hide AllGood, DraftOk, FunctionOk, StateGood;
    LastLevel(s);
    FinishedDraft(s.fns, Last(s), g);
  }

  lemma {:induction false} FinishedDraft(fns: seq<Function>, d: Draft, g: Function)
    requires DraftOk(fns, g.level, g.outer, g.denotes, d) && d.pending == {} && d.now != []
    requires Aligned(d) && |AllKinds(d)[0]| == g.arity + 1 && |g.outer| == g.level && |g.denotes| == |g.upvalues|
    requires g.code == d.code + [Return] && g.kinds == d.kinds + [d.now] && g.names == d.names + [""]
    ensures FunctionOk(fns, g)
  {
    hide SlotsOk, NameOk, PopsOk, LoopsOk;
    forall p | 0 <= p < |g.code|
      ensures SlotsOk(fns, g.level, g.outer, g.denotes, g.code, g.kinds, p)
      ensures NameOk(g.code[p], g.kinds[p], g.outer, g.denotes, g.names[p])
    {
      if p < |d.code| {
        assert InstrOk(fns, g.level, g.outer, g.denotes, d, p);
        SlotsLonger(fns, g.level, g.outer, g.denotes, d.code, AllKinds(d), Return, p);
      } else {
        ReturnSlots(fns, g.level, g.outer, g.denotes, g.code, g.kinds, g.names);
      }
    }
    FinishedPops(fns, d, g);
  }

  lemma {:induction false} FinishedPops(fns: seq<Function>, d: Draft, g: Function)
    requires Aligned(d) && g.code == d.code + [Return] && g.kinds == AllKinds(d)
    requires PopsOk(fns, d.code, AllKinds(d)) && LoopsOk(d.code, AllKinds(d))
    ensures PopsOk(fns, g.code, g.kinds) && LoopsOk(g.code, g.kinds)
  {
    forall p, q, id | 0 <= q < p < |g.code|
      && Pops(g.code, g.kinds, p, id) ensures !Captures(fns, g.code, g.kinds, q, id) {
      assert p < |d.code| && Pops(d.code, AllKinds(d), p, id);
      assert !Captures(fns, d.code, AllKinds(d), q, id);
    }
    forall p, e, id | 0 <= p < e < |g.code| && g.code[e].Loop? && g.code[e].target <= p && Pops(g.code, g.kinds, p, id)
      ensures g.code[e].target < |g.kinds| && !Has(g.kinds[g.code[e].target], id)
    {
      assert Pops(d.code, AllKinds(d), p, id);
    }
  }

  lemma {:induction false} SlotsLonger(fns: seq<Function>, level: nat, outer: seq<Kinds>, denotes: seq<Variable>,
                                       code: seq<Instr>, kinds: seq<Kinds>, i: Instr, p: nat)
    requires p < |code| && p < |kinds| && SlotsOk(fns, level, outer, denotes, code, kinds, p)
    ensures SlotsOk(fns, level, outer, denotes, code + [i], kinds, p)
  {
  }

  lemma {:induction false} ReturnSlots(fns: seq<Function>, level: nat, outer: seq<Kinds>, denotes: seq<Variable>,
                                       code: seq<Instr>, kinds: seq<Kinds>, names: seq<string>)
    requires 0 < |code| == |kinds| == |names| && code[|code| - 1] == Return && |kinds[|code| - 1]| >= 1
    ensures SlotsOk(fns, level, outer, denotes, code, kinds, |code| - 1)
    ensures NameOk(code[|code| - 1], kinds[|code| - 1], outer, denotes, names[|code| - 1])
  {
  }

  /** Functions stay as they are promised when another one is finished. */
  lemma {:induction false} FinishedProgram(fns: seq<Function>, g: Function)
    requires ProgramOk(fns) && FunctionOk(fns, g)
    ensures ProgramOk(fns + [g])
  {
    forall f | 0 <= f < |fns + [g]| ensures FunctionOk(fns + [g], (fns + [g])[f]) {
      FunctionStays(fns, fns + [g], (fns + [g])[f]);
    }
  }

  lemma {:induction false} FunctionStays(fns: seq<Function>, fns': seq<Function>, f: Function)
    requires FunctionOk(fns, f) && fns <= fns'
    ensures FunctionOk(fns', f)
  {
    forall p | 0 <= p < |f.code| ensures SlotsOk(fns', f.level, f.outer, f.denotes, f.code, f.kinds, p) {
      assert SlotsOk(fns, f.level, f.outer, f.denotes, f.code, f.kinds, p);
    }
    forall p, q, id | 0 <= q < p < |f.code|
      && Pops(f.code, f.kinds, p, id) ensures !Captures(fns', f.code, f.kinds, q, id) {
      assert !Captures(fns, f.code, f.kinds, q, id);
      assert SlotsOk(fns, f.level, f.outer, f.denotes, f.code, f.kinds, q);
    }
  }

  lemma {:induction false} FinishedLevels(s: State, s': State, g: Function)
    requires StateGood(s) && ProgramOk(s'.fns) && s' == State(s.fns + [g], s.cs[..|s.cs| - 1], s.drafts[..|s.cs| - 1])
    ensures AllGood(s'.fns, s'.cs, s'.drafts)
  {
    forall l | 0 <= l < |s'.cs| ensures LevelGood(s'.fns, s'.cs, s'.drafts, l) {
      assert LevelGood(s.fns, s.cs, s.drafts, l);
      SelfGrown(s.cs);
      LevelStays(s.fns, s'.fns, s.cs, s.cs, |s.cs| - 1, s.drafts, l);
      assert s'.cs[..l] == s.cs[..l];
      DenotesSame(s.cs, s'.cs, l);
      assert Outers(s'.drafts, l) == Outers(s.drafts, l);
    }
    forall l | 0 <= l < |s'.cs| ensures LevelOk(s'.cs, l) {
      assert LevelOk(s.cs, l);
      forall u | 0 <= u < |s'.cs[l].upvalues| ensures UpvalueOk(s'.cs, l, u) {
        assert UpvalueOk(s.cs, l, u);
      }
    }
  }

  /** What the function captures is there, and marked. */
  lemma {:induction false} FinishedMakes(s: State, s': State, g: Function)
    requires StateGood(s) && |s.cs| > 1 && s' == State(s.fns + [g], s.cs[..|s.cs| - 1], s.drafts[..|s.cs| - 1])
    requires var t := |s.cs| - 1;
             g.level == t && g.upvalues == s.cs[t].upvalues && g.denotes == DenotesOf(s.cs, t)
               && g.outer == Outers(s.drafts, t)
    ensures var t := |s'.drafts| - 1;
            && MakesOk(g, t, Outers(s'.drafts, t), DenotesOf(s'.cs, t), s'.drafts[t].now)
            && CapturesMarked(s'.fns, s'.cs[t].locals, |s.fns|)
  {
    var t := |s'.drafts| - 1;
    assert LevelGood(s.fns, s.cs, s.drafts, t);
    assert LevelOk(s.cs, t + 1);
    assert s'.cs[..t] == s.cs[..t];
    DenotesSame(s.cs, s'.cs, t);
    assert Outers(s.drafts, t + 1) == Outers(s'.drafts, t) + [s'.drafts[t].now];
    forall u | 0 <= u < |g.upvalues|
      ensures var e := g.upvalues[u];
              && UpvalueOk(s.cs, t + 1, u)
              && (e.isLocal ==> g.denotes[u] == Variable(t, e.index))
              && (!e.isLocal ==> e.index < |DenotesOf(s'.cs, t)| && g.denotes[u] == DenotesOf(s'.cs, t)[e.index])
    {
      assert UpvalueOk(s.cs, t + 1, u);
      AllLead(s.cs, t + 1, u);
    }
  }

  // ----- Parts of a program ---------------------------------------------------------------------------------

  /** The first `m` locals are those that are older than the innermost loop. */
  predicate InLoop(s: State, loop: LoopScope, m: nat) {
    && s.cs != [] && s.drafts != [] && 0 < m <= |Locals(s)|
    && (loop.Some? ==>
          && 0 <= loop.value <= Last(s).depth
          && forall i :: 0 <= i < |Locals(s)| ==> (Locals(s)[i].depth <= loop.value <==> i < m))
  }

  lemma {:induction false} DidRan(s: State, s': State, m: nat, temps: nat)
    requires StateGood(s) && Did(s, s', temps) && m <= |Locals(s)|
    ensures Ran(s, s', m, [], {}, temps) && Last(s').ids == Last(s).ids && Last(s').temps == temps
    ensures |Locals(s')| == |Locals(s)|
  {
    EmittedRan(s, s', m, temps);
    assert GrownAt(s.cs[|s.cs| - 1], s'.cs[|s.cs| - 1]);
  }

  lemma {:induction false} NothingRan(s: State, m: nat, loop: LoopScope)
    requires StateGood(s) && InLoop(s, loop, m) && Last(s).temps == 0
    ensures Ran(s, s, m, [], {}, 0)
  {
    assert LevelGood(s.fns, s.cs, s.drafts, |s.cs| - 1);
    assert Locals(s)[..|Locals(s)|] == Locals(s);
    assert Cut(s.cs, |Locals(s)|) == s.cs;
    SelfGrown(s.cs);
  }

  /** New locals are within the loop. */
  lemma {:induction false} RanFacts(s: State, s': State, m: nat, breaks: seq<nat>, others: set<nat>, temps: nat,
                                    loop: LoopScope)
    requires Ran(s, s', m, breaks, others, temps) && InLoop(s, loop, m) && (loop.Some? ==> Last(s).depth > loop.value)
    ensures Last(s').temps == temps && InLoop(s', loop, m) && (loop.Some? ==> Last(s').depth > loop.value)
  {
    var t := |s.cs| - 1;
    var n := |Locals(s)|;
    assert GrownAt(s.cs[t], Cut(s'.cs, n)[t]);
    forall i | 0 <= i < n ensures Locals(s')[i].depth == Locals(s)[i].depth {
      assert Cut(s'.cs, n)[t].locals[i] == Locals(s')[i];
    }
  }

  lemma {:induction false} BreakIds(s: State, s': State, m: nat, breaks: seq<nat>)
    requires StateGood(s) && StateGood(s') && Ran(s, s', m, breaks, {}, 0) && s'.cs == s.cs
    ensures Last(s').ids == Last(s).ids
  {
    assert LevelGood(s.fns, s.cs, s.drafts, |s.cs| - 1);
    assert LevelGood(s'.fns, s'.cs, s'.drafts, |s.cs| - 1);
  }

  lemma {:induction false} Deeper(s: State)
    requires StateGood(s)
    ensures LevelGood(s.fns, s.cs, s.drafts[|s.drafts| - 1 := Last(s).(depth := Last(s).depth + 1)], |s.drafts| - 1)
  {
    var t := |s.cs| - 1;
    var d' := Last(s).(depth := Last(s).depth + 1);
    assert LevelGood(s.fns, s.cs, s.drafts, t);
    OtherFields(s.fns, t, Outers(s.drafts, t), DenotesOf(s.cs, t), Last(s), d');
    assert Outers(s.drafts[t := d'], t) == Outers(s.drafts, t);
    forall i | 0 <= i < |d'.ids| && !Locals(s)[i].isUpvalue ensures NotCaptured(s.fns, d', d'.ids[i]) {
      SameCode(s.fns, Last(s), d', d'.ids[i]);
    }
  }

  /** What a scope leaves behind are the locals there were. */
  lemma {:induction false} ScopeFacts(s0: State, s1: State, s2: State, m: nat, breaks: seq<nat>)
    requires StateGood(s0) && StateGood(s1) && Ran(s1, s2, m, breaks, {}, 0)
    requires s1 == s0.(drafts := s0.drafts[|s0.drafts| - 1 := Last(s0).(depth := Last(s0).depth + 1)])
    ensures s2.drafts != [] && s2.cs != [] && Last(s2).temps == 0 && Last(s2).depth > 0
            && 0 < |Locals(s0)| <= |Locals(s2)|
    ensures forall i :: 0 <= i < |Locals(s2)| ==> (Locals(s2)[i].depth < Last(s2).depth <==> i < |Locals(s0)|)
  {
    var t := |s0.cs| - 1;
    var n := |Locals(s0)|;
    assert LevelGood(s0.fns, s0.cs, s0.drafts, t);
    assert GrownAt(s1.cs[t], Cut(s2.cs, n)[t]);
    forall i | 0 <= i < n ensures Locals(s2)[i].depth == Locals(s0)[i].depth {
      assert Cut(s2.cs, n)[t].locals[i] == Locals(s2)[i];
    }
  }

  /** A block pops its own locals at its end. */
  lemma {:induction false} BlockPops(d0: Draft, d2: Draft, d3: Draft, locals: seq<Local>, m: nat)
    requires Aligned(d0) && Aligned(d2) && Aligned(d3) && d2.code <= d3.code && d2.kinds <= d3.kinds
             && |d0.code| <= |d2.code|
    requires |d0.ids| == |locals| && m <= |locals| && d0.now == Slots(locals, d0.ids, d0.temps) && d0.ids <= d2.ids
             && IdsOk(d2)
    requires NotPopped(d2, |d0.code|, d0.now[..m])
    requires forall p, id :: |d2.code| <= p < |d3.code| && Pops(d3.code, d3.kinds, p, id) ==> id in d2.ids[|locals|..]
    ensures NotPopped(d3, |d0.code|, d0.now[..m])
  {
    var n := |locals|;
    assert d2.ids[..n] == d0.ids;
    forall p, id | |d0.code| <= p < |d3.code| && Pops(d3.code, d3.kinds, p, id) ensures !Has(d0.now[..m], id) {
      if p < |d2.code| {
        assert d3.kinds[p] == d2.kinds[p] && d3.code[p] == d2.code[p];
        assert Pops(d2.code, d2.kinds, p, id);
      } else {
        OthersNotIn(d2.ids, n, id);
        HasId(d0, locals, m, id);
        assert forall x :: x in d0.ids[..m] ==> x in d0.ids;
      }
    }
  }

  /** A block, seen from outside. */
  lemma {:induction false} BlockRan(s0: State, s1: State, s2: State, s3: State, m: nat, breaks: seq<nat>)
    requires StateGood(s0) && StateGood(s2) && m <= |Locals(s0)|
    requires s1 == s0.(drafts := s0.drafts[|s0.drafts| - 1 := Last(s0).(depth := Last(s0).depth + 1)])
    requires Ran(s1, s2, m, breaks, {}, 0) && PoppedScope(s2, s3, |Locals(s0)|)
    ensures Ran(s0, s3, m, breaks, {}, 0) && Last(s3).ids == Last(s0).ids
  {
    hide AllGood, DraftOk, MarksOk, StateGood, NotPopped;
    LastLevel(s0);
    LastLevel(s2);
    var t := |s0.cs| - 1;
    var n := |Locals(s0)|;
    var d0, d2, d3 := Last(s0), Last(s2), Last(s3);
    assert d2.ids[..n] == d0.ids;
    assert Locals(s3)[..n] == Locals(s3);
    assert Cut(s3.cs, n) == s3.cs == Cut(s2.cs, n);
    var k := d0.now[..m];
    BlockPops(d0, d2, d3, Locals(s0), m);
    forall i | 0 <= i < |breaks| ensures BreakOk(d3, breaks[i], |d0.code|, k) {
      assert BreakOk(d2, breaks[i], |d0.code|, k);
    }
  }

  lemma {:induction false} BegunFacts(s0: State, s1: State, arity: nat)
    requires Begun(s0, s1, arity)
    ensures s1.drafts != [] && Last(s1).temps == 0 && InLoop(s1, None, arity + 1)
  {
  }

  lemma {:induction false} BodyFacts(s0: State, s1: State, s2: State, s3: State, arity: nat)
    requires Begun(s0, s1, arity) && Ran(s1, s2, arity + 1, [], {}, 0) && Did(s2, s3, 1)
    ensures Last(s3).temps == 1 && Last(s3).pending == {} && Aligned(Last(s3)) && |AllKinds(Last(s3))[0]| == arity + 1
  {
  }

  /** Compiling is back where the function literal is. */
  lemma {:induction false} LiteralBack(s0: State, s1: State, s2: State, s3: State, s4: State, f: nat, arity: nat)
    requires StateGood(s0) && Begun(s0, s1, arity) && Ran(s1, s2, arity + 1, [], {}, 0) && Did(s2, s3, 1)
             && FinishedAs(s3, s4, f)
    ensures s4.drafts == s0.drafts && Went(s0.fns, s0.cs, s0.drafts, s4.fns, s4.cs, s4.drafts)
    ensures var t := |s4.drafts| - 1;
            && f < |s4.fns| && |s4.cs| == |s4.drafts|
            && MakesOk(s4.fns[f], t, Outers(s4.drafts, t), DenotesOf(s4.cs, t), s4.drafts[t].now)
            && CapturesMarked(s4.fns, s4.cs[t].locals, f)
  {
    var n := |s0.cs|;
    forall l | 0 <= l < n ensures s4.drafts[l] == s0.drafts[l] {
      assert s1.drafts[l] == s1.drafts[..n][l];
    }
    var c2 := Cut(s2.cs, |Locals(s1)|);
    forall l | 0 <= l < n ensures GrownAt(s0.cs[l], s4.cs[l]) {
      assert s1.cs[l] == s1.cs[..n][l];
      assert GrownAt(s1.cs[l], c2[l]);
      assert c2[l] == s2.cs[l];
      assert GrownAt(s2.cs[l], s3.cs[l]);
    }
    assert LevelGood(s0.fns, s0.cs, s0.drafts, n - 1);
  }

  lemma {:induction false} LiteralDid(s0: State, s4: State, s5: State, temps: nat)
    requires s4.drafts == s0.drafts && Went(s0.fns, s0.cs, s0.drafts, s4.fns, s4.cs, s4.drafts) && Did(s4, s5, temps)
    ensures Did(s0, s5, temps)
  {
    WentOn(s0.fns, s0.cs, s0.drafts, s4.fns, s4.cs, s4.drafts, s5.fns, s5.cs, s5.drafts);
  }

  // ----- Jumps ----------------------------------------------------------------------------------------------

  /** With the same locals and temporaries the slots are the same. */
  lemma {:induction false} SameNow(s: State, s': State)
    requires StateGood(s) && StateGood(s') && |s.cs| == |s'.cs| && Last(s).ids == Last(s').ids
             && Last(s).temps == Last(s').temps == 0
    requires |Locals(s)| <= |Locals(s')| && Grown(s.cs, Cut(s'.cs, |Locals(s)|), |s.cs| - 1)
    ensures Last(s').now == Last(s).now && |Last(s).now| == |Locals(s)| == |Locals(s')|
  {
    assert LevelGood(s.fns, s.cs, s.drafts, |s.cs| - 1) && LevelGood(s'.fns, s'.cs, s'.drafts, |s.cs| - 1);
    SameSlots(s, s', |Locals(s)|);
    assert Last(s').now[..|Locals(s)|] == Last(s').now && Last(s).now[..|Locals(s)|] == Last(s).now;
  }

  lemma {:induction false} RanTemps(s: State, s': State, m: nat, breaks: seq<nat>, others: set<nat>, temps: nat,
                                    loop: LoopScope)
    requires Ran(s, s', m, breaks, others, temps) && InLoop(s, loop, m) && Last(s').ids == Last(s).ids
    requires StateGood(s) && StateGood(s')
    ensures Last(s').temps == temps && InLoop(s', loop, m)
  {
    var t := |s.cs| - 1;
    var n := |Locals(s)|;
    assert LevelGood(s.fns, s.cs, s.drafts, t) && LevelGood(s'.fns, s'.cs, s'.drafts, t);
    assert GrownAt(s.cs[t], Cut(s'.cs, n)[t]);
    forall i | 0 <= i < n ensures Locals(s')[i].depth == Locals(s)[i].depth {
      assert Cut(s'.cs, n)[t].locals[i] == Locals(s')[i];
    }
  }

  /** A jump added earlier still takes along the slots there are now. */
  lemma {:induction false} StillPending(s: State, s': State, m: nat, breaks: seq<nat>, p: nat)
    requires StateGood(s) && StateGood(s') && Last(s).temps == 0 && Last(s').ids == Last(s).ids
    requires exists others :: Ran(s, s', m, breaks, others, 0)
    requires Leaves(Last(s), p)
    ensures Leaves(Last(s'), p) && Last(s').temps == 0
  {
    var others :| Ran(s, s', m, breaks, others, 0);
    SameNow(s, s');
    assert Last(s').code[p] == Last(s).code[p] && Last(s').kinds[p] == Last(s).kinds[p];
  }

  lemma {:induction false} ConditionFacts(s: State, s1: State, s2: State, loop: LoopScope, m: nat, p: nat)
    requires StateGood(s) && StateGood(s1) && StateGood(s2) && Last(s).temps == 0 && InLoop(s, loop, m)
    requires Did(s, s1, 1) && Ran(s1, s2, m, [], {p}, 0) && Ran(s, s2, m, [], {p}, 0) && s2.cs == s1.cs
             && p == |Last(s1).code|
    ensures Last(s2).temps == 0 && Last(s2).ids == Last(s).ids && InLoop(s2, loop, m) && p >= |Last(s).code|
    ensures |Last(s).code| < |Last(s2).kinds| && Last(s2).kinds[|Last(s).code|] == Last(s).now == Last(s2).now
  {
    hide AllGood, DraftOk, StateGood, MarksOk, IdsOk;
    LastLevel(s);
    LastLevel(s1);
    LastLevel(s2);
    var t := |s.cs| - 1;
    assert GrownAt(s.cs[t], s1.cs[t]);
    SameNow(s, s2);
    RanTemps(s, s2, m, [], {p}, 0, loop);
    assert |Last(s1).now| == |Last(s).now| + 1;
    assert |Last(s1).code| > |Last(s).code|;
  }

  lemma {:induction false} JumpIds(s: State, s': State, m: nat, p: nat, older: nat)
    requires StateGood(s) && StateGood(s') && Ran(s, s', m, [], {p}, 0) && s'.cs == s.cs && Leaves(Last(s), older)
    ensures Last(s').ids == Last(s).ids && p != older
  {
    assert LevelGood(s.fns, s.cs, s.drafts, |s.cs| - 1) && LevelGood(s'.fns, s'.cs, s'.drafts, |s.cs| - 1);
  }

  lemma {:induction false} LoopIds(s: State, s': State, m: nat)
    requires StateGood(s) && StateGood(s') && Ran(s, s', m, [], {}, 0) && s'.cs == s.cs
    ensures Last(s').ids == Last(s).ids
  {
    assert LevelGood(s.fns, s.cs, s.drafts, |s.cs| - 1) && LevelGood(s'.fns, s'.cs, s'.drafts, |s.cs| - 1);
  }

  /** Another jump is as it was, when one has got its target. */
  lemma {:induction false} PatchedFacts(s: State, s': State, p: nat, q: nat, loop: LoopScope, m: nat)
    requires StateGood(s) && s' == s.(drafts := s'.drafts) && Leaves(Last(s), p) && p != q
    requires s'.drafts == s.drafts[|s.drafts| - 1 := Patched(Last(s), p)] && Leaves(Last(s), q)
    ensures Leaves(Last(s'), q)
    ensures Last(s').now == Last(s).now && Last(s').ids == Last(s).ids && Last(s').temps == Last(s).temps
    ensures Last(s').depth == Last(s).depth
    ensures InLoop(s, loop, m) ==> InLoop(s', loop, m)
  {
  }

  /** All locals there are are older than a loop that begins now. */
  lemma {:induction false} LoopBegins(s: State)
    requires StateGood(s)
    ensures InLoop(s, Some(Last(s).depth), |Locals(s)|)
  {
    assert LevelGood(s.fns, s.cs, s.drafts, |s.cs| - 1);
  }

  lemma {:induction false} InLoopBelow(s: State, loop: LoopScope, m: nat)
    requires InLoop(s, loop, m)
    ensures m <= |Locals(s)|
  {
  }

  /** At the end of a loop the slots are those at its beginning, and none of those has been popped within. */
  lemma {:induction false} LoopEnds(s: State, s1: State, s2: State, n: nat, breaks: seq<nat>, p: nat, start: nat)
    requires StateGood(s) && StateGood(s1) && StateGood(s2) && n == |Locals(s)| && start == |Last(s).code|
    requires Last(s).temps == 0 && Last(s1).ids == Last(s).ids && Last(s2).ids == Last(s1).ids && Last(s1).temps == 0
    requires Ran(s, s2, n, breaks, {p}, 0) && Ran(s1, s2, n, breaks, {}, 0)
    requires start < |Last(s1).kinds| && Last(s1).kinds[start] == Last(s).now
    ensures n <= |Locals(s2)| && Last(s2).temps == 0 && Aligned(Last(s2)) && start < |AllKinds(Last(s2))|
    ensures AllKinds(Last(s2))[start] == Last(s2).now && NotPopped(Last(s2), start, Last(s2).now)
  {
    SameNow(s, s2);
    assert Last(s).now[..n] == Last(s).now;
    assert Last(s2).kinds[start] == Last(s1).kinds[start];
  }

  lemma {:induction false} BreaksPending(s: State, s': State, n: nat, breaks: seq<nat>, p: nat)
    requires StateGood(s) && StateGood(s') && n == |Locals(s)| && Ran(s, s', n, breaks, {p}, 0)
    requires Last(s).temps == 0 && Last(s').ids == Last(s).ids
    requires Leaves(Last(s'), p)
    ensures p !in breaks && Leaving(Last(s'), breaks) && Leaving(Patched(Last(s'), p), breaks)
    ensures forall i, j :: 0 <= i < j < |breaks| ==> breaks[i] < breaks[j]
  {
    SameNow(s, s');
    assert Last(s).now[..n] == Last(s).now;
    forall i | 0 <= i < |breaks| ensures Leaves(Last(s'), breaks[i]) && breaks[i] != p
      && Leaves(Patched(Last(s'), p), breaks[i]) {
      assert BreakOk(Last(s'), breaks[i], |Last(s).code|, Last(s).now[..n]);
      assert LevelGood(s.fns, s.cs, s.drafts, |s.cs| - 1);
    }
  }

  lemma {:induction false} LeavingRest(d: Draft, breaks: seq<nat>, i: nat)
    requires i < |breaks| && Leaving(d, breaks[i..]) && breaks[i] < |d.code|
    requires forall i, j :: 0 <= i < j < |breaks| ==> breaks[i] < breaks[j]
    ensures Leaving(Patched(d, breaks[i]), breaks[i + 1..])
    ensures SetOf(breaks[i..]) - {breaks[i]} == SetOf(breaks[i + 1..])
  {
    var rest := breaks[i + 1..];
    assert breaks[i..] == [breaks[i]] + rest;
    forall j | 0 <= j < |rest| ensures Leaves(Patched(d, breaks[i]), rest[j]) && rest[j] != breaks[i] {
      assert rest[j] == breaks[i + 1 + j];
      assert breaks[i..][j + 1] == rest[j];
      assert Leaves(d, breaks[i..][j + 1]);
    }
  }

  /** The outermost function closes over nothing. */
  lemma {:induction false} OuterUpvalues(s0: State, s1: State, s2: State, s3: State)
    requires s0.drafts == [] && Begun(s0, s1, 0) && Ran(s1, s2, 1, [], {}, 0) && Did(s2, s3, 1) && StateGood(s3)
    ensures |s3.cs| == 1 && s3.cs[0].upvalues == []
  {
    assert LevelOk(s3.cs, 0);
  }

  // ----- What is legal --------------------------------------------------------------------------------------

  lemma {:induction false} LocalKnown(cs: seq<Compiler>, level: nat, name: string, i: nat)
    requires level < |cs| && Declares(cs[level], name, i) && name != ""
    ensures Known(NamesOf(cs), name)
  {
    assert NamesOf(cs)[level][i].name == name;
    assert KnownIn(NamesOf(cs)[level], name);
  }

  lemma {:induction false} NoClasses(fns: seq<Function>, cs: seq<Compiler>, drafts: seq<Draft>)
    requires AllGood(fns, cs, drafts)
    ensures forall l :: 0 <= l < |cs| ==> !cs[l].inClass
  {
    forall l | 0 <= l < |cs| ensures !cs[l].inClass {
      assert LevelGood(fns, cs, drafts, l);
    }
  }

  /** A name known around a function means something there. */
  lemma {:induction false} KnownMeans(cs: seq<Compiler>, level: nat, name: string)
    requires level + 1 == |cs| && name != "" && Lacks(cs[level], name) && forall l :: 0 <= l < |cs| ==> !cs[l].inClass
    ensures Known(NamesOf(cs), name) ==> exists v :: Means(cs, level, name, v)
  {
    if Known(NamesOf(cs), name) {
      var l :| 0 <= l < |cs| && KnownIn(NamesOf(cs)[l], name);
      assert !Lacks(cs[l], name);
      assert l < level;
      NearestMeans(cs, level, name, l, level);
    }
  }

  lemma {:induction false} NearestMeans(cs: seq<Compiler>, level: nat, name: string, l: nat, upto: nat)
    requires l < upto <= level < |cs| && name != "" && !Lacks(cs[l], name) && forall k :: 0 <= k < |cs| ==>
               !cs[k].inClass
    requires forall k :: upto <= k < level ==> Lacks(cs[k], name)
    ensures exists v :: Means(cs, level, name, v)
    decreases upto
  {
    var k := upto - 1;
    if Lacks(cs[k], name) {
      NearestMeans(cs, level, name, l, k);
    } else {
      var i := LastNamed(cs[k].locals, name, |cs[k].locals|);
      assert Declares(cs[k], name, i);
      assert Means(cs, level, name, Variable(k, i));
    }
  }

  lemma {:induction false} LastNamed(locals: seq<Local>, name: string, upto: nat) returns (i: nat)
    requires upto <= |locals| && exists j :: 0 <= j < upto && locals[j].name == name
    requires forall j :: upto <= j < |locals| ==> locals[j].name != name
    ensures i < |locals| && locals[i].name == name && forall j :: i < j < |locals| ==> locals[j].name != name
    decreases upto
  {
    if locals[upto - 1].name == name {
      i := upto - 1;
    } else {
      i := LastNamed(locals, name, upto - 1);
    }
  }

  lemma {:induction false} FoundMeans(cs: seq<Compiler>, cs': seq<Compiler>, level: nat, name: string, u: nat)
    requires level + 1 == |cs| && name != "" && Grown(cs, cs', level)
    requires exists v :: Means(cs', level, name, v) && Denotes(cs', level, u) == Some(v)
    ensures Known(NamesOf(cs), name)
  {
    var v :| Means(cs', level, name, v) && Denotes(cs', level, u) == Some(v);
    StillMeans(cs, cs', level, level, name, v);
    LocalKnown(cs, v.level, name, v.slot);
  }

  lemma {:induction false} TakenBy(fns: seq<Function>, cs: seq<Compiler>, drafts: seq<Draft>, i: nat, name: string)
    requires AllGood(fns, cs, drafts) && drafts != []
    requires var t := |cs| - 1; i < |cs[t].locals| && cs[t].locals[i].depth >= drafts[t].depth
    ensures var t := |cs| - 1; cs[t].locals[i].name == name ==> Taken(NamesOf(cs)[t], name, drafts[t].depth)
  {
    var t := |cs| - 1;
    assert LevelGood(fns, cs, drafts, t);
    assert NamesOf(cs)[t][i] == NameAt(cs[t].locals[i].name, cs[t].locals[i].depth);
  }

  lemma {:induction false} NotTaken(fns: seq<Function>, cs: seq<Compiler>, drafts: seq<Draft>, i: nat, name: string)
    requires AllGood(fns, cs, drafts) && drafts != []
    requires var t := |cs| - 1;
             && i <= |cs[t].locals| && (i > 0 ==> cs[t].locals[i - 1].depth < drafts[t].depth)
             && forall j :: i <= j < |cs[t].locals| ==> cs[t].locals[j].name != name
    ensures var t := |cs| - 1; !Taken(NamesOf(cs)[t], name, drafts[t].depth)
  {
    var t := |cs| - 1;
    assert LevelGood(fns, cs, drafts, t);
    forall j | 0 <= j < |NamesOf(cs)[t]| ensures !(NamesOf(cs)[t][j].name == name
      && NamesOf(cs)[t][j].depth == drafts[t].depth) {
      if j < i {
        assert cs[t].locals[j].depth <= cs[t].locals[i - 1].depth;
      }
    }
  }

  lemma {:induction false} DeclaredNames(cs: seq<Compiler>, cs': seq<Compiler>, name: string, depth: int)
    requires cs != []
    requires var t := |cs| - 1; cs' == cs[t := cs[t].(locals := cs[t].locals + [Local(name, depth, false)])]
    ensures NamesOf(cs') == Declaring(NamesOf(cs), name, depth)
  {
    var t := |cs| - 1;
    assert NamesIn(cs'[t].locals) == NamesIn(cs[t].locals) + [NameAt(name, depth)];
  }

  /** Marks do not change names. */
  lemma {:induction false} GrownNames(cs: seq<Compiler>, cs': seq<Compiler>)
    requires cs != [] && Grown(cs, cs', |cs| - 1)
    ensures NamesOf(cs') == NamesOf(cs)
  {
    forall l | 0 <= l < |cs| ensures NamesIn(cs'[l].locals) == NamesIn(cs[l].locals) {
      assert GrownAt(cs[l], cs'[l]);
    }
  }

  lemma {:induction false} WentNames(s: State, s': State)
    requires Went(s.fns, s.cs, s.drafts, s'.fns, s'.cs, s'.drafts)
    ensures NamesOf(s'.cs) == NamesOf(s.cs) && |s'.drafts| == |s.drafts| == |s.cs| == |s'.cs| > 0
    ensures forall l :: 0 <= l < |s.drafts| - 1 ==> s'.drafts[l] == s.drafts[l]
  {
    GrownNames(s.cs, s'.cs);
  }

  lemma {:induction false} DidNames(s: State, s': State, temps: nat)
    requires Did(s, s', temps)
    ensures NamesOf(s'.cs) == NamesOf(s.cs) && Last(s').depth == Last(s).depth && |s'.cs| > 0
  {
    GrownNames(s.cs, s'.cs);
  }

  lemma {:induction false} RanNames(s: State, s': State, m: nat, breaks: seq<nat>, others: set<nat>, temps: nat)
    requires StateGood(s) && StateGood(s') && Ran(s, s', m, breaks, others, temps) && Last(s').ids == Last(s).ids
    ensures NamesOf(s'.cs) == NamesOf(s.cs)
  {
    var t := |s.cs| - 1;
    assert LevelGood(s.fns, s.cs, s.drafts, t) && LevelGood(s'.fns, s'.cs, s'.drafts, t);
    assert Locals(s')[..|Locals(s)|] == Locals(s');
    assert Cut(s'.cs, |Locals(s)|) == s'.cs;
    GrownNames(s.cs, s'.cs);
  }

  lemma {:induction false} RanDepth(s: State, s': State, m: nat, breaks: seq<nat>, others: set<nat>, temps: nat)
    requires Ran(s, s', m, breaks, others, temps)
    ensures Last(s').depth == Last(s).depth && |s'.cs| > 0
  {
  }

  lemma {:induction false} LegalStep(env: Scopes, depth: int, body: seq<Definition>, i: nat, inLoop: bool)
    requires env != [] && i < |body|
    ensures LegalD(env, depth, body[i..], inLoop)
        <==> LegalOne(env, depth, body[i], inLoop) && LegalD(Then(env, depth, body[i]), depth, body[i + 1..], inLoop)
    ensures Then(env, depth, body[i]) != []
  {
    assert body[i..][1..] == body[i + 1..];
  }

  lemma {:induction false} LegalFn(env: Scopes, e: Expr)
    requires e.Fn?
    ensures LegalE(env, e) <==>
            && Distinct(e.params) && |e.params| <= MAX_PARAMETERS
            && LegalD(env + [Params(e.params)], 0, e.body, false)
  {
  }

  lemma {:induction false} LegalEnds(env: Scopes, depth: int, body: seq<Definition>, inLoop: bool)
    requires env != []
    ensures body[0..] == body && LegalD(env, depth, body[|body|..], inLoop)
  {
  }
}

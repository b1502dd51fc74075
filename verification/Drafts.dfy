/** Functions while they are compiled: code so far, and what is known of the stack at its end. */
module Drafts {
  import opened Wrappers
  import opened Closures
  import opened Functions
  import opened FunctionSyntax

  /** A function's code so far. `now` are the slots at its end; the jumps at `pending` have no targets yet. The locals
      in scope have the identities `ids`, and there are `temps` temporaries above them; identities below `next` have
      been given out. */
  datatype Draft = Draft(code: seq<Instr>, kinds: seq<Kinds>, names: seq<string>, now: Kinds, pending: set<nat>,
                         ids: seq<nat>, temps: nat, next: nat, depth: int)

  function AllKinds(d: Draft): seq<Kinds> {
    d.kinds + [d.now]
  }

  predicate Aligned(d: Draft) {
    |d.code| == |d.kinds| == |d.names|
  }

  /** The code so far is as the finished code is to be, but for the pending jumps. */
  ghost predicate DraftOk(fns: seq<Function>, level: nat, outer: seq<Kinds>, denotes: seq<Variable>, d: Draft) {
    && Aligned(d)
    && (forall p :: 0 <= p < |d.code| ==> InstrOk(fns, level, outer, denotes, d, p))
    && PopsOk(fns, d.code, AllKinds(d)) && LoopsOk(d.code, AllKinds(d))
    && (forall p :: p in d.pending ==> p < |d.code|)
  }

  /** A jump without a target has the slots it needs, and goes on to the next instruction if it is conditional. */
  predicate PendingOk(code: seq<Instr>, kinds: seq<Kinds>, p: nat)
    requires p < |code| && p < |kinds|
  {
    var k := kinds[p];
    && k != []
    && match code[p]
       case Jump(_) => true
       case JumpIf(_) => |k| >= 2 && k[|k| - 1].Temp? && Flows(kinds, k[..|k| - 1], p + 1)
       case _ => false
  }

  ghost predicate InstrOk(fns: seq<Function>, level: nat, outer: seq<Kinds>, denotes: seq<Variable>, d: Draft, p: nat)
    requires Aligned(d) && p < |d.code|
  {
    && (if p in d.pending then PendingOk(d.code, AllKinds(d), p)
        else SlotsOk(fns, level, outer, denotes, d.code, AllKinds(d), p))
    && NameOk(d.code[p], d.kinds[p], outer, denotes, d.names[p])
  }

  // ----- One instruction more -------------------------------------------------------------------------------

  function Appended(d: Draft, i: Instr, name: string, now: Kinds, pending: bool): Draft {
    d.(code := d.code + [i], kinds := d.kinds + [d.now], names := d.names + [name], now := now,
       pending := if pending then d.pending + {|d.code|} else d.pending)
  }

  /** What an instruction needs that is to come next. */
  ghost predicate Fits(fns: seq<Function>, level: nat, outer: seq<Kinds>, denotes: seq<Variable>, d: Draft, i: Instr,
                       name: string, now: Kinds, pending: bool)
    requires Aligned(d)
  {
    var d' := Appended(d, i, name, now, pending);
    && (if pending then PendingOk(d'.code, AllKinds(d'), |d.code|) else SlotsOk(fns, level, outer, denotes, d'.code,
                                                                                AllKinds(d'), |d.code|))
    && NameOk(i, d.now, outer, denotes, name)
    && (i == Pop && d.now != [] && d.now[|d.now| - 1].Named? ==> NotCaptured(fns, d, d.now[|d.now| - 1].id))
    && (i.Loop? ==> i.target < |AllKinds(d)| && NotPopped(d, i.target, AllKinds(d)[i.target]))
  }

  /** No closure made so far captures local `id`. */
  ghost predicate NotCaptured(fns: seq<Function>, d: Draft, id: nat)
    requires Aligned(d)
  {
    forall q :: 0 <= q < |d.code| ==> !Captures(fns, d.code, d.kinds, q, id)
  }

  /** None of the locals `k` is popped from `start` on. */
  ghost predicate NotPopped(d: Draft, start: nat, k: Kinds)
    requires Aligned(d)
  {
    forall p, id :: start <= p < |d.code| && Pops(d.code, d.kinds, p, id) ==> !Has(k, id)
  }

  lemma {:induction false} OldInstr(fns: seq<Function>, level: nat, outer: seq<Kinds>, denotes: seq<Variable>, d: Draft,
                                    i: Instr, name: string, now: Kinds, pending: bool, p: nat)
    requires Aligned(d) && p < |d.code| && InstrOk(fns, level, outer, denotes, d, p)
    ensures InstrOk(fns, level, outer, denotes, Appended(d, i, name, now, pending), p)
  {
    var d' := Appended(d, i, name, now, pending);
    assert AllKinds(d') == AllKinds(d) + [now];
    assert d'.code[p] == d.code[p] && AllKinds(d')[p] == AllKinds(d)[p] == d.kinds[p];
    forall k: Kinds, q: nat | Flows(AllKinds(d), k, q) ensures Flows(AllKinds(d'), k, q) {
      assert AllKinds(d')[q] == AllKinds(d)[q];
    }
  }

  lemma {:induction false} Append(fns: seq<Function>, level: nat, outer: seq<Kinds>, denotes: seq<Variable>, d: Draft,
                                  i: Instr, name: string, now: Kinds, pending: bool)
    requires DraftOk(fns, level, outer, denotes, d) && Fits(fns, level, outer, denotes, d, i, name, now, pending)
    ensures DraftOk(fns, level, outer, denotes, Appended(d, i, name, now, pending))
  {
    var d' := Appended(d, i, name, now, pending);
    var n := |d.code|;
    forall p | 0 <= p < |d'.code| ensures InstrOk(fns, level, outer, denotes, d', p) {
      if p < n {
        OldInstr(fns, level, outer, denotes, d, i, name, now, pending, p);
      }
    }
    SameAt(d, d');
    forall p, q, id | 0 <= q < p < |d'.code|
      && Pops(d'.code, AllKinds(d'), p, id) ensures !Captures(fns, d'.code, AllKinds(d'), q, id) {
      if p < n {
        assert Pops(d.code, AllKinds(d), p, id);
        assert !Captures(fns, d.code, AllKinds(d), q, id);
      } else {
        assert !Captures(fns, d.code, d.kinds, q, id);
      }
    }
    forall p, e, id | 0 <= p < e < |d'.code| && d'.code[e].Loop? && d'.code[e].target <= p
      && Pops(d'.code, AllKinds(d'), p, id)
      ensures d'.code[e].target < |AllKinds(d')| && !Has(AllKinds(d')[d'.code[e].target], id)
    {
      if e < n {
        assert Pops(d.code, AllKinds(d), p, id);
      } else {
        assert Pops(d.code, d.kinds, p, id);
      }
    }
  }

  /** What was there is still there. */
  lemma {:induction false} SameAt(d: Draft, d': Draft)
    requires Aligned(d) && Aligned(d') && d.code <= d'.code && AllKinds(d) <= AllKinds(d')
    ensures forall p :: 0 <= p < |d.code| ==> d'.code[p] == d.code[p] && AllKinds(d')[p] == d.kinds[p] == AllKinds(d)[p]
    ensures forall p :: 0 <= p <= |d.code| ==> AllKinds(d')[p] == AllKinds(d)[p]
  {
  }

  // ----- Other changes --------------------------------------------------------------------------------------

  /** A jump gets its target, the end of the code. */
  function Patched(d: Draft, p: nat): Draft
    requires p < |d.code|
  {
    var n := |d.code|;
    d.(code := d.code[p := if d.code[p].JumpIf? then JumpIf(n) else Jump(n)], pending := d.pending - {p})
  }

  /** The slots a jump takes along. */
  function TakesAlong(d: Draft, p: nat): Kinds
    requires Aligned(d) && p < |d.code| && d.kinds[p] != []
  {
    if d.code[p].JumpIf? then d.kinds[p][..|d.kinds[p]| - 1] else d.kinds[p]
  }

  lemma {:induction false} Patch(fns: seq<Function>, level: nat, outer: seq<Kinds>, denotes: seq<Variable>, d: Draft,
                                 p: nat)
    requires DraftOk(fns, level, outer, denotes, d) && p in d.pending && d.kinds[p] != []
             && Retypes(TakesAlong(d, p), d.now)
    ensures DraftOk(fns, level, outer, denotes, Patched(d, p))
  {
    var d' := Patched(d, p);
    assert AllKinds(d') == AllKinds(d);
    assert AllKinds(d)[|d.code|] == d.now;
    assert InstrOk(fns, level, outer, denotes, d, p);
    forall q | 0 <= q < |d'.code| ensures InstrOk(fns, level, outer, denotes, d', q) {
      assert InstrOk(fns, level, outer, denotes, d, q);
    }
    forall r, q, id | 0 <= q < r < |d'.code|
      && Pops(d'.code, AllKinds(d'), r, id) ensures !Captures(fns, d'.code, AllKinds(d'), q, id) {
      assert Pops(d.code, AllKinds(d), r, id);
      assert !Captures(fns, d.code, AllKinds(d), q, id);
    }
    forall r, e, id | 0 <= r < e < |d'.code| && d'.code[e].Loop? && d'.code[e].target <= r
      && Pops(d'.code, AllKinds(d'), r, id)
      ensures d'.code[e].target < |AllKinds(d')| && !Has(AllKinds(d')[d'.code[e].target], id)
    {
      assert Pops(d.code, AllKinds(d), r, id);
    }
  }

  /** A declaration turns a temporary at the end of the code into a local. */
  lemma {:induction false} Retype(fns: seq<Function>, level: nat, outer: seq<Kinds>, denotes: seq<Variable>, d: Draft,
                                  now: Kinds)
    requires DraftOk(fns, level, outer, denotes, d) && Retypes(d.now, now)
    ensures DraftOk(fns, level, outer, denotes, d.(now := now))
  {
    var d' := d.(now := now);
    SameBut(d, d');
    forall k: Kinds, q: nat | Flows(AllKinds(d), k, q) ensures Flows(AllKinds(d'), k, q) {
      if q == |d.code| {
        assert AllKinds(d)[q] == d.now && AllKinds(d')[q] == now;
      }
    }
    forall p | 0 <= p < |d'.code| ensures InstrOk(fns, level, outer, denotes, d', p) && (d.code[p].Loop? ==>
        d.code[p].target <= p) {
      assert InstrOk(fns, level, outer, denotes, d, p);
    }
    CodeSame(fns, d, d');
  }

  lemma {:induction false} SameBut(d: Draft, d': Draft)
    requires Aligned(d) && d' == d.(now := d'.now)
    ensures forall p :: 0 <= p < |d.code| ==> AllKinds(d')[p] == AllKinds(d)[p]
  {
  }

  /** What is popped and captured does not depend on the slots at the end. */
  lemma {:induction false} CodeSame(fns: seq<Function>, d: Draft, d': Draft)
    requires Aligned(d) && d' == d.(now := d'.now) && PopsOk(fns, d.code, AllKinds(d)) && LoopsOk(d.code, AllKinds(d))
    requires forall e :: 0 <= e < |d.code| && d.code[e].Loop? ==> d.code[e].target <= e
    ensures PopsOk(fns, d'.code, AllKinds(d')) && LoopsOk(d'.code, AllKinds(d'))
  {
    SameBut(d, d');
    forall r, q, id | 0 <= q < r < |d.code|
      && Pops(d.code, AllKinds(d'), r, id) ensures !Captures(fns, d.code, AllKinds(d'), q, id) {
      assert Pops(d.code, AllKinds(d), r, id);
      assert !Captures(fns, d.code, AllKinds(d), q, id);
    }
    forall r, e, id | 0 <= r < e < |d.code| && d.code[e].Loop? && d.code[e].target <= r
      && Pops(d.code, AllKinds(d'), r, id)
      ensures d.code[e].target < |AllKinds(d')| && !Has(AllKinds(d')[d.code[e].target], id)
    {
      assert Pops(d.code, AllKinds(d), r, id);
    }
  }

  /** More functions, more upvalues. */
  lemma {:induction false} Extend(fns: seq<Function>, fns': seq<Function>, level: nat, outer: seq<Kinds>,
                                  denotes: seq<Variable>, denotes': seq<Variable>, d: Draft)
    requires DraftOk(fns, level, outer, denotes, d) && fns <= fns' && denotes <= denotes'
    ensures DraftOk(fns', level, outer, denotes', d)
  {
    forall p | 0 <= p < |d.code| ensures InstrOk(fns', level, outer, denotes', d, p) {
      assert InstrOk(fns, level, outer, denotes, d, p);
    }
    forall r, q, id | 0 <= q < r < |d.code|
      && Pops(d.code, AllKinds(d), r, id) ensures !Captures(fns', d.code, AllKinds(d), q, id) {
      assert !Captures(fns, d.code, AllKinds(d), q, id);
      assert InstrOk(fns, level, outer, denotes, d, q);
    }
  }

  // ----- Locals ---------------------------------------------------------------------------------------------

  /** The slots of a function with these locals, and so many temporaries. */
  function Slots(locals: seq<Local>, ids: seq<nat>, temps: nat): (k: Kinds)
    requires |ids| == |locals|
    ensures |k| == |locals| + temps
    ensures forall i :: 0 <= i < |locals| ==> k[i] == Named(ids[i], locals[i].name)
    ensures forall i :: |locals| <= i < |k| ==> k[i] == Temp
  {
    seq(|locals|, i requires 0 <= i < |locals| => Named(ids[i], locals[i].name)) + seq(temps, _ => Temp)
  }

  predicate Below(k: Kinds, next: nat) {
    forall i :: 0 <= i < |k| && k[i].Named? ==> k[i].id < next
  }

  /** Every local has an identity of its own, which none had before. */
  ghost predicate IdsOk(d: Draft) {
    && (forall i, j :: 0 <= i < j < |d.ids| ==> d.ids[i] != d.ids[j])
    && (forall i :: 0 <= i < |d.ids| ==> d.ids[i] < d.next)
    && (forall p :: 0 <= p < |d.kinds| ==> Below(d.kinds[p], d.next))
  }

  /** A local that is not marked is captured by no closure made so far. */
  ghost predicate MarksOk(fns: seq<Function>, locals: seq<Local>, d: Draft)
    requires Aligned(d) && |d.ids| == |locals|
  {
    forall i :: 0 <= i < |locals| && !locals[i].isUpvalue ==> NotCaptured(fns, d, d.ids[i])
  }

  /** The slots of the functions around the one at `level`. */
  function Outers(drafts: seq<Draft>, level: nat): (s: seq<Kinds>)
    requires level <= |drafts|
  {
    seq(level, i requires 0 <= i < level => drafts[i].now)
  }

  /** The variables the upvalues of the function at `level` denote. */
  function DenotesOf(cs: seq<Compiler>, level: nat): (s: seq<Variable>)
    requires level < |cs|
    ensures |s| == |cs[level].upvalues|
  {
    seq(|cs[level].upvalues|, u requires 0 <= u < |cs[level].upvalues| =>
      match Denotes(cs, level, u) case Some(v) => v case None => Variable(0, 0))
  }

  /** Scopes are within scopes. */
  predicate DepthsOk(locals: seq<Local>, depth: int) {
    && (forall i :: 0 <= i < |locals| ==> locals[i].depth <= depth)
    && forall i, j :: 0 <= i < j < |locals| ==> locals[i].depth <= locals[j].depth
  }

  /** What is known of the function at `level`. */
  ghost predicate LevelGood(fns: seq<Function>, cs: seq<Compiler>, drafts: seq<Draft>, level: nat)
    requires level < |cs| == |drafts|
  {
    var d, locals := drafts[level], cs[level].locals;
    && DraftOk(fns, level, Outers(drafts, level), DenotesOf(cs, level), d)
    && |d.ids| == |locals| > 0 && d.now == Slots(locals, d.ids, d.temps) && IdsOk(d) && MarksOk(fns, locals, d)
    && !cs[level].inClass && locals[0].depth == -1 && d.depth >= 0 && DepthsOk(locals, d.depth)
  }

  ghost predicate AllGood(fns: seq<Function>, cs: seq<Compiler>, drafts: seq<Draft>) {
    && |cs| == |drafts| && Resolved(cs) && ProgramOk(fns)
    && forall l :: 0 <= l < |cs| ==> LevelGood(fns, cs, drafts, l)
  }

  lemma {:induction false} DenotesGrow(cs: seq<Compiler>, cs': seq<Compiler>, top: nat, level: nat)
    requires Grown(cs, cs', top) && Resolved(cs) && level < |cs|
    ensures DenotesOf(cs, level) <= DenotesOf(cs', level)
  {
    assert if level <= top then GrownAt(cs[level], cs'[level]) else cs'[level] == cs[level];
    forall u | 0 <= u < |cs[level].upvalues| ensures DenotesOf(cs, level)[u] == DenotesOf(cs', level)[u] {
      AllLead(cs, level, u);
      StillDenotes(cs, cs', top, level, u);
    }
  }

  /** A level stays good while functions are finished and upvalues found. */
  lemma {:induction false} LevelStays(fns: seq<Function>, fns': seq<Function>, cs: seq<Compiler>, cs': seq<Compiler>,
                                      top: nat, drafts: seq<Draft>, level: nat)
    requires level < |cs| == |drafts| && LevelGood(fns, cs, drafts, level) && Resolved(cs)
    requires fns <= fns' && Grown(cs, cs', top)
    ensures LevelGood(fns', cs', drafts, level)
  {
    var d := drafts[level];
    DenotesGrow(cs, cs', top, level);
    Extend(fns, fns', level, Outers(drafts, level), DenotesOf(cs, level), DenotesOf(cs', level), d);
    assert if level <= top then GrownAt(cs[level], cs'[level]) else cs'[level] == cs[level];
    assert d.now == Slots(cs'[level].locals, d.ids, d.temps);
    forall i | 0 <= i < |d.ids| && !cs'[level].locals[i].isUpvalue ensures NotCaptured(fns', d, d.ids[i]) {
      assert !cs[level].locals[i].isUpvalue;
      StillNotCaptured(fns, fns', level, Outers(drafts, level), DenotesOf(cs, level), d, d.ids[i]);
    }
  }

  lemma {:induction false} StillNotCaptured(fns: seq<Function>, fns': seq<Function>, level: nat, outer: seq<Kinds>,
                                            denotes: seq<Variable>, d: Draft, id: nat)
    requires DraftOk(fns, level, outer, denotes, d) && NotCaptured(fns, d, id) && fns <= fns'
    ensures NotCaptured(fns', d, id)
  {
    forall q | 0 <= q < |d.code| ensures !Captures(fns', d.code, d.kinds, q, id) {
      assert InstrOk(fns, level, outer, denotes, d, q);
      assert !Captures(fns, d.code, d.kinds, q, id);
    }
  }

  /** The last function gets one instruction more. */
  lemma {:induction false} LevelAppend(fns: seq<Function>, cs: seq<Compiler>, drafts: seq<Draft>, level: nat, i: Instr,
                                       name: string, temps: nat, pending: bool)
    requires level < |cs| == |drafts| && LevelGood(fns, cs, drafts, level)
    requires var d := drafts[level];
             && Fits(fns, level, Outers(drafts, level), DenotesOf(cs, level), d, i, name,
                     Slots(cs[level].locals, d.ids, temps), pending)
             && (i.MakeClosure? ==> CapturesMarked(fns, cs[level].locals, i.fn))
    ensures var d := drafts[level];
            var d' := Appended(d, i, name, Slots(cs[level].locals, d.ids, temps), pending).(temps := temps);
            LevelGood(fns, cs, drafts[level := d'], level)
  {
    var d, locals := drafts[level], cs[level].locals;
    var now := Slots(locals, d.ids, temps);
    var a := Appended(d, i, name, now, pending);
    var d' := a.(temps := temps);
    Append(fns, level, Outers(drafts, level), DenotesOf(cs, level), d, i, name, now, pending);
    TempsFree(fns, level, Outers(drafts, level), DenotesOf(cs, level), a, temps);
    assert Outers(drafts[level := d'], level) == Outers(drafts, level);
    forall k | 0 <= k < |locals| && !locals[k].isUpvalue ensures NotCaptured(fns, d', d'.ids[k]) {
      assert NotCaptured(fns, d, d.ids[k]);
      AppendNotCaptured(fns, d, locals, i, name, now, pending, k);
    }
  }

  lemma {:induction false} TempsFree(fns: seq<Function>, level: nat, outer: seq<Kinds>, denotes: seq<Variable>,
                                     d: Draft, temps: nat)
    requires DraftOk(fns, level, outer, denotes, d)
    ensures DraftOk(fns, level, outer, denotes, d.(temps := temps))
  {
    var d' := d.(temps := temps);
    assert AllKinds(d') == AllKinds(d);
    forall p | 0 <= p < |d'.code| ensures InstrOk(fns, level, outer, denotes, d', p) {
      assert InstrOk(fns, level, outer, denotes, d, p);
    }
  }

  /** The locals a closure of `fn` captures are marked. */
  predicate CapturesMarked(fns: seq<Function>, locals: seq<Local>, fn: nat) {
    fn < |fns| && forall u :: 0 <= u < |fns[fn].upvalues| && fns[fn].upvalues[u].isLocal ==>
      fns[fn].upvalues[u].index < |locals| && locals[fns[fn].upvalues[u].index].isUpvalue
  }

  lemma {:induction false} AppendNotCaptured(fns: seq<Function>, d: Draft, locals: seq<Local>, i: Instr, name: string,
                                             now: Kinds, pending: bool, k: nat)
    requires Aligned(d) && |d.ids| == |locals| && d.now == Slots(locals, d.ids, d.temps) && IdsOk(d)
    requires k < |locals| && !locals[k].isUpvalue && NotCaptured(fns, d, d.ids[k])
    requires i.MakeClosure? ==> CapturesMarked(fns, locals, i.fn)
    ensures NotCaptured(fns, Appended(d, i, name, now, pending), d.ids[k])
  {
    var d' := Appended(d, i, name, now, pending);
    forall q | 0 <= q < |d'.code| ensures !Captures(fns, d'.code, d'.kinds, q, d.ids[k]) {
      if q < |d.code| {
        assert d'.code[q] == d.code[q] && d'.kinds[q] == d.kinds[q];
        assert !Captures(fns, d.code, d.kinds, q, d.ids[k]);
      }
    }
  }
}

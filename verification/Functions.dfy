/** Functions within functions: their code, and what the compiler knows of the stack at every instruction of it. */
module Functions {
  import opened Wrappers
  import opened Closures
  import opened FunctionSyntax

  /** A slot of a function's part of the stack: a temporary, or the local that a declaration made. */
  datatype Kind = Temp | Named(id: nat, name: string)

  type Kinds = seq<Kind>

  /** The instructions that matter to variables. `Pop` gives up a temporary or a local that was not captured. */
  datatype Instr =
    | Constant(value: Value)
    | LoadLocal(slot: nat)
    | StoreLocal(slot: nat)
    | LoadUpvalue(index: nat)
    | StoreUpvalue(index: nat)
    | MakeClosure(fn: nat)
    | Pop
    | CloseUpvalue
    | Jump(target: nat)
    | JumpIf(target: nat)
    | Loop(target: nat)
    | Call(numArgs: nat)
    | Return

  /** A compiled function within `level` others: its code, with the slots before each instruction and the name each
      one looked up; its upvalues, the variables they denote, and the slots of the functions around it where it is
      made into a closure. */
  datatype Function = Function(level: nat, arity: nat, code: seq<Instr>, kinds: seq<Kinds>, names: seq<string>,
                               upvalues: seq<CompilerUpvalue>, denotes: seq<Variable>, outer: seq<Kinds>)

  // ----- Names ----------------------------------------------------------------------------------------------

  /** Slot `i` is the last local called `x`. */
  predicate Innermost(k: Kinds, x: string, i: nat) {
    i < |k| && k[i].Named? && k[i].name == x && forall j :: i < j < |k| && k[j].Named? ==> k[j].name != x
  }

  predicate NotIn(k: Kinds, x: string) {
    forall j :: 0 <= j < |k| && k[j].Named? ==> k[j].name != x
  }

  /** Variable `v` is what `x` means around a function: the last local so called in the nearest function with one. */
  predicate MeansAround(outer: seq<Kinds>, x: string, v: Variable) {
    v.level < |outer| && Innermost(outer[v.level], x, v.slot) && forall l :: v.level < l < |outer| ==>
        NotIn(outer[l], x)
  }

  /** A name is looked up in the function itself first, and then in those around it. */
  predicate NameOk(i: Instr, k: Kinds, outer: seq<Kinds>, denotes: seq<Variable>, x: string) {
    match i
    case LoadLocal(slot) => Innermost(k, x, slot)
    case StoreLocal(slot) => Innermost(k, x, slot)
    case LoadUpvalue(u) => u < |denotes| && NotIn(k, x) && MeansAround(outer, x, denotes[u])
    case StoreUpvalue(u) => u < |denotes| && NotIn(k, x) && MeansAround(outer, x, denotes[u])
    case _ => true
  }

  // ----- Slots ----------------------------------------------------------------------------------------------

  /** A declaration makes a local of a temporary; nothing else changes from one instruction to the next. */
  predicate Retypes(k: Kinds, k': Kinds) {
    |k| == |k'| && forall i :: 0 <= i < |k| ==> k'[i] == k[i] || (k[i].Temp? && k'[i].Named?)
  }

  predicate Flows(kinds: seq<Kinds>, k: Kinds, q: nat) {
    q < |kinds| && Retypes(k, kinds[q])
  }

  /** What a closure of `f` captures is there where it is made: locals, and some of the `upvalues` there are. */
  predicate Takes(f: Function, upvalues: nat, k: Kinds) {
    forall u :: 0 <= u < |f.upvalues| ==>
      var e := f.upvalues[u];
      if e.isLocal then e.index < |k| && k[e.index].Named? else e.index < upvalues
  }

  /** And they denote the same variables. */
  predicate MakesOk(f: Function, level: nat, outer: seq<Kinds>, denotes: seq<Variable>, k: Kinds) {
    && f.level == level + 1 && f.outer == outer + [k] && |f.denotes| == |f.upvalues|
    && forall u :: 0 <= u < |f.upvalues| ==>
         var e := f.upvalues[u];
         if e.isLocal then e.index < |k| && k[e.index].Named? && f.denotes[u] == Variable(level, e.index)
         else e.index < |denotes| && f.denotes[u] == denotes[e.index]
  }

  predicate AllTemps(k: Kinds, m: nat) {
    m <= |k| && forall i :: |k| - m <= i < |k| ==> k[i].Temp?
  }

  predicate SlotsOk(fns: seq<Function>, level: nat, outer: seq<Kinds>, denotes: seq<Variable>, code: seq<Instr>,
                    kinds: seq<Kinds>, p: nat)
    requires p < |code| && p < |kinds|
  {
    && StepOk(fns, |denotes|, code, kinds, p)
    && (code[p].MakeClosure? ==> MakesOk(fns[code[p].fn], level, outer, denotes, kinds[p]))
  }

  /** The instruction at `p` finds the slots and upvalues it needs and leaves the slots that come next; there are always
      some. */
  predicate StepOk(fns: seq<Function>, upvalues: nat, code: seq<Instr>, kinds: seq<Kinds>, p: nat)
    requires p < |code| && p < |kinds|
    ensures StepOk(fns, upvalues, code, kinds, p) && code[p].MakeClosure? ==> code[p].fn < |fns|
  {
    var k := kinds[p];
    var n := |k|;
    && n >= 1
    && match code[p]
       case Constant(_) => Flows(kinds, k + [Temp], p + 1)
       case LoadLocal(i) => i < n && Flows(kinds, k + [Temp], p + 1)
       case StoreLocal(i) => i < n && Flows(kinds, k, p + 1)
       case LoadUpvalue(u) => u < upvalues && Flows(kinds, k + [Temp], p + 1)
       case StoreUpvalue(u) => u < upvalues && Flows(kinds, k, p + 1)
       case MakeClosure(f) => f < |fns| && Takes(fns[f], upvalues, k) && Flows(kinds, k + [Temp], p + 1)
       case Pop => n >= 2 && Flows(kinds, k[..n - 1], p + 1)
       case CloseUpvalue => n >= 2 && Flows(kinds, k[..n - 1], p + 1)
       case Jump(t) => p < t && Flows(kinds, k, t)
       case JumpIf(t) => p < t && n >= 2 && k[n - 1].Temp? && Flows(kinds, k[..n - 1], t) && Flows(kinds, k[..n - 1],
                                                                                                   p + 1)
       case Loop(t) => t <= p && Flows(kinds, k, t)
       case Call(m) => n >= m + 2 && AllTemps(k, m + 1) && Flows(kinds, k[..n - m - 1] + [Temp], p + 1)
       case Return => true
  }

  // ----- Captured locals ------------------------------------------------------------------------------------

  predicate Has(k: Kinds, id: nat) {
    exists i :: 0 <= i < |k| && k[i].Named? && k[i].id == id
  }

  /** The instruction at `p` gives up local `id` with a plain pop. */
  predicate Pops(code: seq<Instr>, kinds: seq<Kinds>, p: nat, id: nat)
    requires p < |code| && p < |kinds|
  {
    var k := kinds[p];
    code[p] == Pop && k != [] && k[|k| - 1].Named? && k[|k| - 1].id == id
  }

  /** The closure made at `q` captures local `id`. */
  predicate Captures(fns: seq<Function>, code: seq<Instr>, kinds: seq<Kinds>, q: nat, id: nat)
    requires q < |code| && q < |kinds|
  {
    && code[q].MakeClosure? && code[q].fn < |fns|
    && exists u :: 0 <= u < |fns[code[q].fn].upvalues| && CapturesAt(fns[code[q].fn].upvalues[u], kinds[q], id)
  }

  predicate CapturesAt(e: CompilerUpvalue, k: Kinds, id: nat) {
    e.isLocal && e.index < |k| && k[e.index].Named? && k[e.index].id == id
  }

  /** A local that is popped is captured by no closure made before, in the order of the code. */
  ghost predicate PopsOk(fns: seq<Function>, code: seq<Instr>, kinds: seq<Kinds>)
    requires |code| <= |kinds|
  {
    forall p, q, id :: 0 <= q < p < |code| && Pops(code, kinds, p, id) ==> !Captures(fns, code, kinds, q, id)
  }

  /** What is popped within a loop was not there when the loop began. */
  ghost predicate LoopsOk(code: seq<Instr>, kinds: seq<Kinds>)
    requires |code| <= |kinds|
  {
    forall p, e, id :: 0 <= p < e < |code| && code[e].Loop? && code[e].target <= p && Pops(code, kinds, p, id) ==>
      code[e].target < |kinds| && !Has(kinds[code[e].target], id)
  }

  /** Code that can run. */
  ghost predicate CodeOk(fns: seq<Function>, f: Function) {
    && |f.kinds| == |f.code| && f.code != [] && |f.kinds[0]| == f.arity + 1
    && (forall p :: 0 <= p < |f.code| ==> StepOk(fns, |f.upvalues|, f.code, f.kinds, p))
    && PopsOk(fns, f.code, f.kinds) && LoopsOk(f.code, f.kinds)
  }

  /** A function as the compiler promises it. */
  ghost predicate FunctionOk(fns: seq<Function>, f: Function) {
    && |f.kinds| == |f.code| == |f.names| && f.code != [] && |f.outer| == f.level && |f.denotes| == |f.upvalues|
    && |f.kinds[0]| == f.arity + 1
    && (forall p :: 0 <= p < |f.code| ==>
          && SlotsOk(fns, f.level, f.outer, f.denotes, f.code, f.kinds, p)
          && NameOk(f.code[p], f.kinds[p], f.outer, f.denotes, f.names[p]))
    && PopsOk(fns, f.code, f.kinds) && LoopsOk(f.code, f.kinds)
  }

  ghost predicate ProgramOk(fns: seq<Function>) {
    forall f :: 0 <= f < |fns| ==> FunctionOk(fns, fns[f])
  }

  lemma {:induction false} CanRun(fns: seq<Function>, f: Function)
    requires FunctionOk(fns, f)
    ensures CodeOk(fns, f)
  {
    forall p | 0 <= p < |f.code| ensures StepOk(fns, |f.upvalues|, f.code, f.kinds, p) {
      assert SlotsOk(fns, f.level, f.outer, f.denotes, f.code, f.kinds, p);
    }
  }

  /** The most slots a function has. */
  function MaxSlots(kinds: seq<Kinds>): (m: nat)
    ensures forall p :: 0 <= p < |kinds| ==> |kinds[p]| <= m
  {
    if kinds == [] then 0
    else
      var m := MaxSlots(kinds[..|kinds| - 1]);
      var n := |kinds[|kinds| - 1]|;
      assert forall p :: 0 <= p < |kinds| - 1 ==> kinds[p] == kinds[..|kinds| - 1][p];
      if m >= n then m else n
  }

  // ----- Runs -----------------------------------------------------------------------------------------------

  /** A variable of a frame's slot: captured by a closure or not. A temporary is not; and a local only while all the
      plain pops of it are behind. */
  predicate SlotSafe(f: Function, pc: nat, x: nat, kind: Kind, captured: set<nat>)
    requires |f.code| == |f.kinds|
  {
    x in captured ==> kind.Named? && forall p :: 0 <= p < |f.code| && Pops(f.code, f.kinds, p, kind.id) ==> p < pc
  }

  /** The slots of a frame that is at `pc`; while it waits for a call, the slot of the result is still to come. */
  ghost predicate WindowOk(f: Function, pc: nat, window: seq<nat>, captured: set<nat>, waits: bool)
    requires |f.code| == |f.kinds|
  {
    && pc < |f.code| && |window| + (if waits then 1 else 0) == |f.kinds[pc]|
    && forall i :: 0 <= i < |window| ==> SlotSafe(f, pc, window[i], f.kinds[pc][i], captured)
  }

  /** From one instruction to a later one. */
  lemma {:induction false} Forward(f: Function, pc: nat, k: Kinds, q: nat, window: seq<nat>, captured: set<nat>)
    requires |f.code| == |f.kinds| && pc < q < |f.code| && Flows(f.kinds, k, q) && |window| == |k|
    requires forall i :: 0 <= i < |window| ==> SlotSafe(f, pc, window[i], k[i], captured)
    ensures WindowOk(f, q, window, captured, false)
  {
    forall i | 0 <= i < |window| ensures SlotSafe(f, q, window[i], f.kinds[q][i], captured) {
      assert SlotSafe(f, pc, window[i], k[i], captured);
    }
  }

  /** From the end of a loop to its beginning: what was popped within it is not there any more. */
  lemma {:induction false} Backward(f: Function, pc: nat, window: seq<nat>, captured: set<nat>)
    requires |f.code| == |f.kinds| && LoopsOk(f.code, f.kinds) && WindowOk(f, pc, window, captured, false)
    requires f.code[pc].Loop? && f.code[pc].target <= pc && Flows(f.kinds, f.kinds[pc], f.code[pc].target)
    ensures WindowOk(f, f.code[pc].target, window, captured, false)
  {
    var t := f.code[pc].target;
    forall i | 0 <= i < |window| ensures SlotSafe(f, t, window[i], f.kinds[t][i], captured) {
      var k := f.kinds[pc][i];
      assert SlotSafe(f, pc, window[i], k, captured);
      if window[i] in captured {
        assert f.kinds[t][i] == k;
        assert Has(f.kinds[t], k.id);
        forall p | 0 <= p < |f.code| && Pops(f.code, f.kinds, p, k.id) ensures p < t {
        }
      }
    }
  }

  /** A plain pop gives up a variable that no closure has. */
  lemma {:induction false} PopSafe(f: Function, pc: nat, window: seq<nat>, captured: set<nat>)
    requires |f.code| == |f.kinds| && WindowOk(f, pc, window, captured, false) && f.code[pc] == Pop && window != []
    ensures window[|window| - 1] !in captured
  {
    var i := |window| - 1;
    assert SlotSafe(f, pc, window[i], f.kinds[pc][i], captured);
    if f.kinds[pc][i].Named? {
      assert Pops(f.code, f.kinds, pc, f.kinds[pc][i].id);
    }
  }

  lemma {:induction false} PopsBefore(fns: seq<Function>, code: seq<Instr>, kinds: seq<Kinds>, p: nat, q: nat, id: nat)
    requires |code| <= |kinds| && PopsOk(fns, code, kinds) && p < |code| && q < |code|
    requires Pops(code, kinds, p, id) && Captures(fns, code, kinds, q, id)
    ensures p < q
  {
  }

  /** A closure is made: the locals it captures are not popped anywhere ahead. */
  lemma {:induction false} CaptureSafe(fns: seq<Function>, f: Function, pc: nat, window: seq<nat>, captured: set<nat>,
                                       captured': set<nat>)
    requires CodeOk(fns, f) && WindowOk(f, pc, window, captured, false)
    requires f.code[pc].MakeClosure? && f.code[pc].fn < |fns|
    requires forall i, j :: 0 <= i < j < |window| ==> window[i] != window[j]
    requires forall x :: x in captured' && x !in captured ==> CapturedBy(fns[f.code[pc].fn].upvalues, window, x)
    ensures WindowOk(f, pc, window, captured', false)
  {
    var g := fns[f.code[pc].fn];
    assert StepOk(fns, |f.upvalues|, f.code, f.kinds, pc);
    forall i | 0 <= i < |window| ensures SlotSafe(f, pc, window[i], f.kinds[pc][i], captured') {
      assert SlotSafe(f, pc, window[i], f.kinds[pc][i], captured);
      if window[i] in captured' && window[i] !in captured {
        var u :| 0 <= u < |g.upvalues| && CapturedNow(g.upvalues[u], window, window[i]);
        assert g.upvalues[u].index == i;
        var k := f.kinds[pc][i];
        assert CapturesAt(g.upvalues[u], f.kinds[pc], k.id);
        assert Captures(fns, f.code, f.kinds, pc, k.id);
        forall p | 0 <= p < |f.code| && Pops(f.code, f.kinds, p, k.id) ensures p < pc {
          PopsBefore(fns, f.code, f.kinds, p, pc, k.id);
        }
      }
    }
  }

  predicate CapturedBy(upvalues: seq<CompilerUpvalue>, window: seq<nat>, x: nat) {
    exists u :: 0 <= u < |upvalues| && CapturedNow(upvalues[u], window, x)
  }

  predicate CapturedNow(e: CompilerUpvalue, window: seq<nat>, x: nat) {
    e.isLocal && e.index < |window| && window[e.index] == x
  }
}

/** What the compiler's output buffer and slot counters look like after a construct, and how the
    emissions of parts make up the emission of the whole. */
module Emission {
  import opened Basics
  import opened Wrappers
  import opened Syntax
  import opened Bytecode
  import opened Octets
  import opened CodeGen
  import opened CodeGenLaws
  import opened Shapes

  /** The bytes emitted so far, the current slot count and its high water mark. */
  datatype Output = Output(code: seq<byte>, slots: int, peak: int)

  /** Emitting one instruction through the compiler's accounting. */
  function Emit(o: Output, i: Instr): Output {
    var slots := o.slots + StackEffect(i.op);
    Output(o.code + Bytes([i]), slots, Max(o.peak, slots))
  }

  /** A jump whose distance is still a placeholder. */
  function EmitHole(o: Output, op: byte): Output {
    var slots := o.slots + StackEffect(op);
    Output(o.code + [op, 255, 255], slots, Max(o.peak, slots))
  }

  /** Filling in the placeholder at `at` with the distance to the end of the code. */
  function Patch(o: Output, at: nat): Output
    requires at + 2 <= |o.code|
  {
    o.(code := o.code[..at] + U16(|o.code| - at - 2) + o.code[at + 2..])
  }

  /** From `o` to `o'`, the code of the expression `e` was appended. */
  ghost predicate DoneE(e: Expr, ls: seq<string>, T: Tables, o: Output, o': Output) {
    && KnownE(e, ls, T)
    && o'.code == o.code + Bytes(GenE(e, ls, T))
    && o'.slots == o.slots + DeltaE(e)
    && o'.peak == Max(o.peak, o.slots + PeakE(e))
  }

  lemma {:induction false} DoneStable(e: Expr, ls: seq<string>, T: Tables, T': Tables, o: Output, o': Output)
    requires Grows(T, T') && DoneE(e, ls, T, o, o')
    ensures DoneE(e, ls, T', o, o')
  {
    hide GenE, KnownE, Bytes, DeltaE, PeakE;
    StableE(e, ls, T, T');
  }

  /** Appending to code that already holds `a`. */
  lemma {:induction false} AppendCode(before: seq<byte>, a: seq<Instr>, b: seq<Instr>)
    ensures before + Bytes(a) + Bytes(b) == before + Bytes(a + b)
  {
    hide Bytes, Size;
    BytesAppend(a, b);
    Assoc(before, Bytes(a), Bytes(b));
  }

  lemma {:induction false} DoneOne(e: Expr, ls: seq<string>, T: Tables, o: Output, i: Instr)
    requires e.NullLit? || e.BoolLit? || e.Lit? || e.Name?
    requires KnownE(e, ls, T) && GenE(e, ls, T) == [i] && StackEffect(i.op) == 1
    ensures DoneE(e, ls, T, o, Emit(o, i))
  {
    hide GenE, Bytes;
  }

  /** One more instruction after one operand. */
  lemma {:induction false} DoneThen(e: Expr, e1: Expr, i: Instr, ls: seq<string>, T: Tables, o: Output, o1: Output)
    requires DoneE(e1, ls, T, o, o1) && KnownE(e, ls, T)
    requires GenE(e, ls, T) == GenE(e1, ls, T) + [i] && StackEffect(i.op) == 0
    requires DeltaE(e) == DeltaE(e1) && PeakE(e) == PeakE(e1)
    ensures DoneE(e, ls, T, o, Emit(o1, i))
  {
    hide GenE, KnownE, Bytes, DeltaE, PeakE;
    AppendCode(o.code, GenE(e1, ls, T), [i]);
  }

  lemma {:induction false} LoadParts(x: string, ls: seq<string>, T: Tables, o: Output)
    requires KnownVar(ls, T, x)
    ensures DoneE(Name(x), ls, T, o, Emit(o, LoadVar(ls, T, x)))
  {
    DoneOne(Name(x), ls, T, o, LoadVar(ls, T, x));
  }

  lemma {:induction false} AssignParts(x: string, e: Expr, ls: seq<string>, T: Tables, o: Output, o1: Output)
    requires KnownVar(ls, T, x) && DoneE(e, ls, T, o, o1)
    ensures DoneE(Assign(x, e), ls, T, o, Emit(o1, StoreVar(ls, T, x)))
  {
    hide Bytes, Emit;
    DoneThen(Assign(x, e), e, StoreVar(ls, T, x), ls, T, o, o1);
  }

  lemma {:induction false} UnaryParts(op: UnOp, e: Expr, ls: seq<string>, T: Tables, o: Output, o1: Output)
    requires UnName(op) in T.sigs && DoneE(e, ls, T, o, o1)
    ensures DoneE(Unary(op, e), ls, T, o, Emit(o1, CallOp(T, 0, UnName(op))))
  {
    hide Bytes, Emit;
    DoneThen(Unary(op, e), e, CallOp(T, 0, UnName(op)), ls, T, o, o1);
  }

  lemma {:induction false} GetterParts(name: string, e: Expr, ls: seq<string>, T: Tables, o: Output, o1: Output)
    requires name in T.sigs && DoneE(e, ls, T, o, o1)
    ensures DoneE(Getter(e, name), ls, T, o, Emit(o1, CallOp(T, 0, name)))
  {
    hide Bytes, Emit;
    DoneThen(Getter(e, name), e, CallOp(T, 0, name), ls, T, o, o1);
  }

  lemma {:induction false} InfixParts(op: BinOp, l: Expr, r: Expr, ls: seq<string>, T: Tables, o: Output, o1: Output,
                                      o2: Output)
    requires InfixSig(op) in T.sigs && DoneE(l, ls, T, o, o1) && DoneE(r, ls, T, o1, o2)
    ensures DoneE(Infix(op, l, r), ls, T, o, Emit(o2, CallOp(T, 1, InfixSig(op))))
  {
    hide Bytes, Emit, InfixSig, GenE, KnownE, DeltaE, PeakE;
    InfixCode(op, l, r, ls, T);
    InfixSlots(op, l, r);
    DoneCall2(Infix(op, l, r), l, r, CallOp(T, 1, InfixSig(op)), ls, T, o, o1, o2);
  }

  lemma {:induction false} SetterParts(name: string, l: Expr, r: Expr, ls: seq<string>, T: Tables, o: Output,
                                       o1: Output, o2: Output)
    requires SetterSig(name) in T.sigs && DoneE(l, ls, T, o, o1) && DoneE(r, ls, T, o1, o2)
    ensures DoneE(Setter(l, name, r), ls, T, o, Emit(o2, CallOp(T, 1, SetterSig(name))))
  {
    hide Bytes, Emit, SetterSig, GenE, KnownE, DeltaE, PeakE;
    SetterCode(name, l, r, ls, T);
    SetterSlots(name, l, r);
    DoneCall2(Setter(l, name, r), l, r, CallOp(T, 1, SetterSig(name)), ls, T, o, o1, o2);
  }

  lemma {:induction false} DoneLonger(e: Expr, ls: seq<string>, T: Tables, o: Output, o': Output)
    requires DoneE(e, ls, T, o, o')
    ensures |o.code| <= |o'.code|
  {
  }

  lemma {:induction false} DoneCall2(e: Expr, l: Expr, r: Expr, i: Instr, ls: seq<string>, T: Tables, o: Output,
                                     o1: Output, o2: Output)
    requires DoneE(l, ls, T, o, o1) && DoneE(r, ls, T, o1, o2) && KnownE(e, ls, T)
    requires GenE(e, ls, T) == GenE(l, ls, T) + GenE(r, ls, T) + [i] && StackEffect(i.op) == -1
    requires DeltaE(e) == DeltaE(l) + DeltaE(r) - 1 && PeakE(e) == Max(PeakE(l), DeltaE(l) + PeakE(r))
    ensures DoneE(e, ls, T, o, Emit(o2, i))
  {
    hide GenE, KnownE, Bytes, DeltaE, PeakE;
    AppendCode(o.code, GenE(l, ls, T), GenE(r, ls, T));
    AppendCode(o.code, GenE(l, ls, T) + GenE(r, ls, T), [i]);
  }

  /** Patching a placeholder right before the bytes `mid`. */
  lemma {:induction false} PatchBytes(before: seq<byte>, op: byte, mid: seq<byte>, o: Output)
    requires o.code == before + [op, 255, 255] + mid
    ensures |before| + 3 <= |o.code|
    ensures Patch(o, |before| + 1) == o.(code := before + ([op] + U16(|mid|)) + mid)
  {
    hide U16;
    var at := |before| + 1;
    assert o.code[..at] == before + [op];
    assert o.code[at + 2..] == mid;
    assert before + [op] + U16(|mid|) == before + ([op] + U16(|mid|));
  }

  /** Patching a placeholder right before the code `mid` makes it a jump over that code. */
  lemma {:induction false} PatchShape(before: seq<byte>, op: byte, mid: seq<Instr>, o: Output)
    requires o.code == before + [op, 255, 255] + Bytes(mid)
    ensures |before| + 3 <= |o.code|
    ensures Patch(o, |before| + 1) == o.(code := before + Bytes([ShortOp(op, Size(mid))]) + Bytes(mid))
  {
    hide Bytes, Size, U16, Patch;
    BytesOne(ShortOp(op, Size(mid)));
    PatchBytes(before, op, Bytes(mid), o);
  }

  lemma {:induction false} DoneLogic(e: Expr, l: Expr, r: Expr, op: byte, ls: seq<string>, T: Tables, o: Output,
                                     o1: Output, o2: Output)
    requires (e == And(l, r) && op == CODE_AND) || (e == Or(l, r) && op == CODE_OR)
    requires DoneE(l, ls, T, o, o1) && DoneE(r, ls, T, EmitHole(o1, op), o2)
    ensures |o1.code| + 3 <= |o2.code| && DoneE(e, ls, T, o, Patch(o2, |o1.code| + 1))
  {
    hide Bytes, Size, ShortOp, GenE, KnownE, DeltaE, PeakE;
    var lc, rc := GenE(l, ls, T), GenE(r, ls, T);
    var i := ShortOp(op, Size(rc));
    PatchShape(o1.code, op, rc, o2);
    AppendCode(o.code, lc, [i]);
    AppendCode(o.code, lc + [i], rc);
    if e.And? {
      AndCode(l, r, ls, T);
      AndSlots(l, r);
    } else {
      OrCode(l, r, ls, T);
      OrSlots(l, r);
    }
  }

  /** `?:` with both its jumps filled in: `o1` after the condition, `o2` after the first branch,
      `o3` after the second, which starts once the first jump has been patched. */
  lemma {:induction false} DoneCond(c: Expr, t: Expr, f: Expr, ls: seq<string>, T: Tables, o: Output, o1: Output,
                                    o2: Output, o3: Output)
    requires DoneE(c, ls, T, o, o1) && DoneE(t, ls, T, EmitHole(o1, CODE_JUMP_IF), o2)
    requires var jumped := EmitHole(o2, CODE_JUMP);
             && |o1.code| + 3 <= |jumped.code| && DoneE(f, ls, T, Patch(jumped, |o1.code| + 1), o3)
    ensures |o2.code| + 3 <= |o3.code|
    ensures DoneE(Cond(c, t, f), ls, T, o, Patch(o3, |o2.code| + 1))
  {
    hide Bytes, Size, ShortOp, KnownE, DeltaE, PeakE, GenE;
    var cc, tc, fc := GenE(c, ls, T), GenE(t, ls, T), GenE(f, ls, T);
    ForkShape(o.code, cc, tc, fc, o1, o2, o3);
    CondCode(c, t, f, ls, T);
    CondSlots(c, t, f);
  }

  /** The bytes of a two-way branch, emitted with placeholders and patched. */
  lemma {:induction false} ForkShape(before: seq<byte>, cc: seq<Instr>, tc: seq<Instr>, fc: seq<Instr>, o1: Output,
                                     o2: Output, o3: Output)
    requires o1.code == before + Bytes(cc)
    requires o2.code == EmitHole(o1, CODE_JUMP_IF).code + Bytes(tc)
    requires var jumped := EmitHole(o2, CODE_JUMP);
             |o1.code| + 3 <= |jumped.code| && o3.code == Patch(jumped, |o1.code| + 1).code + Bytes(fc)
    ensures |o2.code| + 3 <= |o3.code|
    ensures Patch(o3, |o2.code| + 1) == o3.(code := before + Bytes(cc + Fork(tc, fc)))
  {
    hide Bytes, Size, ShortOp;
    var test, jump := ShortOp(CODE_JUMP_IF, Size(tc) + 3), ShortOp(CODE_JUMP, Size(fc));
    HolePatched(o1.code, CODE_JUMP_IF, tc, CODE_JUMP, EmitHole(o2, CODE_JUMP));
    var mid := o1.code + Bytes([test]) + Bytes(tc);
    assert o3.code == mid + [CODE_JUMP, 255, 255] + Bytes(fc);
    ShortSize(CODE_JUMP_IF, Size(tc) + 3);
    assert |mid| == |o2.code|;
    PatchShape(mid, CODE_JUMP, fc, o3);
    AppendCode(before, cc, [test]);
    AppendCode(before, cc + [test], tc);
    AppendCode(before, cc + [test] + tc, [jump]);
    AppendCode(before, cc + [test] + tc + [jump], fc);
    assert cc + [test] + tc + [jump] + fc == cc + Fork(tc, fc);
  }

  /** Patching a jump over `mid` and over the placeholder of another jump after it. */
  lemma {:induction false} HolePatched(before: seq<byte>, op: byte, mid: seq<Instr>, op2: byte, o: Output)
    requires o.code == before + [op, 255, 255] + Bytes(mid) + [op2, 255, 255]
    ensures |before| + 3 <= |o.code|
    ensures Patch(o, |before| + 1).code == before + Bytes([ShortOp(op, Size(mid) + 3)]) + Bytes(mid) + [op2, 255, 255]
  {
    hide Bytes, Size, U16, Patch;
    BytesOne(ShortOp(op, Size(mid) + 3));
    assert o.code == before + [op, 255, 255] + (Bytes(mid) + [op2, 255, 255]);
    PatchBytes(before, op, Bytes(mid) + [op2, 255, 255], o);
    var head := before + ([op] + U16(Size(mid) + 3));
    assert head + (Bytes(mid) + [op2, 255, 255]) == head + Bytes(mid) + [op2, 255, 255];
  }

  lemma {:induction false} HoleFacts(o: Output, op: byte)
    requires StackEffect(op) <= 0
    ensures var o' := EmitHole(o, op);
            |o'.code| == |o.code| + 3 && o'.slots == o.slots + StackEffect(op) && o'.peak == Max(o.peak, o'.slots)
  {
  }

  lemma {:induction false} PatchFacts(o: Output, at: nat)
    requires at + 2 <= |o.code|
    ensures var o' := Patch(o, at); |o'.code| == |o.code| && o'.slots == o.slots && o'.peak == o.peak
  {
  }

  lemma {:induction false} SlotsWithin(e: Expr, ls: seq<string>, T: Tables, o: Output, o': Output)
    requires DoneE(e, ls, T, o, o')
    ensures o'.slots <= o'.peak
  {
  }
}

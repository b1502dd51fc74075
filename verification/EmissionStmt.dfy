/** How the emissions of statements are made up, `break`s still being placeholders. */
module EmissionStmt {
  import opened Basics
  import opened Wrappers
  import opened Syntax
  import opened Bytecode
  import opened Octets
  import opened CodeGen
  import opened CodeGenLaws
  import opened Emission

  /** From `o` to `o'`, the code of the statement `s` was appended. */
  ghost predicate DoneS(s: Stmt, ls: seq<string>, T: Tables, base: nat, inLoop: bool, o: Output, o': Output) {
    && KnownS(s, ls, T, inLoop)
    && o'.code == o.code + Bytes(GenS(s, ls, T, base, Pending))
    && o'.slots == o.slots + DeltaS(s)
    && o'.peak == Max(o.peak, o.slots + PeakS(s))
  }

  /** From `o` to `o'`, the code of the definitions `b` was appended. */
  ghost predicate DoneB(b: Body, ls: seq<string>, T: Tables, base: nat, inLoop: bool, o: Output, o': Output) {
    && KnownB(b, ls, T, inLoop)
    && o'.code == o.code + Bytes(GenB(b, ls, T, base, Pending))
    && o'.slots == o.slots + DeltaB(b)
    && o'.peak == Max(o.peak, o.slots + PeakB(b))
  }

  lemma {:induction false} DoneStableS(s: Stmt, ls: seq<string>, T: Tables, T': Tables, base: nat, inLoop: bool,
                                       o: Output, o': Output)
    requires Grows(T, T') && DoneS(s, ls, T, base, inLoop, o, o')
    ensures DoneS(s, ls, T', base, inLoop, o, o')
  {
    hide GenS, KnownS, Bytes, DeltaS, PeakS;
    StableS(s, ls, T, T', base, Pending, inLoop);
  }

  lemma {:induction false} DoneStableB(b: Body, ls: seq<string>, T: Tables, T': Tables, base: nat, inLoop: bool,
                                       o: Output, o': Output)
    requires Grows(T, T') && DoneB(b, ls, T, base, inLoop, o, o')
    ensures DoneB(b, ls, T', base, inLoop, o, o')
  {
    hide GenB, KnownB, Bytes, DeltaB, PeakB;
    StableB(b, ls, T, T', base, Pending, inLoop);
  }

  /** An expression whose value is thrown away. */
  lemma {:induction false} ExprSParts(e: Expr, ls: seq<string>, T: Tables, base: nat, inLoop: bool, o: Output,
                                      o1: Output)
    requires DoneE(e, ls, T, o, o1)
    ensures DoneS(ExprS(e), ls, T, base, inLoop, o, Emit(o1, Op(CODE_POP)))
  {
    hide GenE, KnownE, Bytes, DeltaE, PeakE;
    AppendCode(o.code, GenE(e, ls, T), [Op(CODE_POP)]);
  }

  lemma {:induction false} ReturnParts(e: Expr, ls: seq<string>, T: Tables, base: nat, inLoop: bool, o: Output,
                                       o1: Output)
    requires DoneE(e, ls, T, o, o1)
    ensures DoneS(Return(e), ls, T, base, inLoop, o, Emit(o1, Op(CODE_RETURN)))
  {
    hide GenE, KnownE, Bytes, DeltaE, PeakE;
    AppendCode(o.code, GenE(e, ls, T), [Op(CODE_RETURN)]);
  }

  /** A `break`: the pops are not accounted for, since the variables stay in scope after it. */
  lemma {:induction false} BreakParts(ls: seq<string>, T: Tables, base: nat, o: Output)
    requires base <= |ls|
    ensures DoneS(Break, ls, T, base, true, o,
                  Output(o.code + Bytes(Pops(|ls| - base)) + [CODE_END, 255, 255], o.slots, Max(o.peak, o.slots)))
  {
    hide Bytes;
    BytesOne(PENDING_BREAK);
    AppendCode(o.code, Pops(|ls| - base), [PENDING_BREAK]);
  }

  /** One branch: `o1` after the condition, `o2` after the branch. */
  lemma {:induction false} IfThenParts(c: Expr, t: Stmt, ls: seq<string>, T: Tables, base: nat, inLoop: bool,
                                       o: Output, o1: Output, o2: Output)
    requires DoneE(c, ls, T, o, o1) && DoneS(t, ls, T, base, inLoop, EmitHole(o1, CODE_JUMP_IF), o2)
    ensures |o1.code| + 3 <= |o2.code|
    ensures DoneS(IfThen(c, t), ls, T, base, inLoop, o, Patch(o2, |o1.code| + 1))
  {
    hide GenE, KnownE, Bytes, DeltaE, PeakE, Size, ShortOp;
    var cc, tc := GenE(c, ls, T), GenS(t, ls, T, base, Pending);
    var test := ShortOp(CODE_JUMP_IF, Size(tc));
    PatchShape(o1.code, CODE_JUMP_IF, tc, o2);
    AppendCode(o.code, cc, [test]);
    AppendCode(o.code, cc + [test], tc);
  }

  /** Two branches: `o2` after the first one, `o3` after the second, which starts once the first
      jump has been patched. */
  lemma {:induction false} IfElseParts(c: Expr, t: Stmt, f: Stmt, ls: seq<string>, T: Tables, base: nat, inLoop: bool,
                    o: Output, o1: Output, o2: Output, o3: Output)
    requires DoneE(c, ls, T, o, o1) && DoneS(t, ls, T, base, inLoop, EmitHole(o1, CODE_JUMP_IF), o2)
    requires var jumped := EmitHole(o2, CODE_JUMP);
             && |o1.code| + 3 <= |jumped.code| && DoneS(f, ls, T, base, inLoop, Patch(jumped, |o1.code| + 1), o3)
    ensures |o2.code| + 3 <= |o3.code|
    ensures DoneS(IfElse(c, t, f), ls, T, base, inLoop, o, Patch(o3, |o2.code| + 1))
  {
    hide GenE, KnownE, Bytes, DeltaE, PeakE, Size, ShortOp, GenS, KnownS, DeltaS, PeakS;
    var cc, tc, fc := GenE(c, ls, T), GenS(t, ls, T, base, Pending), GenS(f, ls, T, base, Pending);
    ForkShape(o.code, cc, tc, fc, o1, o2, o3);
    IfElseShape(c, t, f, ls, T, base, inLoop);
  }

  lemma {:induction false} IfElseShape(c: Expr, t: Stmt, f: Stmt, ls: seq<string>, T: Tables, base: nat, inLoop: bool)
    ensures var s := IfElse(c, t, f);
            && (KnownS(s, ls, T, inLoop) <==> KnownE(c, ls, T) && KnownS(t, ls, T, inLoop) && KnownS(f, ls, T, inLoop))
            && GenS(s, ls, T, base, Pending)
               == GenE(c, ls, T) + Fork(GenS(t, ls, T, base, Pending), GenS(f, ls, T, base, Pending))
            && DeltaS(s) == DeltaE(c) - 1 + DeltaS(t) + DeltaS(f)
            && PeakS(s) == Max(PeakE(c), Max(DeltaE(c) - 1 + PeakS(t), DeltaE(c) - 1 + DeltaS(t) + PeakS(f)))
  {
    hide GenE, KnownE, DeltaE, PeakE, Fork, Size;
  }

  /** The code of a finished loop, given that of its test and the instructions after it. */
  lemma {:induction false} LoopShape(before: seq<byte>, cc: seq<Instr>, bind: seq<Instr>, bc: seq<Instr>)
    ensures before + Bytes(cc) + Bytes([ShortOp(CODE_JUMP_IF, Size(bind) + Size(bc) + 3)]) + Bytes(bind) + Bytes(bc)
            + Bytes([ShortOp(CODE_LOOP, Size(cc) + 3 + Size(bind) + Size(bc) + 3)])
            == before + Bytes(cc + LoopTail(Size(cc), bind, bc))
  {
    hide Bytes, Size, ShortOp;
    BytesAppend(bind, bc);
    var test, loop := ShortOp(CODE_JUMP_IF, Size(bind + bc) + 3),
        ShortOp(CODE_LOOP, Size(cc) + 3 + Size(bind + bc) + 3);
    AppendCode(before, cc, [test]);
    AppendCode(before, cc + [test], bind);
    AppendCode(before, cc + [test] + bind, bc);
    AppendCode(before, cc + [test] + bind + bc, [loop]);
    assert cc + [test] + bind + bc + [loop] == cc + LoopTail(Size(cc), bind, bc);
  }

  /** `while`: `o1` after the condition, `o2` after the body, whose breaks are then patched. */
  lemma {:induction false} WhileParts(c: Expr, body: Stmt, ls: seq<string>, T: Tables, base: nat, inLoop: bool,
                                      o: Output, o1: Output, o2: Output)
    requires DoneE(c, ls, T, o, o1) && DoneS(body, ls, T, |ls|, true, EmitHole(o1, CODE_JUMP_IF), o2)
    ensures var bc := PatchBreaks(GenS(body, ls, T, |ls|, Pending), 3);
            var head := |o1.code| - |o.code|;
            head >= 0 && DoneS(While(c, body), ls, T, base, inLoop, o,
              Output(o1.code + Bytes([ShortOp(CODE_JUMP_IF, Size(bc) + 3)]) + Bytes(bc)
                     + Bytes([ShortOp(CODE_LOOP, head + 3 + Size(bc) + 3)]), o2.slots, Max(o2.peak, o2.slots)))
  {
    hide GenE, KnownE, Bytes, DeltaE, PeakE, Size, ShortOp, LoopTail, GenS, KnownS, DeltaS, PeakS, PatchBreaks;
    PatchS(body, ls, T, |ls|, 3);
    var cc, bc := GenE(c, ls, T), GenS(body, ls, T, |ls|, To(3));
    LoopShape(o.code, cc, [], bc);
    SizeNothing();
    BytesNothing(o1.code + Bytes([ShortOp(CODE_JUMP_IF, Size(bc) + 3)]));
    WhileShape(c, body, ls, T, base, inLoop);
  }

  lemma {:induction false} BytesNothing(before: seq<byte>)
    ensures before + Bytes([]) == before
  {
  }

  lemma {:induction false} WhileShape(c: Expr, body: Stmt, ls: seq<string>, T: Tables, base: nat, inLoop: bool)
    ensures var s := While(c, body);
            && (KnownS(s, ls, T, inLoop) <==> KnownE(c, ls, T) && KnownS(body, ls, T, true))
            && GenS(s, ls, T, base, Pending)
               == GenE(c, ls, T) + LoopTail(Size(GenE(c, ls, T)), [], GenS(body, ls, T, |ls|, To(3)))
            && DeltaS(s) == DeltaE(c) - 1 + DeltaS(body)
            && PeakS(s) == Max(PeakE(c), DeltaE(c) - 1 + PeakS(body))
  {
    hide GenE, KnownE, DeltaE, PeakE, LoopTail, Size;
  }

  // ----- Sequences of definitions -----------------------------------------------------------------

  lemma {:induction false} ChainAssoc(a: Body, b: Body, c: Body)
    ensures Chain(Chain(a, b), c) == Chain(a, Chain(b, c))
  {
    match a
    case Done =>
    case VarThen(_, _, rest) => ChainAssoc(rest, b, c);
    case StmtThen(_, rest) => ChainAssoc(rest, b, c);
  }

  lemma {:induction false} ChainDone(a: Body)
    ensures Chain(a, Done) == a
  {
    match a
    case Done =>
    case VarThen(_, _, rest) => ChainDone(rest);
    case StmtThen(_, rest) => ChainDone(rest);
  }

  lemma {:induction false} ChainCode(a: Body, b: Body, ls: seq<string>, T: Tables, base: nat, inLoop: bool)
    ensures Declared(Chain(a, b)) == Declared(a) + Declared(b)
    ensures KnownB(Chain(a, b), ls, T, inLoop) <==> KnownB(a, ls, T, inLoop) && KnownB(b, ls + Declared(a), T, inLoop)
    ensures GenB(Chain(a, b), ls, T, base, Pending)
            == GenB(a, ls, T, base, Pending) + GenB(b, ls + Declared(a), T, base, Pending)
  {
    hide GenE, KnownE, Size, GenS, KnownS;
    match a
    case Done =>
      assert ls + [] == ls;
    case VarThen(x, _, rest) =>
      ChainCode(rest, b, ls + [x], T, base, inLoop);
      assert ls + [x] + Declared(rest) == ls + ([x] + Declared(rest));
    case StmtThen(_, rest) =>
      ChainCode(rest, b, ls, T, base, inLoop);
  }

  lemma {:induction false} ChainSlots(a: Body, b: Body)
    ensures DeltaB(Chain(a, b)) == DeltaB(a) + DeltaB(b)
  {
    hide DeltaE, DeltaS, Declared;
    match a
    case Done =>
    case VarThen(_, _, rest) => ChainSlots(rest, b);
    case StmtThen(_, rest) => ChainSlots(rest, b);
  }

  lemma {:induction false} ChainPeak(a: Body, b: Body)
    ensures PeakB(Chain(a, b)) == Max(PeakB(a), DeltaB(a) + PeakB(b))
  {
    hide DeltaE, PeakE, DeltaS, PeakS, Declared;
    match a
    case Done => PeakPositive(b);
    case VarThen(_, _, rest) => ChainPeak(rest, b);
    case StmtThen(_, rest) => ChainPeak(rest, b);
  }

  lemma {:induction false} PeakPositive(b: Body)
    ensures PeakB(b) >= 0
  {
  }

  lemma {:induction false} PeakBounds(e: Expr, s: Stmt)
    ensures PeakE(e) >= DeltaE(e) && PeakS(s) >= DeltaS(s)
  {
  }

  lemma {:induction false} DoneChain(a: Body, b: Body, ls: seq<string>, T: Tables, base: nat, inLoop: bool, o: Output,
                                     o1: Output, o2: Output)
    requires DoneB(a, ls, T, base, inLoop, o, o1) && DoneB(b, ls + Declared(a), T, base, inLoop, o1, o2)
    ensures DoneB(Chain(a, b), ls, T, base, inLoop, o, o2)
  {
    hide GenB, KnownB, Bytes, DeltaB, PeakB;
    ChainCode(a, b, ls, T, base, inLoop);
    ChainSlots(a, b);
    ChainPeak(a, b);
    AppendCode(o.code, GenB(a, ls, T, base, Pending), GenB(b, ls + Declared(a), T, base, Pending));
  }

  lemma {:induction false} VarParts(x: string, e: Expr, ls: seq<string>, T: Tables, base: nat, inLoop: bool, o: Output,
                                    o': Output)
    requires DoneE(e, ls, T, o, o')
    ensures DoneB(VarThen(x, e, Done), ls, T, base, inLoop, o, o')
    ensures Declared(VarThen(x, e, Done)) == [x]
  {
    hide GenE, KnownE, DeltaE, PeakE, Bytes;
    PeakBounds(e, Break);
    assert KnownB(Done, ls + [x], T, inLoop) && DeltaB(Done) == 0 && PeakB(Done) == 0;
    assert GenB(VarThen(x, e, Done), ls, T, base, Pending) == GenE(e, ls, T);
  }

  lemma {:induction false} StmtParts(s: Stmt, ls: seq<string>, T: Tables, base: nat, inLoop: bool, o: Output,
                                     o': Output)
    requires DoneS(s, ls, T, base, inLoop, o, o')
    ensures DoneB(StmtThen(s, Done), ls, T, base, inLoop, o, o')
    ensures Declared(StmtThen(s, Done)) == []
  {
    hide GenS, KnownS, DeltaS, PeakS, Bytes, Size;
    PeakBounds(NullLit, s);
    assert KnownB(Done, ls, T, inLoop) && DeltaB(Done) == 0 && PeakB(Done) == 0;
    assert GenB(StmtThen(s, Done), ls, T, base, Pending) == GenS(s, ls, T, base, Pending);
  }

  lemma {:induction false} DoneEmpty(ls: seq<string>, T: Tables, base: nat, inLoop: bool, o: Output)
    requires o.peak >= o.slots
    ensures DoneB(Done, ls, T, base, inLoop, o, o)
  {
  }

  /** A block: its definitions, then a pop for each variable they declared. */
  lemma {:induction false} BlockParts(b: Body, ls: seq<string>, T: Tables, base: nat, inLoop: bool, o: Output,
                                      o1: Output)
    requires DoneB(b, ls, T, base, inLoop, o, o1)
    ensures var n := |Declared(b)|;
            DoneS(Block(b), ls, T, base, inLoop, o, Output(o1.code + Bytes(Pops(n)), o1.slots - n, o1.peak))
  {
    hide GenB, KnownB, DeltaB, PeakB, Bytes, Pops;
    AppendCode(o.code, GenB(b, ls, T, base, Pending), Pops(|Declared(b)|));
  }

  /** What the end of a loop expects of the code since its exit test. */
  lemma {:induction false} LoopReady(o1: Output, body: Stmt, ls: seq<string>, T: Tables, base: nat, o2: Output)
    requires DoneS(body, ls, T, base, true, EmitHole(o1, CODE_JUMP_IF), o2)
    ensures o2.code == o1.code + [CODE_JUMP_IF, 255, 255] + Bytes([]) + Bytes(GenS(body, ls, T, base, Pending))
    ensures Size([]) == 0
  {
    hide GenS, KnownS, DeltaS, PeakS;
    BytesNothing(o1.code + [CODE_JUMP_IF, 255, 255]);
  }

  lemma {:induction false} PatchedSize(ins: seq<Instr>, d: nat)
    requires Walkable(ins)
    ensures Size(PatchBreaks(ins, d)) == Size(ins)
  {
  }

  // ----- for loops -----------------------------------------------------------------------------------

  /** From `o` to `o'`, the finished loop of a `for` was appended; its hidden locals are in `ls`. */
  ghost predicate DoneFor(v: string, body: Stmt, ls: seq<string>, T: Tables, o: Output, o': Output) {
    && ITERATE in T.sigs && ITERATOR_VALUE in T.sigs && KnownS(body, ls + [v], T, true)
    && o'.code == o.code + Bytes(GenFor(v, body, ls, T))
    && o'.slots == o.slots + DeltaS(body)
    && o'.peak == Max(o.peak, o.slots + Max(2, 1 + PeakS(body)))
  }

  /** `o1` after the sequence expression. */
  lemma {:induction false} ForParts(v: string, e: Expr, body: Stmt, ls: seq<string>, T: Tables, base: nat, inLoop: bool,
                 o: Output, o1: Output, o2: Output)
    requires DoneE(e, ls, T, o, o1)
    requires DoneFor(v, body, ls + [SEQ_LOCAL, ITER_LOCAL], T, Emit(o1, Op(CODE_NULL)), o2)
    ensures DoneS(For(v, e, body), ls, T, base, inLoop, o, Output(o2.code + Bytes(Pops(2)), o2.slots - 2, o2.peak))
  {
    hide GenE, KnownE, DeltaE, PeakE, Bytes, GenFor, Pops, Size;
    var cc, fc := GenE(e, ls, T), GenFor(v, body, ls + [SEQ_LOCAL, ITER_LOCAL], T);
    AppendCode(o.code, cc, [Op(CODE_NULL)]);
    AppendCode(o.code, cc + [Op(CODE_NULL)], fc);
    AppendCode(o.code, cc + [Op(CODE_NULL)] + fc, Pops(2));
    ForSlots(v, e, body);
    assert ls + [SEQ_LOCAL, ITER_LOCAL] + [v] == (ls + [SEQ_LOCAL, ITER_LOCAL]) + [v];
  }

  lemma {:induction false} ForSlots(v: string, e: Expr, body: Stmt)
    ensures DeltaS(For(v, e, body)) == DeltaE(e) - 1 + DeltaS(body)
    ensures PeakS(For(v, e, body)) == Max(PeakE(e), DeltaE(e) + Max(3, 2 + PeakS(body)))
    ensures PeakE(e) >= DeltaE(e)
  {
    hide DeltaE;
    PeakBounds(e, Break);
  }

  lemma {:induction false} AdvanceStable(k: nat, T: Tables, T': Tables)
    requires Grows(T, T')
    ensures ITERATE in T.sigs ==> Advance(k, T) == Advance(k, T')
    ensures ITERATOR_VALUE in T.sigs ==> Current(k, T) == Current(k, T')
  {
    hide IndexOf;
    if ITERATE in T.sigs {
      StableSig(T, T', 1, ITERATE);
    }
    if ITERATOR_VALUE in T.sigs {
      StableSig(T, T', 1, ITERATOR_VALUE);
    }
  }

  /** Two loads and a call. */
  lemma {:induction false} EmitThree(o: Output, a: nat, b: nat, c: Instr)
    requires StackEffect(c.op) == -1
    ensures Emit(Emit(Emit(o, LoadLocal(a)), LoadLocal(b)), c)
            == Output(o.code + Bytes([LoadLocal(a), LoadLocal(b), c]), o.slots + 1, Max(o.peak, o.slots + 2))
  {
    hide Bytes;
    var x, y := LoadLocal(a), LoadLocal(b);
    AppendCode(o.code, [x], [y]);
    AppendCode(o.code, [x] + [y], [c]);
    assert [x] + [y] + [c] == [x, y, c];
  }

  lemma {:induction false} EmitAdvance(o: Output, k: nat, T: Tables)
    ensures var c := CallOp(T, 1, ITERATE);
            Emit(Output(o.code + Bytes([LoadLocal(k), LoadLocal(k + 1), c]), o.slots + 1, Max(o.peak, o.slots + 2)),
                 ByteOp(CODE_STORE_LOCAL, k + 1))
            == Output(o.code + Bytes(Advance(k, T)), o.slots + 1, Max(o.peak, o.slots + 2))
  {
    hide Bytes, LoadLocal;
    var three := [LoadLocal(k), LoadLocal(k + 1), CallOp(T, 1, ITERATE)];
    AppendCode(o.code, three, [ByteOp(CODE_STORE_LOCAL, k + 1)]);
    assert three + [ByteOp(CODE_STORE_LOCAL, k + 1)] == Advance(k, T);
  }

  /** The loop of a `for`: `o1` once the iterator is advanced, `o3` after the body, which starts once
      the current value is bound. */
  lemma {:induction false} ForLoopParts(v: string, body: Stmt, ls: seq<string>, T: Tables, o: Output, o1: Output,
                                        o2: Output, o3: Output)
    requires |ls| >= 2 && ITERATE in T.sigs && ITERATOR_VALUE in T.sigs
    requires var k := |ls| - 2;
             && o1 == Output(o.code + Bytes(Advance(k, T)), o.slots + 1, Max(o.peak, o.slots + 2))
             && var hole := EmitHole(o1, CODE_JUMP_IF);
                o2 == Output(hole.code + Bytes(Current(k, T)), o.slots + 1, Max(hole.peak, o.slots + 2))
    requires DoneS(body, ls + [v], T, |ls|, true, o2, o3)
    ensures var k := |ls| - 2;
            var bc := PatchBreaks(GenS(body, ls + [v], T, |ls|, Pending) + Pops(1), 3);
            var n := Size(Current(k, T)) + Size(bc);
            DoneFor(v, body, ls, T, o,
              Output(o1.code + Bytes([ShortOp(CODE_JUMP_IF, n + 3)]) + Bytes(Current(k, T)) + Bytes(bc)
                     + Bytes([ShortOp(CODE_LOOP, Size(Advance(k, T)) + 3 + n + 3)]), o3.slots - 1, Max(o3.peak,
                                                                                                       o3.slots - 1)))
  {
    hide Bytes, Size, ShortOp, LoopTail, GenS, KnownS, DeltaS, PeakS, PatchBreaks, Advance, Current, Pops;
    var k := |ls| - 2;
    var pending := GenS(body, ls + [v], T, |ls|, Pending);
    PatchAppend(pending, Pops(1), 3);
    PatchPops(1, 3);
    PopsSize(1);
    OnePop();
    PatchS(body, ls + [v], T, |ls|, 4);
    LoopShape(o.code, Advance(k, T), Current(k, T), PatchBreaks(pending + Pops(1), 3));
    PeakBounds(NullLit, body);
  }

  lemma {:induction false} OnePop()
    ensures Pops(1) == [Op(CODE_POP)]
  {
  }

  // ----- Functions -------------------------------------------------------------------------------------

  /** A function: its body, a null unless the body is an expression, the return and the end mark. */
  lemma {:induction false} FnParts(fb: FnBody, ls: seq<string>, T: Tables, o: Output, o1: Output)
    requires o.code == []
    requires if fb.ExprBody? then DoneE(fb.e, ls, T, o, o1) else DoneB(fb.b, ls, T, 0, false, o, o1)
    ensures var o2 := if fb.ExprBody? then o1 else Emit(o1, Op(CODE_NULL));
            var o3 := Emit(Emit(o2, Op(CODE_RETURN)), Op(CODE_END));
            && KnownFn(fb, ls, T) && o3.code == Bytes(GenFn(fb, ls, T)) && o3.peak == Max(o.peak, o.slots + PeakFn(fb))
  {
    hide DoneE, DoneB, GenE, KnownE, DeltaE, PeakE, Bytes, GenB, KnownB, DeltaB, PeakB, Emit;
    match fb
    case ExprBody(e) => ExprFnParts(e, ls, T, o, o1);
    case Defs(b) => DefsFnParts(b, ls, T, o, o1);
  }

  lemma {:induction false} ExprFnParts(e: Expr, ls: seq<string>, T: Tables, o: Output, o1: Output)
    requires o.code == [] && DoneE(e, ls, T, o, o1)
    ensures var o3 := Emit(Emit(o1, Op(CODE_RETURN)), Op(CODE_END));
            && KnownE(e, ls, T) && o3.code == Bytes(GenE(e, ls, T) + [Op(CODE_RETURN), Op(CODE_END)])
            && o3.peak == Max(o.peak, o.slots + PeakE(e))
  {
    hide GenE, KnownE, DeltaE, PeakE, Bytes;
    var body, ret, end := GenE(e, ls, T), [Op(CODE_RETURN)], [Op(CODE_END)];
    assert [] + Bytes(body) == Bytes(body);
    assert body + ret + end == body + [Op(CODE_RETURN), Op(CODE_END)];
    BytesAppend3(body, ret, end);
    PeakBounds(e, Break);
  }

  lemma {:induction false} DefsFnParts(b: Body, ls: seq<string>, T: Tables, o: Output, o1: Output)
    requires o.code == [] && DoneB(b, ls, T, 0, false, o, o1)
    ensures var o3 := Emit(Emit(Emit(o1, Op(CODE_NULL)), Op(CODE_RETURN)), Op(CODE_END));
            && KnownB(b, ls, T, false)
            && o3.code == Bytes(GenB(b, ls, T, 0, Pending) + [Op(CODE_NULL), Op(CODE_RETURN), Op(CODE_END)])
            && o3.peak == Max(o.peak, o.slots + Max(PeakB(b), DeltaB(b) + 1))
  {
    hide GenB, KnownB, DeltaB, PeakB, Bytes;
    var body, nil, ret, end := GenB(b, ls, T, 0, Pending), [Op(CODE_NULL)], [Op(CODE_RETURN)], [Op(CODE_END)];
    assert [] + Bytes(body) == Bytes(body);
    assert body + nil + ret + end == body + [Op(CODE_NULL), Op(CODE_RETURN), Op(CODE_END)];
    BytesAppend3(body, nil, ret);
    BytesAppend(body + nil + ret, end);
    PeakBoundsB(b);
  }

  lemma {:induction false} PeakBoundsB(b: Body)
    ensures PeakB(b) >= DeltaB(b)
  {
  }
}

/** Laws of the generated code: which programs have tables and operands that fit, that growing the
    tables does not change code already generated, and that patching the placeholders of `break`
    gives the code that knew the distance all along. */
module CodeGenLaws {
  import opened Basics
  import opened Wrappers
  import opened Syntax
  import opened Bytecode
  import opened Octets
  import opened CodeGen

  // ----- Known names, literals and signatures ----------------------------------------------------

  predicate KnownVar(ls: seq<string>, T: Tables, x: string) {
    x in ls || x in T.mods
  }

  /** Every name is a variable in scope, and the tables hold every literal and signature. */
  predicate KnownE(e: Expr, ls: seq<string>, T: Tables) {
    match e
    case NullLit => true
    case BoolLit(_) => true
    case Lit(v) => v in T.consts
    case Name(x) => KnownVar(ls, T, x)
    case Assign(x, e1) => KnownE(e1, ls, T) && KnownVar(ls, T, x)
    case Unary(op, e1) => KnownE(e1, ls, T) && UnName(op) in T.sigs
    case Infix(op, l, r) => KnownE(l, ls, T) && KnownE(r, ls, T) && InfixSig(op) in T.sigs
    case Getter(recv, name) => KnownE(recv, ls, T) && name in T.sigs
    case Setter(recv, name, e1) => KnownE(recv, ls, T) && KnownE(e1, ls, T) && SetterSig(name) in T.sigs
    case And(l, r) => KnownE(l, ls, T) && KnownE(r, ls, T)
    case Or(l, r) => KnownE(l, ls, T) && KnownE(r, ls, T)
    case Cond(c, t, f) => KnownE(c, ls, T) && KnownE(t, ls, T) && KnownE(f, ls, T)
  }

  /** As for expressions, and a `break` occurs only inside a loop. */
  predicate KnownS(s: Stmt, ls: seq<string>, T: Tables, inLoop: bool)
    decreases s
  {
    match s
    case ExprS(e) => KnownE(e, ls, T)
    case IfThen(c, t) => KnownE(c, ls, T) && KnownS(t, ls, T, inLoop)
    case IfElse(c, t, f) => KnownE(c, ls, T) && KnownS(t, ls, T, inLoop) && KnownS(f, ls, T, inLoop)
    case While(c, body) => KnownE(c, ls, T) && KnownS(body, ls, T, true)
    case For(v, e, body) =>
      KnownE(e, ls, T) && ITERATE in T.sigs && ITERATOR_VALUE in T.sigs &&
      KnownS(body, ls + [SEQ_LOCAL, ITER_LOCAL] + [v], T, true)
    case Break => inLoop
    case Return(e) => KnownE(e, ls, T)
    case Block(b) => KnownB(b, ls, T, inLoop)
  }

  predicate KnownB(b: Body, ls: seq<string>, T: Tables, inLoop: bool)
    decreases b
  {
    match b
    case Done => true
    case VarThen(v, init, rest) => KnownE(init, ls, T) && KnownB(rest, ls + [v], T, inLoop)
    case StmtThen(s, rest) => KnownS(s, ls, T, inLoop) && KnownB(rest, ls, T, inLoop)
  }

  predicate KnownFn(fb: FnBody, ls: seq<string>, T: Tables) {
    match fb
    case ExprBody(e) => KnownE(e, ls, T)
    case Defs(b) => KnownB(b, ls, T, false)
  }

  /** The most locals in scope at once while a statement is compiled from `n` of them on. */
  function LocalsS(s: Stmt, n: nat): (r: nat)
    ensures r >= n
    decreases s
  {
    match s
    case IfThen(_, t) => LocalsS(t, n)
    case IfElse(_, t, f) => Max(LocalsS(t, n), LocalsS(f, n))
    case While(_, body) => LocalsS(body, n)
    case For(_, _, body) => LocalsS(body, n + 3)
    case Block(b) => LocalsB(b, n)
    case _ => n
  }

  function LocalsB(b: Body, n: nat): (r: nat)
    ensures r >= n
    decreases b
  {
    match b
    case Done => n
    case VarThen(_, _, rest) => LocalsB(rest, n + 1)
    case StmtThen(s, rest) => Max(LocalsS(s, n), LocalsB(rest, n))
  }

  function LocalsFn(fb: FnBody, n: nat): nat {
    if fb.Defs? then LocalsB(fb.b, n) else n
  }

  predicate SmallTables(T: Tables) {
    |T.consts| <= 65536 && |T.sigs| <= 65536 && |T.mods| <= 65536
  }

  /** In code below 65536 bytes all operands of a known expression fit. */
  lemma {:induction false} KnownFitsE(e: Expr, ls: seq<string>, T: Tables)
    requires KnownE(e, ls, T) && |ls| <= 256 && SmallTables(T) && Size(GenE(e, ls, T)) < 65536
    ensures FitsE(e, ls, T)
    decreases e, 1
  {
    hide Size, IndexOf;
    match e
    case NullLit =>
    case BoolLit(_) =>
    case Lit(_) =>
    case Name(_) =>
    case Assign(x, e1) =>
      BytesAppend(GenE(e1, ls, T), [StoreVar(ls, T, x)]);
      KnownFitsE(e1, ls, T);
    case Unary(op, e1) =>
      BytesAppend(GenE(e1, ls, T), [CallOp(T, 0, UnName(op))]);
      KnownFitsE(e1, ls, T);
    case Getter(recv, name) =>
      BytesAppend(GenE(recv, ls, T), [CallOp(T, 0, name)]);
      KnownFitsE(recv, ls, T);
    case Infix(op, l, r) => KnownFits2(e, l, r, CallOp(T, 1, InfixSig(op)), ls, T);
    case Setter(recv, name, e1) => KnownFits2(e, recv, e1, CallOp(T, 1, SetterSig(name)), ls, T);
    case And(l, r) =>
      BytesAppend3(GenE(l, ls, T), [ShortOp(CODE_AND, Size(GenE(r, ls, T)))], GenE(r, ls, T));
      KnownFitsE(l, ls, T);
      KnownFitsE(r, ls, T);
    case Or(l, r) =>
      BytesAppend3(GenE(l, ls, T), [ShortOp(CODE_OR, Size(GenE(r, ls, T)))], GenE(r, ls, T));
      KnownFitsE(l, ls, T);
      KnownFitsE(r, ls, T);
    case Cond(c, t, f) =>
      ForkSize(GenE(c, ls, T), GenE(t, ls, T), GenE(f, ls, T));
      KnownFitsE(c, ls, T);
      KnownFitsE(t, ls, T);
      KnownFitsE(f, ls, T);
  }

  lemma {:induction false} KnownFits2(e: Expr, l: Expr, r: Expr, i: Instr, ls: seq<string>, T: Tables)
    requires l < e && r < e && KnownE(l, ls, T) && KnownE(r, ls, T) && |ls| <= 256 && SmallTables(T)
    requires Size(GenE(l, ls, T) + GenE(r, ls, T) + [i]) < 65536
    ensures FitsE(l, ls, T) && FitsE(r, ls, T)
    decreases e, 0
  {
    hide Size, GenE, KnownE, FitsE;
    BytesAppend3(GenE(l, ls, T), GenE(r, ls, T), [i]);
    KnownFitsE(l, ls, T);
    KnownFitsE(r, ls, T);
  }

  lemma {:induction false} ForkSize(cc: seq<Instr>, tc: seq<Instr>, fc: seq<Instr>)
    ensures Size(cc + Fork(tc, fc)) == Size(cc) + 3 + Size(tc) + 3 + Size(fc)
  {
    hide Size, ShortOp;
    var test, jump := ShortOp(CODE_JUMP_IF, Size(tc) + 3), ShortOp(CODE_JUMP, Size(fc));
    ShortSize(CODE_JUMP_IF, Size(tc) + 3);
    ShortSize(CODE_JUMP, Size(fc));
    BytesAppend(cc, Fork(tc, fc));
    BytesAppend3([test], tc, [jump] + fc);
    BytesAppend([jump], fc);
  }

  lemma {:induction false} ShortSize(op: byte, n: nat)
    ensures Size([ShortOp(op, n)]) == 3
  {
    BytesOne(ShortOp(op, n));
  }

  lemma {:induction false} LoopSize(cc: seq<Instr>, bind: seq<Instr>, bc: seq<Instr>)
    ensures Size(cc + LoopTail(Size(cc), bind, bc)) == Size(cc) + 3 + Size(bind) + Size(bc) + 3
  {
    hide Size, ShortOp;
    BytesAppend(bind, bc);
    var test, loop := ShortOp(CODE_JUMP_IF, Size(bind + bc) + 3),
        ShortOp(CODE_LOOP, Size(cc) + 3 + Size(bind + bc) + 3);
    ShortSize(CODE_JUMP_IF, Size(bind + bc) + 3);
    ShortSize(CODE_LOOP, Size(cc) + 3 + Size(bind + bc) + 3);
    BytesAppend(cc, LoopTail(Size(cc), bind, bc));
    BytesAppend3([test], bind + bc, [loop]);
  }

  lemma {:induction false} PopsSize(k: nat)
    ensures Size(Pops(k)) == k
  {
    if k > 0 {
      assert Pops(k)[1..] == Pops(k - 1);
      PopsSize(k - 1);
    }
  }

  function Reach(x: Exit): nat {
    if x.To? then x.distance else 0
  }

  /** The same for statements, whose `break`s jump at most as far as their loop's end. */
  lemma {:induction false} KnownFitsS(s: Stmt, ls: seq<string>, T: Tables, base: nat, x: Exit)
    requires KnownS(s, ls, T, x.To?) && base <= |ls| && LocalsS(s, |ls|) <= 256 && SmallTables(T)
    requires Size(GenS(s, ls, T, base, x)) + Reach(x) < 65536
    ensures FitsS(s, ls, T, base, x)
    decreases s, 1
  {
    hide Size, KnownE, FitsE, GenE, Fork, LoopTail;
    match s
    case ExprS(e) =>
      BytesAppend(GenE(e, ls, T), [Op(CODE_POP)]);
      KnownFitsE(e, ls, T);
    case Return(e) =>
      BytesAppend(GenE(e, ls, T), [Op(CODE_RETURN)]);
      KnownFitsE(e, ls, T);
    case Break =>
    case IfThen(c, t) =>
      var tc := GenS(t, ls, T, base, x);
      BytesAppend3(GenE(c, ls, T), [ShortOp(CODE_JUMP_IF, Size(tc))], tc);
      KnownFitsE(c, ls, T);
      KnownFitsS(t, ls, T, base, x);
    case IfElse(c, t, f) =>
      var fc := GenS(f, ls, T, base, x);
      var y := Past(x, 3 + Size(fc));
      ForkSize(GenE(c, ls, T), GenS(t, ls, T, base, y), fc);
      KnownFitsE(c, ls, T);
      KnownFitsS(t, ls, T, base, y);
      KnownFitsS(f, ls, T, base, x);
    case While(c, body) =>
      SizeNothing();
      LoopSize(GenE(c, ls, T), [], GenS(body, ls, T, |ls|, To(3)));
      KnownFitsE(c, ls, T);
      KnownFitsS(body, ls, T, |ls|, To(3));
    case For(v, e, body) => KnownFitsFor(s, v, e, body, ls, T, base, x);
    case Block(b) =>
      PopsSize(|Declared(b)|);
      BytesAppend(GenB(b, ls, T, base, Past(x, |Declared(b)|)), Pops(|Declared(b)|));
      KnownFitsB(b, ls, T, base, Past(x, |Declared(b)|));
  }

  lemma {:induction false} SizeNothing()
    ensures Size([]) == 0
  {
  }

  lemma {:induction false} KnownFitsFor(s: Stmt, v: string, e: Expr, body: Stmt, ls: seq<string>, T: Tables, base: nat,
                                        x: Exit)
    requires s == For(v, e, body) && KnownS(s, ls, T, x.To?) && LocalsS(s, |ls|) <= 256 && SmallTables(T)
    requires Size(GenS(s, ls, T, base, x)) < 65536
    ensures FitsS(s, ls, T, base, x)
    decreases s, 0
  {
    hide Size, KnownE, FitsE, GenE, LoopTail, Advance, Current;
    var inner := ls + [SEQ_LOCAL, ITER_LOCAL];
    BytesAppend(GenE(e, ls, T) + [Op(CODE_NULL)] + GenFor(v, body, inner, T), Pops(2));
    BytesAppend3(GenE(e, ls, T), [Op(CODE_NULL)], GenFor(v, body, inner, T));
    var bc := GenS(body, inner + [v], T, |inner|, To(4));
    LoopSize(Advance(|inner| - 2, T), Current(|inner| - 2, T), bc + [Op(CODE_POP)]);
    BytesAppend(bc, [Op(CODE_POP)]);
    BytesOne(Op(CODE_POP));
    KnownFitsE(e, ls, T);
    KnownFitsS(body, inner + [v], T, |inner|, To(4));
  }

  lemma {:induction false} KnownFitsB(b: Body, ls: seq<string>, T: Tables, base: nat, x: Exit)
    requires KnownB(b, ls, T, x.To?) && base <= |ls| && LocalsB(b, |ls|) <= 256 && SmallTables(T)
    requires Size(GenB(b, ls, T, base, x)) + Reach(x) < 65536
    ensures FitsB(b, ls, T, base, x)
    decreases b, 1
  {
    hide Size, KnownE, FitsE, GenE;
    match b
    case Done =>
    case VarThen(v, init, rest) =>
      BytesAppend(GenE(init, ls, T), GenB(rest, ls + [v], T, base, x));
      KnownFitsE(init, ls, T);
      KnownFitsB(rest, ls + [v], T, base, x);
    case StmtThen(s, rest) =>
      var after := GenB(rest, ls, T, base, x);
      BytesAppend(GenS(s, ls, T, base, Past(x, Size(after))), after);
      KnownFitsS(s, ls, T, base, Past(x, Size(after)));
      KnownFitsB(rest, ls, T, base, x);
  }

  // ----- Growing tables ---------------------------------------------------------------------------

  /** Tables only grow, and the constant table not past its limit. */
  predicate Grows(T: Tables, T': Tables) {
    T.consts <= T'.consts && T.sigs <= T'.sigs && T.mods <= T'.mods && |T'.consts| <= Max(|T.consts|, 65536)
  }

  lemma {:induction false} GrowsSelf(T: Tables)
    ensures Grows(T, T)
  {
  }

  lemma {:induction false} GrowsTrans(T: Tables, T': Tables, T'': Tables)
    requires Grows(T, T') && Grows(T', T'')
    ensures Grows(T, T'')
  {
  }

  lemma {:induction false} StableSig(T: Tables, T': Tables, numArgs: nat, sig: string)
    requires Grows(T, T') && sig in T.sigs && numArgs <= 16
    ensures sig in T'.sigs && CallOp(T, numArgs, sig) == CallOp(T', numArgs, sig)
  {
    IndexOfStable(T.sigs, T'.sigs, sig);
  }

  lemma {:induction false} StableConst(T: Tables, T': Tables, v: Value)
    requires Grows(T, T') && v in T.consts
    ensures v in T'.consts && IndexOf(T.consts, v) == IndexOf(T'.consts, v)
  {
    IndexOfStable(T.consts, T'.consts, v);
  }

  lemma {:induction false} StableVar(ls: seq<string>, T: Tables, T': Tables, x: string)
    requires Grows(T, T') && KnownVar(ls, T, x)
    ensures KnownVar(ls, T', x) && LoadVar(ls, T, x) == LoadVar(ls, T', x) && StoreVar(ls, T, x) == StoreVar(ls, T', x)
    ensures FindLast(ls, x).None? ==> IndexOf(T'.mods, x) == IndexOf(T.mods, x)
  {
    if FindLast(ls, x).None? {
      IndexOfStable(T.mods, T'.mods, x);
    }
  }

  /** Code generated against a table stays right when the table grows. */
  lemma {:induction false} StableE(e: Expr, ls: seq<string>, T: Tables, T': Tables)
    requires Grows(T, T') && KnownE(e, ls, T)
    ensures KnownE(e, ls, T') && GenE(e, ls, T) == GenE(e, ls, T')
  {
    hide IndexOf, Size, CallOp, Fork;
    match e
    case NullLit =>
    case BoolLit(_) =>
    case Lit(v) => StableConst(T, T', v);
    case Name(x) => StableVar(ls, T, T', x);
    case Assign(x, e1) => StableVar(ls, T, T', x); StableE(e1, ls, T, T');
    case Unary(op, e1) => StableE(e1, ls, T, T'); StableSig(T, T', 0, UnName(op));
    case Getter(recv, name) => StableE(recv, ls, T, T'); StableSig(T, T', 0, name);
    case Infix(op, l, r) => StableE(l, ls, T, T'); StableE(r, ls, T, T'); StableSig(T, T', 1, InfixSig(op));
    case Setter(recv, name, e1) => StableE(recv, ls, T, T'); StableE(e1, ls, T, T');
      StableSig(T, T', 1, SetterSig(name));
    case And(l, r) => StableE(l, ls, T, T'); StableE(r, ls, T, T');
    case Or(l, r) => StableE(l, ls, T, T'); StableE(r, ls, T, T');
    case Cond(c, t, f) => StableE(c, ls, T, T'); StableE(t, ls, T, T'); StableE(f, ls, T, T');
  }

  lemma {:induction false} StableS(s: Stmt, ls: seq<string>, T: Tables, T': Tables, base: nat, x: Exit, inLoop: bool)
    requires Grows(T, T') && KnownS(s, ls, T, inLoop)
    ensures KnownS(s, ls, T', inLoop) && GenS(s, ls, T, base, x) == GenS(s, ls, T', base, x)
    decreases s
  {
    hide Size, Fork, LoopTail, GenE, KnownE, IndexOf;
    match s
    case ExprS(e) => StableE(e, ls, T, T');
    case Return(e) => StableE(e, ls, T, T');
    case Break =>
    case IfThen(c, t) =>
      StableE(c, ls, T, T');
      StableS(t, ls, T, T', base, x, inLoop);
    case IfElse(c, t, f) =>
      StableE(c, ls, T, T');
      StableS(f, ls, T, T', base, x, inLoop);
      StableS(t, ls, T, T', base, Past(x, 3 + Size(GenS(f, ls, T, base, x))), inLoop);
    case While(c, body) =>
      StableE(c, ls, T, T');
      StableS(body, ls, T, T', |ls|, To(3), true);
    case For(v, e, body) =>
      var inner := ls + [SEQ_LOCAL, ITER_LOCAL];
      StableE(e, ls, T, T');
      StableSig(T, T', 1, ITERATE);
      StableSig(T, T', 1, ITERATOR_VALUE);
      StableS(body, inner + [v], T, T', |inner|, To(4), true);
    case Block(b) => StableB(b, ls, T, T', base, Past(x, |Declared(b)|), inLoop);
  }

  lemma {:induction false} StableB(b: Body, ls: seq<string>, T: Tables, T': Tables, base: nat, x: Exit, inLoop: bool)
    requires Grows(T, T') && KnownB(b, ls, T, inLoop)
    ensures KnownB(b, ls, T', inLoop) && GenB(b, ls, T, base, x) == GenB(b, ls, T', base, x)
    decreases b
  {
    hide Size, GenE, KnownE;
    match b
    case Done =>
    case VarThen(v, init, rest) =>
      StableE(init, ls, T, T');
      StableB(rest, ls + [v], T, T', base, x, inLoop);
    case StmtThen(s, rest) =>
      StableB(rest, ls, T, T', base, x, inLoop);
      StableS(s, ls, T, T', base, Past(x, Size(GenB(rest, ls, T, base, x))), inLoop);
  }

  // ----- Patching breaks --------------------------------------------------------------------------

  /** Instructions a bytecode walker can step over: operand counts are those of the opcode, and
      CODE_END stands only for a pending break. */
  predicate Walkable(ins: seq<Instr>) {
    forall i :: 0 <= i < |ins| ==>
      if ins[i].op == CODE_END then |ins[i].args| == 2 else |ins[i].args| == NumArguments(ins[i].op)
  }

  predicate NoEnd(ins: seq<Instr>) {
    forall i :: 0 <= i < |ins| ==> ins[i].op != CODE_END
  }

  /** Every pending break becomes a jump to the point `d` bytes past the end of the code. */
  function PatchBreaks(ins: seq<Instr>, d: nat): (r: seq<Instr>)
    ensures |r| == |ins|
    ensures Walkable(ins) ==> Size(r) == Size(ins) && Walkable(r) && NoEnd(r)
  {
    if ins == [] then []
    else
      [if ins[0].op == CODE_END then ShortOp(CODE_JUMP, Size(ins[1..]) + d) else ins[0]] + PatchBreaks(ins[1..], d)
  }

  lemma {:induction false} PatchAppend(a: seq<Instr>, b: seq<Instr>, d: nat)
    ensures PatchBreaks(a + b, d) == PatchBreaks(a, Size(b) + d) + PatchBreaks(b, d)
    decreases |a|
  {
    hide ShortOp, Walkable, NoEnd, Bytes, Size;
    if a == [] {
      assert a + b == b;
    } else {
      assert (a + b)[1..] == a[1..] + b;
      BytesAppend(a[1..], b);
      PatchAppend(a[1..], b, d);
    }
  }

  lemma {:induction false} PatchNothing(ins: seq<Instr>, d: nat)
    requires NoEnd(ins)
    ensures PatchBreaks(ins, d) == ins
    decreases |ins|
  {
    if ins != [] {
      PatchNothing(ins[1..], d);
    }
  }

  /** What patching does to the instruction at `k`. */
  lemma {:induction false} PatchAt(ins: seq<Instr>, d: nat, k: nat)
    requires k < |ins|
    ensures PatchBreaks(ins, d)[k]
            == if ins[k].op == CODE_END then ShortOp(CODE_JUMP, Size(ins[k + 1..]) + d) else ins[k]
    decreases k
  {
    if k > 0 {
      assert ins[1..][k - 1] == ins[k];
      assert ins[1..][k..] == ins[k + 1..];
      PatchAt(ins[1..], d, k - 1);
    }
  }

  /** Instructions that can be walked and hold no pending break. */
  predicate Plain(ins: seq<Instr>) {
    Walkable(ins) && NoEnd(ins)
  }

  lemma {:induction false} PlainAppend(a: seq<Instr>, b: seq<Instr>)
    ensures Walkable(a) && Walkable(b) ==> Walkable(a + b)
    ensures NoEnd(a) && NoEnd(b) ==> NoEnd(a + b)
  {
    hide NumArguments;
  }

  lemma {:induction false} PlainOne(i: Instr)
    requires i.op != CODE_END && |i.args| == NumArguments(i.op)
    ensures Plain([i])
  {
  }

  /** Expressions hold no pending breaks. */
  lemma {:induction false} WalkE(e: Expr, ls: seq<string>, T: Tables)
    ensures Plain(GenE(e, ls, T))
    decreases e, 1
  {
    hide IndexOf, Size, U16, Plain, Fork, FindLast;
    match e
    case NullLit => PlainOne(Op(CODE_NULL));
    case BoolLit(b) => PlainOne(Op(if b then CODE_TRUE else CODE_FALSE));
    case Lit(v) => PlainOne(ShortOp(CODE_CONSTANT, IndexOf(T.consts, v)));
    case Name(x) => PlainOne(LoadVar(ls, T, x));
    case Assign(x, e1) => WalkThen(e, e1, StoreVar(ls, T, x), ls, T);
    case Unary(op, e1) => WalkThen(e, e1, CallOp(T, 0, UnName(op)), ls, T);
    case Getter(recv, name) => WalkThen(e, recv, CallOp(T, 0, name), ls, T);
    case Infix(op, l, r) => WalkTwo(e, l, r, [], [CallOp(T, 1, InfixSig(op))], ls, T);
    case Setter(recv, name, e1) => WalkTwo(e, recv, e1, [], [CallOp(T, 1, SetterSig(name))], ls, T);
    case And(l, r) => WalkTwo(e, l, r, [ShortOp(CODE_AND, Size(GenE(r, ls, T)))], [], ls, T);
    case Or(l, r) => WalkTwo(e, l, r, [ShortOp(CODE_OR, Size(GenE(r, ls, T)))], [], ls, T);
    case Cond(c, t, f) =>
      WalkE(c, ls, T);
      WalkE(t, ls, T);
      WalkE(f, ls, T);
      PlainFork(GenE(c, ls, T), GenE(t, ls, T), GenE(f, ls, T));
  }

  lemma {:induction false} WalkThen(e: Expr, e1: Expr, i: Instr, ls: seq<string>, T: Tables)
    requires e1 < e && GenE(e, ls, T) == GenE(e1, ls, T) + [i]
    requires i.op != CODE_END && |i.args| == NumArguments(i.op)
    ensures Plain(GenE(e, ls, T))
    decreases e, 0
  {
    hide GenE, Walkable, NoEnd, NumArguments;
    WalkE(e1, ls, T);
    PlainOne(i);
    PlainAppend(GenE(e1, ls, T), [i]);
  }

  lemma {:induction false} WalkTwo(e: Expr, l: Expr, r: Expr, mid: seq<Instr>, last: seq<Instr>, ls: seq<string>,
                                   T: Tables)
    requires l < e && r < e && |mid| <= 1 && |last| <= 1
    requires GenE(e, ls, T) == GenE(l, ls, T) + mid + GenE(r, ls, T) + last
    requires forall i :: 0 <= i < |mid| ==> mid[i].op != CODE_END && |mid[i].args| == NumArguments(mid[i].op)
    requires forall i :: 0 <= i < |last| ==> last[i].op != CODE_END && |last[i].args| == NumArguments(last[i].op)
    ensures Plain(GenE(e, ls, T))
    decreases e, 0
  {
    hide GenE, NumArguments;
    WalkE(l, ls, T);
    WalkE(r, ls, T);
    var a, b := GenE(l, ls, T), GenE(r, ls, T);
    PlainAppend(a, mid);
    PlainAppend(a + mid, b);
    PlainAppend(a + mid + b, last);
  }

  lemma {:induction false} PlainFork(cc: seq<Instr>, tc: seq<Instr>, fc: seq<Instr>)
    requires Plain(cc) && Plain(tc) && Plain(fc)
    ensures Plain(cc + Fork(tc, fc))
  {
    hide Fork, Walkable, NoEnd;
    WalkFork(tc, fc);
    PlainAppend(cc, Fork(tc, fc));
  }

  lemma {:induction false} WalkFork(tc: seq<Instr>, fc: seq<Instr>)
    ensures Walkable(tc) && Walkable(fc) ==> Walkable(Fork(tc, fc))
    ensures NoEnd(tc) && NoEnd(fc) ==> NoEnd(Fork(tc, fc))
  {
    hide Size, U16;
  }

  lemma {:induction false} WalkLoop(cc: seq<Instr>, bind: seq<Instr>, bc: seq<Instr>)
    requires Walkable(cc) && Walkable(bind) && Walkable(bc) && NoEnd(cc) && NoEnd(bind) && NoEnd(bc)
    ensures Walkable(cc + LoopTail(Size(cc), bind, bc)) && NoEnd(cc + LoopTail(Size(cc), bind, bc))
  {
    hide Size, U16;
  }

  /** All emitted code can be walked, and a pending break is the only CODE_END in a body. */
  lemma {:induction false} WalkS(s: Stmt, ls: seq<string>, T: Tables, base: nat, x: Exit)
    ensures Walkable(GenS(s, ls, T, base, x))
    ensures x.To? ==> NoEnd(GenS(s, ls, T, base, x))
    decreases s, 0
  {
    hide Size, U16, GenE, Fork, LoopTail, IndexOf;
    match s
    case ExprS(e) => WalkE(e, ls, T);
    case Return(e) => WalkE(e, ls, T);
    case Break =>
    case IfThen(c, t) =>
      WalkE(c, ls, T);
      WalkS(t, ls, T, base, x);
    case IfElse(c, t, f) =>
      WalkE(c, ls, T);
      WalkS(f, ls, T, base, x);
      var y := Past(x, 3 + Size(GenS(f, ls, T, base, x)));
      WalkS(t, ls, T, base, y);
      WalkFork(GenS(t, ls, T, base, y), GenS(f, ls, T, base, x));
    case While(c, body) =>
      WalkE(c, ls, T);
      WalkS(body, ls, T, |ls|, To(3));
      WalkLoop(GenE(c, ls, T), [], GenS(body, ls, T, |ls|, To(3)));
    case For(v, e, body) =>
      WalkE(e, ls, T);
      WalkFor(v, body, ls + [SEQ_LOCAL, ITER_LOCAL], T);
    case Block(b) =>
      WalkB(b, ls, T, base, Past(x, |Declared(b)|));
  }

  lemma {:induction false} WalkFor(v: string, body: Stmt, ls: seq<string>, T: Tables)
    ensures Walkable(GenFor(v, body, ls, T)) && NoEnd(GenFor(v, body, ls, T))
    decreases body, 1
  {
    hide Size, U16, LoopTail, IndexOf, GenS;
    var k := if |ls| >= 2 then |ls| - 2 else 0;
    WalkS(body, ls + [v], T, |ls|, To(4));
    WalkLoop(Advance(k, T), Current(k, T), GenS(body, ls + [v], T, |ls|, To(4)) + [Op(CODE_POP)]);
  }

  lemma {:induction false} WalkB(b: Body, ls: seq<string>, T: Tables, base: nat, x: Exit)
    ensures Walkable(GenB(b, ls, T, base, x))
    ensures x.To? ==> NoEnd(GenB(b, ls, T, base, x))
    decreases b, 0
  {
    hide Size, GenE;
    match b
    case Done =>
    case VarThen(v, init, rest) =>
      WalkE(init, ls, T);
      WalkB(rest, ls + [v], T, base, x);
    case StmtThen(s, rest) =>
      WalkB(rest, ls, T, base, x);
      WalkS(s, ls, T, base, Past(x, Size(GenB(rest, ls, T, base, x))));
  }

  /** The single-pass way of doing it, emitting placeholders and rewriting them when the loop's end
      is known, gives the same code as knowing the distance beforehand. Inner loops keep their own
      breaks. */
  lemma {:induction false} PatchS(s: Stmt, ls: seq<string>, T: Tables, base: nat, d: nat)
    ensures PatchBreaks(GenS(s, ls, T, base, Pending), d) == GenS(s, ls, T, base, To(d))
    decreases s, 1
  {
    hide Size, U16, GenE, Fork, LoopTail, IndexOf, PatchBreaks, Walkable, NoEnd;
    WalkS(s, ls, T, base, Pending);
    WalkS(s, ls, T, base, To(d));
    match s
    case ExprS(e) => PatchNothing(GenS(s, ls, T, base, Pending), d);
    case Return(e) => PatchNothing(GenS(s, ls, T, base, Pending), d);
    case While(c, body) => PatchNothing(GenS(s, ls, T, base, Pending), d);
    case For(v, e, body) => PatchNothing(GenS(s, ls, T, base, Pending), d);
    case Break =>
      var k := if base <= |ls| then |ls| - base else 0;
      PatchPops(k, 3 + d);
      PatchAppend(Pops(k), [PENDING_BREAK], d);
      PatchOne(d);
    case IfThen(c, t) =>
      var tc := GenS(t, ls, T, base, Pending);
      WalkE(c, ls, T);
      PatchS(t, ls, T, base, d);
      WalkS(t, ls, T, base, Pending);
      PatchIfThen(GenE(c, ls, T), tc, d);
    case IfElse(c, t, f) =>
      var tc, fc := GenS(t, ls, T, base, Pending), GenS(f, ls, T, base, Pending);
      WalkE(c, ls, T);
      PatchS(f, ls, T, base, d);
      WalkS(f, ls, T, base, Pending);
      WalkS(t, ls, T, base, Pending);
      PatchS(t, ls, T, base, d + 3 + Size(fc));
      PatchFork(GenE(c, ls, T), tc, fc, d);
    case Block(b) =>
      var k := |Declared(b)|;
      PopsSize(k);
      PatchAppend(GenB(b, ls, T, base, Pending), Pops(k), d);
      PatchPops(k, d);
      PatchB(b, ls, T, base, d + k);
  }

  lemma {:induction false} PatchOne(d: nat)
    ensures PatchBreaks([PENDING_BREAK], d) == [ShortOp(CODE_JUMP, d)] && Size([PENDING_BREAK]) == 3
  {
    BytesOne(PENDING_BREAK);
    assert [PENDING_BREAK][1..] == [];
  }

  lemma {:induction false} PatchPops(k: nat, d: nat)
    ensures PatchBreaks(Pops(k), d) == Pops(k)
  {
    PatchNothing(Pops(k), d);
  }

  lemma {:induction false} PatchIfThen(cc: seq<Instr>, tc: seq<Instr>, d: nat)
    requires NoEnd(cc) && Walkable(tc)
    ensures var tc' := PatchBreaks(tc, d);
            PatchBreaks(cc + [ShortOp(CODE_JUMP_IF, Size(tc))] + tc, d) == cc + [ShortOp(CODE_JUMP_IF, Size(tc'))] + tc'
  {
    hide Size, U16, PatchBreaks;
    var head := cc + [ShortOp(CODE_JUMP_IF, Size(tc))];
    PatchAppend(head, tc, d);
    PatchNothing(head, Size(tc) + d);
  }

  lemma {:induction false} PatchFork(cc: seq<Instr>, tc: seq<Instr>, fc: seq<Instr>, d: nat)
    requires NoEnd(cc) && Walkable(tc) && Walkable(fc)
    ensures var tc' := PatchBreaks(tc, d + 3 + Size(fc));
            var fc' := PatchBreaks(fc, d);
            PatchBreaks(cc + Fork(tc, fc), d) == cc + Fork(tc', fc') && Size(fc') == Size(fc)
  {
    hide Size, U16, PatchBreaks;
    var test, jump := [ShortOp(CODE_JUMP_IF, Size(tc) + 3)], [ShortOp(CODE_JUMP, Size(fc))];
    ShortSize(CODE_JUMP, Size(fc));
    BytesAppend(jump, fc);
    PatchAppend(cc, Fork(tc, fc), d);
    PatchNothing(cc, Size(Fork(tc, fc)) + d);
    PatchAppend(test + tc, jump + fc, d);
    PatchAppend(test, tc, 3 + Size(fc) + d);
    PatchNothing(test, Size(tc) + (3 + Size(fc) + d));
    PatchAppend(jump, fc, d);
    PatchNothing(jump, Size(fc) + d);
  }

  lemma {:induction false} PatchB(b: Body, ls: seq<string>, T: Tables, base: nat, d: nat)
    ensures PatchBreaks(GenB(b, ls, T, base, Pending), d) == GenB(b, ls, T, base, To(d))
    decreases b, 1
  {
    hide Size, GenE, PatchBreaks, Walkable, NoEnd;
    match b
    case Done => PatchNothing([], d);
    case VarThen(v, init, rest) =>
      var after := GenB(rest, ls + [v], T, base, Pending);
      WalkE(init, ls, T);
      PatchAppend(GenE(init, ls, T), after, d);
      PatchNothing(GenE(init, ls, T), Size(after) + d);
      PatchB(rest, ls + [v], T, base, d);
    case StmtThen(s, rest) =>
      var after := GenB(rest, ls, T, base, Pending);
      WalkB(rest, ls, T, base, Pending);
      PatchAppend(GenS(s, ls, T, base, Pending), after, d);
      PatchB(rest, ls, T, base, d);
      PatchS(s, ls, T, base, d + Size(after));
  }
}

/** What the compiler emits, said without emission order: jump distances are computed from the
    code that is jumped over instead of being patched in afterwards, and a `break` knows how far
    its loop's end is. */
module CodeGen {
  import opened Basics
  import opened Wrappers
  import opened Syntax
  import opened Bytecode

  /** The tables the code refers to: constants of the function, method signatures of the virtual
      machine, variables of the module. */
  datatype Tables = Tables(consts: seq<Value>, sigs: seq<string>, mods: seq<string>)

  /** Where a `break` in this code goes: still a placeholder, or to the point that lies this many
      bytes past the end of this code. */
  datatype Exit = Pending | To(distance: nat)

  function Past(x: Exit, n: nat): Exit {
    if x.To? then To(x.distance + n) else Pending
  }

  function LoadLocal(slot: nat): Instr {
    if slot <= 8 then Op(CODE_LOAD_LOCAL_0 + slot) else ByteOp(CODE_LOAD_LOCAL, slot)
  }

  function LoadVar(ls: seq<string>, T: Tables, x: string): Instr {
    match FindLast(ls, x)
    case Some(i) => LoadLocal(i)
    case None => ShortOp(CODE_LOAD_MODULE_VAR, IndexOf(T.mods, x))
  }

  function StoreVar(ls: seq<string>, T: Tables, x: string): Instr {
    match FindLast(ls, x)
    case Some(i) => ByteOp(CODE_STORE_LOCAL, i)
    case None => ShortOp(CODE_STORE_MODULE_VAR, IndexOf(T.mods, x))
  }

  function CallOp(T: Tables, numArgs: nat, sig: string): Instr
    requires numArgs <= 16
  {
    ShortOp(CODE_CALL_0 + numArgs, IndexOf(T.sigs, sig))
  }

  function GenE(e: Expr, ls: seq<string>, T: Tables): seq<Instr> {
    match e
    case NullLit => [Op(CODE_NULL)]
    case BoolLit(b) => [Op(if b then CODE_TRUE else CODE_FALSE)]
    case Lit(v) => [ShortOp(CODE_CONSTANT, IndexOf(T.consts, v))]
    case Name(x) => [LoadVar(ls, T, x)]
    case Assign(x, e1) => GenE(e1, ls, T) + [StoreVar(ls, T, x)]
    case Unary(op, e1) => GenE(e1, ls, T) + [CallOp(T, 0, UnName(op))]
    case Infix(op, l, r) => GenE(l, ls, T) + GenE(r, ls, T) + [CallOp(T, 1, InfixSig(op))]
    case Getter(recv, name) => GenE(recv, ls, T) + [CallOp(T, 0, name)]
    case Setter(recv, name, e1) => GenE(recv, ls, T) + GenE(e1, ls, T) + [CallOp(T, 1, SetterSig(name))]
    case And(l, r) => GenE(l, ls, T) + [ShortOp(CODE_AND, Size(GenE(r, ls, T)))] + GenE(r, ls, T)
    case Or(l, r) => GenE(l, ls, T) + [ShortOp(CODE_OR, Size(GenE(r, ls, T)))] + GenE(r, ls, T)
    case Cond(c, t, f) =>
      GenE(c, ls, T) + Fork(GenE(t, ls, T), GenE(f, ls, T))
  }

  /** Two branches, the first one taken when the condition on the stack holds. */
  function Fork(t: seq<Instr>, f: seq<Instr>): seq<Instr> {
    [ShortOp(CODE_JUMP_IF, Size(t) + 3)] + t + ([ShortOp(CODE_JUMP, Size(f))] + f)
  }

  function Pops(n: nat): (r: seq<Instr>)
    ensures |r| == n
  {
    seq(n, i => Op(CODE_POP))
  }

  function BreakOp(x: Exit): Instr {
    if x.To? then ShortOp(CODE_JUMP, x.distance) else PENDING_BREAK
  }

  /** The tail of a loop: its exit test, its body, what is popped after each turn, and the jump
      back over all of it and the `head` bytes before it. */
  function LoopTail(head: nat, bind: seq<Instr>, body: seq<Instr>): seq<Instr> {
    [ShortOp(CODE_JUMP_IF, Size(bind + body) + 3)] + (bind + body) + [ShortOp(CODE_LOOP,
                                                                              head + 3 + Size(bind + body) + 3)]
  }

  /** `base` is the number of locals a `break` keeps. */
  function GenS(s: Stmt, ls: seq<string>, T: Tables, base: nat, x: Exit): seq<Instr>
    decreases s, 0
  {
    match s
    case ExprS(e) => GenE(e, ls, T) + [Op(CODE_POP)]
    case IfThen(c, t) =>
      var thenCode := GenS(t, ls, T, base, x);
      GenE(c, ls, T) + [ShortOp(CODE_JUMP_IF, Size(thenCode))] + thenCode
    case IfElse(c, t, f) =>
      var elseCode := GenS(f, ls, T, base, x);
      GenE(c, ls, T) + Fork(GenS(t, ls, T, base, Past(x, 3 + Size(elseCode))), elseCode)
    case While(c, body) =>
      var cond := GenE(c, ls, T);
      cond + LoopTail(Size(cond), [], GenS(body, ls, T, |ls|, To(3)))
    case For(v, e, body) =>
      GenE(e, ls, T) + [Op(CODE_NULL)] + GenFor(v, body, ls + [SEQ_LOCAL, ITER_LOCAL], T) + Pops(2)
    case Break => Pops(if base <= |ls| then |ls| - base else 0) + [BreakOp(x)]
    case Return(e) => GenE(e, ls, T) + [Op(CODE_RETURN)]
    case Block(b) => GenB(b, ls, T, base, Past(x, |Declared(b)|)) + Pops(|Declared(b)|)
  }

  /** The loop of a `for`, whose two hidden locals are the last of `ls`. */
  function GenFor(v: string, body: Stmt, ls: seq<string>, T: Tables): seq<Instr>
    decreases body, 1
  {
    var k := if |ls| >= 2 then |ls| - 2 else 0;
    Advance(k, T) + LoopTail(Size(Advance(k, T)), Current(k, T), GenS(body, ls + [v], T, |ls|, To(4)) + [Op(CODE_POP)])
  }

  /** iter = seq.iterate(iter) */
  function Advance(k: nat, T: Tables): seq<Instr> {
    [LoadLocal(k), LoadLocal(k + 1), CallOp(T, 1, ITERATE), ByteOp(CODE_STORE_LOCAL, k + 1)]
  }

  /** seq.iteratorValue(iter) */
  function Current(k: nat, T: Tables): seq<Instr> {
    [LoadLocal(k), LoadLocal(k + 1), CallOp(T, 1, ITERATOR_VALUE)]
  }

  function GenB(b: Body, ls: seq<string>, T: Tables, base: nat, x: Exit): seq<Instr>
    decreases b
  {
    match b
    case Done => []
    case VarThen(v, init, rest) => GenE(init, ls, T) + GenB(rest, ls + [v], T, base, x)
    case StmtThen(s, rest) =>
      var after := GenB(rest, ls, T, base, x);
      GenS(s, ls, T, base, Past(x, Size(after))) + after
  }

  /** A whole function. A body of definitions returns null when it falls off its end. */
  function GenFn(fb: FnBody, ls: seq<string>, T: Tables): seq<Instr> {
    match fb
    case ExprBody(e) => GenE(e, ls, T) + [Op(CODE_RETURN), Op(CODE_END)]
    case Defs(b) => GenB(b, ls, T, 0, Pending) + [Op(CODE_NULL), Op(CODE_RETURN), Op(CODE_END)]
  }

  // ----- Which code means what it should ---------------------------------------------------------

  predicate SlotOk(ls: seq<string>, T: Tables, x: string) {
    match FindLast(ls, x)
    case Some(i) => i < 256
    case None => x in T.mods && IndexOf(T.mods, x) < 65536
  }

  predicate SigOk(T: Tables, sig: string) {
    sig in T.sigs && IndexOf(T.sigs, sig) < 65536
  }

  /** All operands of this expression's code fit: names and literals are in their tables, and no
      jump spans 65536 bytes. */
  predicate FitsE(e: Expr, ls: seq<string>, T: Tables) {
    match e
    case NullLit => true
    case BoolLit(_) => true
    case Lit(v) => v in T.consts && IndexOf(T.consts, v) < 65536
    case Name(x) => SlotOk(ls, T, x)
    case Assign(x, e1) => FitsE(e1, ls, T) && SlotOk(ls, T, x)
    case Unary(op, e1) => FitsE(e1, ls, T) && SigOk(T, UnName(op))
    case Infix(op, l, r) => FitsE(l, ls, T) && FitsE(r, ls, T) && SigOk(T, InfixSig(op))
    case Getter(recv, name) => FitsE(recv, ls, T) && SigOk(T, name)
    case Setter(recv, name, e1) => FitsE(recv, ls, T) && FitsE(e1, ls, T) && SigOk(T, SetterSig(name))
    case And(l, r) => FitsE(l, ls, T) && FitsE(r, ls, T) && Size(GenE(r, ls, T)) < 65536
    case Or(l, r) => FitsE(l, ls, T) && FitsE(r, ls, T) && Size(GenE(r, ls, T)) < 65536
    case Cond(c, t, f) =>
      FitsE(c, ls, T) && FitsE(t, ls, T) && FitsE(f, ls, T) &&
      Size(GenE(t, ls, T)) + 3 < 65536 && Size(GenE(f, ls, T)) < 65536
  }

  predicate FitsS(s: Stmt, ls: seq<string>, T: Tables, base: nat, x: Exit)
    decreases s
  {
    match s
    case ExprS(e) => FitsE(e, ls, T)
    case IfThen(c, t) =>
      FitsE(c, ls, T) && FitsS(t, ls, T, base, x) && Size(GenS(t, ls, T, base, x)) < 65536
    case IfElse(c, t, f) =>
      var elseCode := GenS(f, ls, T, base, x);
      var y := Past(x, 3 + Size(elseCode));
      FitsE(c, ls, T) && FitsS(t, ls, T, base, y) && FitsS(f, ls, T, base, x) &&
      Size(GenS(t, ls, T, base, y)) + 3 < 65536 && Size(elseCode) < 65536
    case While(c, body) =>
      FitsE(c, ls, T) && FitsS(body, ls, T, |ls|, To(3)) &&
      Size(GenE(c, ls, T)) + Size(GenS(body, ls, T, |ls|, To(3))) + 6 < 65536
    case For(v, e, body) =>
      var inner := ls + [SEQ_LOCAL, ITER_LOCAL];
      FitsE(e, ls, T) && |ls| + 2 <= 256 && FitsS(body, inner + [v], T, |inner|, To(4)) &&
      SigOk(T, ITERATE) && SigOk(T, ITERATOR_VALUE) &&
      Size(GenFor(v, body, inner, T)) < 65536
    case Break => x.To? && x.distance < 65536 && base <= |ls|
    case Return(e) => FitsE(e, ls, T)
    case Block(b) => FitsB(b, ls, T, base, Past(x, |Declared(b)|))
  }

  predicate FitsB(b: Body, ls: seq<string>, T: Tables, base: nat, x: Exit)
    decreases b
  {
    match b
    case Done => true
    case VarThen(v, init, rest) => FitsE(init, ls, T) && FitsB(rest, ls + [v], T, base, x)
    case StmtThen(s, rest) =>
      FitsS(s, ls, T, base, Past(x, Size(GenB(rest, ls, T, base, x)))) && FitsB(rest, ls, T, base, x)
  }

  // ----- Stack depth -----------------------------------------------------------------------------

  /** How much the compiler's slot counter grows over an expression. It counts both branches of
      `?:`, so it may exceed the one slot an expression really takes. */
  function DeltaE(e: Expr): (d: int)
    ensures d >= 1
  {
    match e
    case NullLit => 1
    case BoolLit(_) => 1
    case Lit(_) => 1
    case Name(_) => 1
    case Assign(_, e1) => DeltaE(e1)
    case Unary(_, e1) => DeltaE(e1)
    case Infix(_, l, r) => DeltaE(l) + DeltaE(r) - 1
    case Getter(recv, _) => DeltaE(recv)
    case Setter(recv, _, e1) => DeltaE(recv) + DeltaE(e1) - 1
    case And(l, r) => DeltaE(l) - 1 + DeltaE(r)
    case Or(l, r) => DeltaE(l) - 1 + DeltaE(r)
    case Cond(c, t, f) => DeltaE(c) - 1 + DeltaE(t) + DeltaE(f)
  }

  /** The highest the counter gets inside an expression, relative to its start. */
  function PeakE(e: Expr): (p: int)
    ensures p >= DeltaE(e)
  {
    match e
    case NullLit => 1
    case BoolLit(_) => 1
    case Lit(_) => 1
    case Name(_) => 1
    case Assign(_, e1) => PeakE(e1)
    case Unary(_, e1) => PeakE(e1)
    case Infix(_, l, r) => Max(PeakE(l), DeltaE(l) + PeakE(r))
    case Getter(recv, _) => PeakE(recv)
    case Setter(recv, _, e1) => Max(PeakE(recv), DeltaE(recv) + PeakE(e1))
    case And(l, r) => Max(PeakE(l), DeltaE(l) - 1 + PeakE(r))
    case Or(l, r) => Max(PeakE(l), DeltaE(l) - 1 + PeakE(r))
    case Cond(c, t, f) => Max(PeakE(c), Max(DeltaE(c) - 1 + PeakE(t), DeltaE(c) - 1 + DeltaE(t) + PeakE(f)))
  }

  function DeltaS(s: Stmt): (d: int)
    ensures d >= 0
    decreases s
  {
    match s
    case ExprS(e) => DeltaE(e) - 1
    case IfThen(c, t) => DeltaE(c) - 1 + DeltaS(t)
    case IfElse(c, t, f) => DeltaE(c) - 1 + DeltaS(t) + DeltaS(f)
    case While(c, body) => DeltaE(c) - 1 + DeltaS(body)
    case For(_, e, body) => DeltaE(e) - 1 + DeltaS(body)
    case Break => 0
    case Return(e) => DeltaE(e)
    case Block(b) => DeltaB(b) - |Declared(b)|
  }

  function DeltaB(b: Body): (d: int)
    ensures d >= |Declared(b)|
    decreases b
  {
    match b
    case Done => 0
    case VarThen(_, init, rest) => DeltaE(init) + DeltaB(rest)
    case StmtThen(s, rest) => DeltaS(s) + DeltaB(rest)
  }

  function PeakS(s: Stmt): (p: int)
    ensures p >= DeltaS(s)
    decreases s
  {
    match s
    case ExprS(e) => PeakE(e)
    case IfThen(c, t) => Max(PeakE(c), DeltaE(c) - 1 + PeakS(t))
    case IfElse(c, t, f) => Max(PeakE(c), Max(DeltaE(c) - 1 + PeakS(t), DeltaE(c) - 1 + DeltaS(t) + PeakS(f)))
    case While(c, body) => Max(PeakE(c), DeltaE(c) - 1 + PeakS(body))
    case For(_, e, body) => Max(PeakE(e), DeltaE(e) + Max(3, 2 + PeakS(body)))
    case Break => 0
    case Return(e) => PeakE(e)
    case Block(b) => PeakB(b)
  }

  function PeakB(b: Body): (p: int)
    ensures p >= DeltaB(b)
    decreases b
  {
    match b
    case Done => 0
    case VarThen(_, init, rest) => Max(PeakE(init), DeltaE(init) + PeakB(rest))
    case StmtThen(s, rest) => Max(PeakS(s), DeltaS(s) + PeakB(rest))
  }

  function PeakFn(fb: FnBody): int {
    match fb
    case ExprBody(e) => PeakE(e)
    case Defs(b) => Max(PeakB(b), DeltaB(b) + 1)
  }
}

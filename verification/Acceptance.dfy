/** Which programs of the fragment the compiler accepts: the names, literals, scopes and jump distances it checks, in
    the order it checks them. */
module Acceptance {
  import opened Wrappers
  import opened Syntax
  import opened Bytecode
  import opened Octets
  import opened CodeGen
  import opened CodeGenLaws
  import opened Grammar
  import opened Limits

  // ----- Lengths -----------------------------------------------------------------------------------

  function LoadLen(slot: nat): nat { if slot <= 8 then 1 else 2 }

  /** The bytes of an expression. They depend on where its variables live, and on nothing in the
      tables. */
  function LenE(e: Expr, ls: seq<string>): nat {
    match e
    case NullLit => 1
    case BoolLit(_) => 1
    case Lit(_) => 3
    case Name(x) => if x in ls then LoadLen(FindLast(ls, x).value) else 3
    case Assign(x, e1) => LenE(e1, ls) + if x in ls then 2 else 3
    case Unary(_, e1) => LenE(e1, ls) + 3
    case Infix(_, l, r) => LenE(l, ls) + LenE(r, ls) + 3
    case Getter(recv, _) => LenE(recv, ls) + 3
    case Setter(recv, _, e1) => LenE(recv, ls) + LenE(e1, ls) + 3
    case And(l, r) => LenE(l, ls) + 3 + LenE(r, ls)
    case Or(l, r) => LenE(l, ls) + 3 + LenE(r, ls)
    case Cond(c, t, f) => LenE(c, ls) + 3 + LenE(t, ls) + 3 + LenE(f, ls)
  }

  /** The bytes of a statement, `base` being the number of locals a `break` keeps. */
  function LenS(s: Stmt, ls: seq<string>, base: nat): nat
    decreases s
  {
    match s
    case ExprS(e) => LenE(e, ls) + 1
    case Return(e) => LenE(e, ls) + 1
    case Break => (if base <= |ls| then |ls| - base else 0) + 3
    case IfThen(c, t) => LenE(c, ls) + 3 + LenS(t, ls, base)
    case IfElse(c, t, f) => LenE(c, ls) + 3 + LenS(t, ls, base) + 3 + LenS(f, ls, base)
    case While(c, body) => LenE(c, ls) + 3 + LenS(body, ls, |ls|) + 3
    case For(v, e, body) =>
      var k := |ls|;
      LenE(e, ls) + 1 + (LenPair(k) + 5) + 3 + LenTurn(k, LenS(body, ls + [SEQ_LOCAL, ITER_LOCAL] + [v], k + 2)) + 3 + 2
    case Block(b) => LenB(b, ls, base) + |Declared(b)|
  }

  /** Loading the sequence and the iterator of a `for` loop, which live in slot `k` and the next. */
  function LenPair(k: nat): nat { LoadLen(k) + LoadLen(k + 1) }

  /** One turn of a `for` loop: binding its variable, its body, and dropping the variable. */
  function LenTurn(k: nat, body: nat): nat { LenPair(k) + 3 + body + 1 }

  function LenB(b: Body, ls: seq<string>, base: nat): nat
    decreases b
  {
    match b
    case Done => 0
    case VarThen(x, init, rest) => LenE(init, ls) + LenB(rest, ls + [x], base)
    case StmtThen(s, rest) => LenS(s, ls, base) + LenB(rest, ls, base)
  }

  lemma {:induction false} SizeE(e: Expr, ls: seq<string>, T: Tables)
    ensures Size(GenE(e, ls, T)) == LenE(e, ls)
  {
    hide Size, IndexOf, ShortOp, FindLast, Fork;
    match e
    case NullLit => BytesOne(Op(CODE_NULL));
    case BoolLit(b) => BytesOne(Op(if b then CODE_TRUE else CODE_FALSE));
    case Lit(v) => ShortSize(CODE_CONSTANT, IndexOf(T.consts, v));
    case Name(x) => SizeLoad(x, ls, T);
    case Assign(x, e1) => SizeE(e1, ls, T); SizeStore(x, ls, T); BytesAppend(GenE(e1, ls, T), [StoreVar(ls, T, x)]);
    case Unary(op, e1) => SizeE(e1, ls, T); SizeCall(GenE(e1, ls, T), T, 0, UnName(op));
    case Getter(recv, name) => SizeE(recv, ls, T); SizeCall(GenE(recv, ls, T), T, 0, name);
    case Infix(op, l, r) => SizeE(l, ls, T); SizeE(r, ls, T);
      SizeCall2(GenE(l, ls, T), GenE(r, ls, T), T, InfixSig(op));
    case Setter(l, name, r) => SizeE(l, ls, T); SizeE(r, ls, T);
      SizeCall2(GenE(l, ls, T), GenE(r, ls, T), T, SetterSig(name));
    case And(l, r) => SizeE(l, ls, T); SizeE(r, ls, T); SizeShort(GenE(l, ls, T), CODE_AND, GenE(r, ls, T));
    case Or(l, r) => SizeE(l, ls, T); SizeE(r, ls, T); SizeShort(GenE(l, ls, T), CODE_OR, GenE(r, ls, T));
    case Cond(c, t, f) =>
      SizeE(c, ls, T);
      SizeE(t, ls, T);
      SizeE(f, ls, T);
      ForkSize(GenE(c, ls, T), GenE(t, ls, T), GenE(f, ls, T));
  }

  lemma {:induction false} SizeLocal(slot: nat)
    ensures Size([LoadLocal(slot)]) == LoadLen(slot)
  {
    BytesOne(LoadLocal(slot));
  }

  lemma {:induction false} SizeLoad(x: string, ls: seq<string>, T: Tables)
    ensures Size([LoadVar(ls, T, x)]) == LenE(Name(x), ls)
  {
    BytesOne(LoadVar(ls, T, x));
  }

  lemma {:induction false} SizeStore(x: string, ls: seq<string>, T: Tables)
    ensures Size([StoreVar(ls, T, x)]) == if x in ls then 2 else 3
  {
    BytesOne(StoreVar(ls, T, x));
  }

  lemma {:induction false} SizeCall(a: seq<Instr>, T: Tables, n: nat, sig: string)
    requires n <= 16
    ensures Size(a + [CallOp(T, n, sig)]) == Size(a) + 3
  {
    hide Size;
    ShortSize(CODE_CALL_0 + n, IndexOf(T.sigs, sig));
    BytesAppend(a, [CallOp(T, n, sig)]);
  }

  lemma {:induction false} SizeCall2(a: seq<Instr>, b: seq<Instr>, T: Tables, sig: string)
    ensures Size(a + b + [CallOp(T, 1, sig)]) == Size(a) + Size(b) + 3
  {
    hide Size, CallOp;
    BytesAppend(a, b);
    SizeCall(a + b, T, 1, sig);
  }

  lemma {:induction false} SizeShort(a: seq<Instr>, op: byte, b: seq<Instr>)
    ensures Size(a + [ShortOp(op, Size(b))] + b) == Size(a) + 3 + Size(b)
  {
    hide Size, ShortOp;
    ShortSize(op, Size(b));
    BytesAppend3(a, [ShortOp(op, Size(b))], b);
  }

  lemma {:induction false} SizeS(s: Stmt, ls: seq<string>, T: Tables, base: nat, x: Exit)
    ensures Size(GenS(s, ls, T, base, x)) == LenS(s, ls, base)
    decreases s, 1
  {
    hide Size, GenE, LenE, Fork, LoopTail, ShortOp, GenFor;
    match s
    case ExprS(e) => SizeE(e, ls, T); SizeAfter(GenE(e, ls, T), Op(CODE_POP));
    case Return(e) => SizeE(e, ls, T); SizeAfter(GenE(e, ls, T), Op(CODE_RETURN));
    case Break =>
      var k := if base <= |ls| then |ls| - base else 0;
      PopsSize(k);
      BytesOne(BreakOp(x));
      BytesAppend(Pops(k), [BreakOp(x)]);
      SizeBreak(x);
    case IfThen(c, t) =>
      SizeE(c, ls, T);
      SizeS(t, ls, T, base, x);
      SizeShort(GenE(c, ls, T), CODE_JUMP_IF, GenS(t, ls, T, base, x));
    case IfElse(c, t, f) =>
      var fc := GenS(f, ls, T, base, x);
      SizeE(c, ls, T);
      SizeS(f, ls, T, base, x);
      SizeS(t, ls, T, base, Past(x, 3 + Size(fc)));
      ForkSize(GenE(c, ls, T), GenS(t, ls, T, base, Past(x, 3 + Size(fc))), fc);
    case While(c, body) =>
      SizeE(c, ls, T);
      SizeS(body, ls, T, |ls|, To(3));
      SizeNothing();
      LoopSize(GenE(c, ls, T), [], GenS(body, ls, T, |ls|, To(3)));
    case For(v, e, body) => SizeForS(s, v, e, body, ls, T, base, x);
    case Block(b) =>
      PopsSize(|Declared(b)|);
      SizeB(b, ls, T, base, Past(x, |Declared(b)|));
      BytesAppend(GenB(b, ls, T, base, Past(x, |Declared(b)|)), Pops(|Declared(b)|));
  }

  lemma {:induction false} SizeAfter(a: seq<Instr>, i: Instr)
    ensures Size(a + [i]) == Size(a) + 1 + |i.args|
  {
    hide Size;
    BytesOne(i);
    BytesAppend(a, [i]);
  }

  lemma {:induction false} SizeBreak(x: Exit)
    ensures |BreakOp(x).args| == 2
  {
  }

  lemma {:induction false} SizeForS(s: Stmt, v: string, e: Expr, body: Stmt, ls: seq<string>, T: Tables, base: nat,
                                    x: Exit)
    requires s == For(v, e, body)
    ensures Size(GenS(s, ls, T, base, x)) == LenS(s, ls, base)
    decreases s, 0
  {
    hide Size, GenE, LenE, LoopTail, Advance, Current, LenPair, LenTurn;
    var inner := ls + [SEQ_LOCAL, ITER_LOCAL];
    SizeE(e, ls, T);
    PopsSize(2);
    SizeFor(v, body, inner, T);
    SizeAfter(GenE(e, ls, T), Op(CODE_NULL));
    BytesAppend3(GenE(e, ls, T) + [Op(CODE_NULL)], GenFor(v, body, inner, T), Pops(2));
  }

  /** The distance the exit test of a `for` loop jumps is the length of a turn and of the jump back. */
  lemma {:induction false} SizeFor(v: string, body: Stmt, inner: seq<string>, T: Tables)
    requires |inner| >= 2
    ensures var k := |inner| - 2;
            Size(GenFor(v, body, inner, T)) == LenPair(k) + 5 + 3 + LenTurn(k, LenS(body, inner + [v], |inner|)) + 3
    decreases body, 2
  {
    hide Size, LoopTail, LenS, GenS, Advance, Current, LenPair;
    var k := |inner| - 2;
    var bc := GenS(body, inner + [v], T, |inner|, To(4));
    SizeS(body, inner + [v], T, |inner|, To(4));
    SizeAfter(bc, Op(CODE_POP));
    SizePair(k, T);
    LoopSize(Advance(k, T), Current(k, T), bc + [Op(CODE_POP)]);
  }

  lemma {:induction false} SizePair(k: nat, T: Tables)
    ensures Size(Advance(k, T)) == LenPair(k) + 5 && Size(Current(k, T)) == LenPair(k) + 3
  {
    hide Size, CallOp, LoadLocal, LoadLen;
    var a, b := LoadLocal(k), LoadLocal(k + 1);
    SizeLocal(k);
    SizeLocal(k + 1);
    BytesAppend([a], [b]);
    SizeCall([a] + [b], T, 1, ITERATE);
    SizeCall([a] + [b], T, 1, ITERATOR_VALUE);
    SizeAfter([a] + [b] + [CallOp(T, 1, ITERATE)], ByteOp(CODE_STORE_LOCAL, k + 1));
    assert [a] + [b] + [CallOp(T, 1, ITERATE)] + [ByteOp(CODE_STORE_LOCAL, k + 1)] == Advance(k, T);
    assert [a] + [b] + [CallOp(T, 1, ITERATOR_VALUE)] == Current(k, T);
  }

  lemma {:induction false} SizeB(b: Body, ls: seq<string>, T: Tables, base: nat, x: Exit)
    ensures Size(GenB(b, ls, T, base, x)) == LenB(b, ls, base)
    decreases b, 1
  {
    hide Size, GenE, LenE;
    match b
    case Done => SizeNothing();
    case VarThen(v, init, rest) =>
      SizeE(init, ls, T);
      SizeB(rest, ls + [v], T, base, x);
      BytesAppend(GenE(init, ls, T), GenB(rest, ls + [v], T, base, x));
    case StmtThen(s, rest) =>
      var after := GenB(rest, ls, T, base, x);
      SizeB(rest, ls, T, base, x);
      SizeS(s, ls, T, base, Past(x, Size(after)));
      BytesAppend(GenS(s, ls, T, base, Past(x, Size(after))), after);
  }

  // ----- The constant table --------------------------------------------------------------------------

  function AddOnce(c: seq<Value>, v: Value): seq<Value> {
    if v in c then c else c + [v]
  }

  /** The constant table after an expression: its literals, in order, each one once. */
  function ConstsE(e: Expr, c: seq<Value>): seq<Value> {
    match e
    case NullLit => c
    case BoolLit(_) => c
    case Lit(v) => AddOnce(c, v)
    case Name(_) => c
    case Assign(_, e1) => ConstsE(e1, c)
    case Unary(_, e1) => ConstsE(e1, c)
    case Infix(_, l, r) => ConstsE(r, ConstsE(l, c))
    case Getter(recv, _) => ConstsE(recv, c)
    case Setter(recv, _, e1) => ConstsE(e1, ConstsE(recv, c))
    case And(l, r) => ConstsE(r, ConstsE(l, c))
    case Or(l, r) => ConstsE(r, ConstsE(l, c))
    case Cond(e0, t, f) => ConstsE(f, ConstsE(t, ConstsE(e0, c)))
  }

  function ConstsS(s: Stmt, c: seq<Value>): seq<Value>
    decreases s
  {
    match s
    case ExprS(e) => ConstsE(e, c)
    case Return(e) => ConstsE(e, c)
    case Break => c
    case IfThen(e, t) => ConstsS(t, ConstsE(e, c))
    case IfElse(e, t, f) => ConstsS(f, ConstsS(t, ConstsE(e, c)))
    case While(e, body) => ConstsS(body, ConstsE(e, c))
    case For(_, e, body) => ConstsS(body, ConstsE(e, c))
    case Block(b) => ConstsB(b, c)
  }

  function ConstsB(b: Body, c: seq<Value>): seq<Value>
    decreases b
  {
    match b
    case Done => c
    case VarThen(_, init, rest) => ConstsB(rest, ConstsE(init, c))
    case StmtThen(s, rest) => ConstsB(rest, ConstsS(s, c))
  }

  // ----- Acceptance ------------------------------------------------------------------------------------

  /** A name is a local or a module variable, or may be a module variable whose definition comes later. */
  predicate Resolves(x: string, ls: seq<string>, mods: seq<string>) {
    x in ls || x in mods || !IsLocalName(x)
  }

  /** Every name resolves, the literals fit in the table that starts as `c`, and no jump spans
      more than MAX_JUMP bytes. */
  predicate AcceptE(e: Expr, ls: seq<string>, mods: seq<string>, c: seq<Value>) {
    match e
    case NullLit => true
    case BoolLit(_) => true
    case Lit(v) => v in c || |c| < MAX_CONSTANTS
    case Name(x) => Resolves(x, ls, mods)
    case Assign(x, e1) => Resolves(x, ls, mods) && AcceptE(e1, ls, mods, c)
    case Unary(_, e1) => AcceptE(e1, ls, mods, c)
    case Infix(_, l, r) => AcceptE(l, ls, mods, c) && AcceptE(r, ls, mods, ConstsE(l, c))
    case Getter(recv, name) => |name| <= MAX_METHOD_NAME && AcceptE(recv, ls, mods, c)
    case Setter(recv, name, e1) =>
      |name| <= MAX_METHOD_NAME && AcceptE(recv, ls, mods, c) && AcceptE(e1, ls, mods, ConstsE(recv, c))
    case And(l, r) => AcceptE(l, ls, mods, c) && AcceptE(r, ls, mods, ConstsE(l, c)) && LenE(r, ls) <= MAX_JUMP
    case Or(l, r) => AcceptE(l, ls, mods, c) && AcceptE(r, ls, mods, ConstsE(l, c)) && LenE(r, ls) <= MAX_JUMP
    case Cond(e0, t, f) =>
      var c1 := ConstsE(e0, c);
      && AcceptE(e0, ls, mods, c) && AcceptE(t, ls, mods, c1) && AcceptE(f, ls, mods, ConstsE(t, c1))
      && LenE(t, ls) + 3 <= MAX_JUMP && LenE(f, ls) <= MAX_JUMP
  }

  lemma {:induction false} AcceptVariable(x: string, e: Expr, ls: seq<string>, mods: seq<string>, c: seq<Value>)
    ensures AcceptE(Name(x), ls, mods, c) <==> Resolves(x, ls, mods)
    ensures AcceptE(Assign(x, e), ls, mods, c) <==> Resolves(x, ls, mods) && AcceptE(e, ls, mods, c)
    ensures ConstsE(Name(x), c) == c && ConstsE(Assign(x, e), c) == ConstsE(e, c)
  {
  }

  lemma {:induction false} AcceptUnary(op: UnOp, e: Expr, ls: seq<string>, mods: seq<string>, c: seq<Value>)
    ensures AcceptE(Unary(op, e), ls, mods, c) <==> AcceptE(e, ls, mods, c)
    ensures ConstsE(Unary(op, e), c) == ConstsE(e, c)
  {
  }

  lemma {:induction false} AcceptGetter(e: Expr, name: string, ls: seq<string>, mods: seq<string>, c: seq<Value>)
    ensures AcceptE(Getter(e, name), ls, mods, c) <==> |name| <= MAX_METHOD_NAME && AcceptE(e, ls, mods, c)
    ensures ConstsE(Getter(e, name), c) == ConstsE(e, c)
  {
  }

  lemma {:induction false} AcceptInfix(op: BinOp, l: Expr, r: Expr, ls: seq<string>, mods: seq<string>, c: seq<Value>)
    ensures AcceptE(Infix(op, l, r), ls, mods, c) <==> AcceptE(l, ls, mods, c) && AcceptE(r, ls, mods, ConstsE(l, c))
    ensures ConstsE(Infix(op, l, r), c) == ConstsE(r, ConstsE(l, c))
  {
  }

  lemma {:induction false} AcceptSetter(l: Expr, name: string, r: Expr, ls: seq<string>, mods: seq<string>,
                                        c: seq<Value>)
    ensures AcceptE(Setter(l, name, r), ls, mods, c)
            <==> |name| <= MAX_METHOD_NAME && AcceptE(l, ls, mods, c) && AcceptE(r, ls, mods, ConstsE(l, c))
    ensures ConstsE(Setter(l, name, r), c) == ConstsE(r, ConstsE(l, c))
  {
  }

  lemma {:induction false} AcceptLogic(l: Expr, r: Expr, ls: seq<string>, mods: seq<string>, c: seq<Value>)
    ensures AcceptE(And(l, r), ls, mods, c)
            <==> AcceptE(l, ls, mods, c) && AcceptE(r, ls, mods, ConstsE(l, c)) && LenE(r, ls) <= MAX_JUMP
    ensures AcceptE(Or(l, r), ls, mods, c) <==> AcceptE(And(l, r), ls, mods, c)
    ensures ConstsE(And(l, r), c) == ConstsE(r, ConstsE(l, c)) == ConstsE(Or(l, r), c)
  {
    hide LenE;
  }

  lemma {:induction false} AcceptCond(e: Expr, t: Expr, f: Expr, ls: seq<string>, mods: seq<string>, c: seq<Value>)
    ensures var c1 := ConstsE(e, c);
            AcceptE(Cond(e, t, f), ls, mods, c)
            <==> AcceptE(e, ls, mods, c) && AcceptE(t, ls, mods, c1) && AcceptE(f, ls, mods, ConstsE(t, c1))
                 && LenE(t, ls) + 3 <= MAX_JUMP && LenE(f, ls) <= MAX_JUMP
    ensures ConstsE(Cond(e, t, f), c) == ConstsE(f, ConstsE(t, ConstsE(e, c)))
  {
    hide LenE;
  }

  /** An operand that is not accepted makes the whole unacceptable. */
  lemma {:induction false} InfixAccepts(left: Expr, toks: seq<Token>, prec: nat, canAssign: bool, ls: seq<string>,
                                        mods: seq<string>, c: seq<Value>)
    requires prec >= PREC_LOWEST
    ensures var p := ParseInfix(left, toks, prec, canAssign);
            p.Ok? && AcceptE(p.tree, ls, mods, c) ==> AcceptE(left, ls, mods, c)
    decreases |toks|
  {
    hide LenE, AcceptE, InfixPrec, ParseOperator;
    if toks != [] && prec <= InfixPrec(toks[0]) {
      var p := ParseOperator(left, toks, canAssign);
      if p.Ok? {
        OperatorAccepts(left, toks, canAssign, ls, mods, c);
        InfixAccepts(p.tree, p.rest, prec, canAssign, ls, mods, c);
      }
    }
  }

  lemma {:induction false} OperatorAccepts(left: Expr, toks: seq<Token>, canAssign: bool, ls: seq<string>,
                                           mods: seq<string>, c: seq<Value>)
    requires toks != [] && ParseOperator(left, toks, canAssign).Ok?
    ensures AcceptE(ParseOperator(left, toks, canAssign).tree, ls, mods, c) ==> AcceptE(left, ls, mods, c)
  {
    hide LenE, ParsePrec, ParseExpr, SkipLines, AcceptE, ConstsE;
    match ParseOperator(left, toks, canAssign).tree
    case Infix(op, _, r) => AcceptInfix(op, left, r, ls, mods, c);
    case And(_, r) => AcceptLogic(left, r, ls, mods, c);
    case Or(_, r) => AcceptLogic(left, r, ls, mods, c);
    case Cond(_, t, f) => AcceptCond(left, t, f, ls, mods, c);
    case Setter(_, name, e) => AcceptSetter(left, name, e, ls, mods, c);
    case Getter(_, name) => AcceptGetter(left, name, ls, mods, c);
  }

  /** The same for statements; a `break` is in a loop. */
  predicate AcceptS(s: Stmt, ls: seq<string>, mods: seq<string>, c: seq<Value>, base: nat, inLoop: bool)
    decreases s, 0
  {
    match s
    case ExprS(e) => AcceptE(e, ls, mods, c)
    case Return(e) => AcceptE(e, ls, mods, c)
    case Break => inLoop
    case IfThen(e, t) =>
      AcceptE(e, ls, mods, c) && AcceptS(t, ls, mods, ConstsE(e, c), base, inLoop) && LenS(t, ls, base) <= MAX_JUMP
    case IfElse(e, t, f) =>
      var c1 := ConstsE(e, c);
      && AcceptE(e, ls, mods, c) && AcceptS(t, ls, mods, c1, base, inLoop)
      && AcceptS(f, ls, mods, ConstsS(t, c1), base, inLoop)
      && LenS(t, ls, base) + 3 <= MAX_JUMP && LenS(f, ls, base) <= MAX_JUMP
    case While(e, body) =>
      AcceptE(e, ls, mods, c) && AcceptS(body, ls, mods, ConstsE(e, c), |ls|, true)
        && LenS(body, ls, |ls|) + 3 <= MAX_JUMP
    case For(v, e, body) =>
      AcceptE(e, ls, mods, c) && AcceptFor(v, body, ls + [SEQ_LOCAL, ITER_LOCAL], mods, ConstsE(e, c))
    case Block(b) => AcceptB(b, ls, |ls|, mods, c, base, inLoop)
  }

  predicate AcceptFor(v: string, body: Stmt, inner: seq<string>, mods: seq<string>, c: seq<Value>)
    decreases body, 1
  {
    && |inner| >= 2 && AcceptS(body, inner + [v], mods, c, |inner|, true)
    && LenTurn(|inner| - 2, LenS(body, inner + [v], |inner|)) + 3 <= MAX_JUMP
  }

  /** A name that can be declared in a scope that has declared `scope`. */
  predicate FreshName(x: string, scope: seq<string>) {
    |x| <= MAX_VARIABLE_NAME && x !in scope
  }

  predicate AcceptParams(params: seq<string>) {
    |params| <= MAX_PARAMETERS && forall i :: 0 <= i < |params| ==> FreshName(params[i], params[..i])
  }

  /** The definitions of a block whose scope starts at local `m`: no name is declared twice in it, and
      there is a slot for each. */
  predicate AcceptB(b: Body, ls: seq<string>, m: nat, mods: seq<string>, c: seq<Value>, base: nat, inLoop: bool)
    decreases b, 0
  {
    match b
    case Done => true
    case VarThen(x, init, rest) =>
      && AcceptE(init, ls, mods, c) && m <= |ls| && FreshName(x, ls[m..]) && |ls| != MAX_LOCALS
      && AcceptB(rest, ls + [x], m, mods, ConstsE(init, c), base, inLoop)
    case StmtThen(s, rest) =>
      AcceptS(s, ls, mods, c, base, inLoop) && AcceptB(rest, ls, m, mods, ConstsS(s, c), base, inLoop)
  }

  /** What stands between braces, in a scope that starts at local `m`. */
  predicate AcceptBlock(fb: FnBody, ls: seq<string>, m: nat, mods: seq<string>, c: seq<Value>, base: nat,
                        inLoop: bool) {
    match fb
    case ExprBody(e) => AcceptE(e, ls, mods, c)
    case Defs(b) => AcceptB(b, ls, m, mods, c, base, inLoop)
  }

  lemma {:induction false} AcceptIf(e: Expr, t: Stmt, f: Stmt, ls: seq<string>, mods: seq<string>, c: seq<Value>,
                                    base: nat, inLoop: bool)
    ensures var c1 := ConstsE(e, c);
            && (AcceptS(IfThen(e, t), ls, mods, c, base, inLoop)
                <==> AcceptE(e, ls, mods, c) && AcceptS(t, ls, mods, c1, base, inLoop) && LenS(t, ls, base) <= MAX_JUMP)
            && (AcceptS(IfElse(e, t, f), ls, mods, c, base, inLoop)
                <==> AcceptE(e, ls, mods, c) && AcceptS(t, ls, mods, c1, base, inLoop)
                     && AcceptS(f, ls, mods, ConstsS(t, c1), base, inLoop)
                     && LenS(t, ls, base) + 3 <= MAX_JUMP && LenS(f, ls, base) <= MAX_JUMP)
    ensures ConstsS(IfThen(e, t), c) == ConstsS(t, ConstsE(e, c))
    ensures ConstsS(IfElse(e, t, f), c) == ConstsS(f, ConstsS(t, ConstsE(e, c)))
  {
    hide LenS, AcceptE, ConstsE;
  }

  lemma {:induction false} AcceptWhile(e: Expr, body: Stmt, ls: seq<string>, mods: seq<string>, c: seq<Value>,
                                       base: nat, inLoop: bool)
    ensures AcceptS(While(e, body), ls, mods, c, base, inLoop)
            <==> AcceptE(e, ls, mods, c) && AcceptS(body, ls, mods, ConstsE(e, c), |ls|, true)
                 && LenS(body, ls, |ls|) + 3 <= MAX_JUMP
    ensures ConstsS(While(e, body), c) == ConstsS(body, ConstsE(e, c))
  {
    hide LenS, AcceptE, ConstsE;
  }

  lemma {:induction false} AcceptForS(v: string, e: Expr, body: Stmt, ls: seq<string>, mods: seq<string>,
                                      c: seq<Value>, base: nat, inLoop: bool)
    ensures AcceptS(For(v, e, body), ls, mods, c, base, inLoop)
            <==> AcceptE(e, ls, mods, c) && AcceptFor(v, body, ls + [SEQ_LOCAL, ITER_LOCAL], mods, ConstsE(e, c))
    ensures ConstsS(For(v, e, body), c) == ConstsS(body, ConstsE(e, c))
  {
    hide AcceptE, ConstsE;
  }

  lemma {:induction false} AcceptSimple(e: Expr, ls: seq<string>, mods: seq<string>, c: seq<Value>, base: nat,
                                        inLoop: bool)
    ensures AcceptS(ExprS(e), ls, mods, c, base, inLoop) <==> AcceptE(e, ls, mods, c)
    ensures AcceptS(Return(e), ls, mods, c, base, inLoop) <==> AcceptE(e, ls, mods, c)
    ensures ConstsS(ExprS(e), c) == ConstsE(e, c) == ConstsS(Return(e), c)
    ensures AcceptS(Break, ls, mods, c, base, inLoop) == inLoop && ConstsS(Break, c) == c
    ensures AcceptE(NullLit, ls, mods, c) && ConstsE(NullLit, c) == c
  {
  }

  lemma {:induction false} AcceptBlockS(b: Body, ls: seq<string>, mods: seq<string>, c: seq<Value>, base: nat,
                                        inLoop: bool)
    ensures AcceptS(Block(b), ls, mods, c, base, inLoop) <==> AcceptB(b, ls, |ls|, mods, c, base, inLoop)
    ensures ConstsS(Block(b), c) == ConstsB(b, c)
  {
  }

  lemma {:induction false} AcceptNone(ls: seq<string>, m: nat, mods: seq<string>, c: seq<Value>, base: nat,
                                      inLoop: bool)
    ensures AcceptB(Done, ls, m, mods, c, base, inLoop) && ConstsB(Done, c) == c
  {
  }

  /** One definition. */
  lemma {:induction false} AcceptDef(x: string, e: Expr, s: Stmt, ls: seq<string>, m: nat, mods: seq<string>,
                                     c: seq<Value>, base: nat, inLoop: bool)
    ensures AcceptB(VarThen(x, e, Done), ls, m, mods, c, base, inLoop)
            <==> AcceptE(e, ls, mods, c) && m <= |ls| && FreshName(x, ls[m..]) && |ls| != MAX_LOCALS
    ensures AcceptB(StmtThen(s, Done), ls, m, mods, c, base, inLoop) <==> AcceptS(s, ls, mods, c, base, inLoop)
    ensures ConstsB(VarThen(x, e, Done), c) == ConstsE(e, c) && ConstsB(StmtThen(s, Done), c) == ConstsS(s, c)
  {
    hide AcceptE, ConstsE, AcceptS, ConstsS;
  }

  lemma {:induction false} ChainAccept(a: Body, b: Body, ls: seq<string>, m: nat, mods: seq<string>, c: seq<Value>,
                                       base: nat, inLoop: bool)
    ensures AcceptB(Chain(a, b), ls, m, mods, c, base, inLoop)
            <==> AcceptB(a, ls, m, mods, c, base, inLoop)
                 && AcceptB(b, ls + Declared(a), m, mods, ConstsB(a, c), base, inLoop)
    ensures ConstsB(Chain(a, b), c) == ConstsB(b, ConstsB(a, c))
  {
    hide AcceptE, AcceptS, ConstsE, ConstsS;
    match a
    case Done =>
      assert ls + [] == ls;
    case VarThen(x, init, rest) =>
      ChainAccept(rest, b, ls + [x], m, mods, ConstsE(init, c), base, inLoop);
      assert ls + [x] + Declared(rest) == ls + ([x] + Declared(rest));
    case StmtThen(s, rest) =>
      ChainAccept(rest, b, ls, m, mods, ConstsS(s, c), base, inLoop);
  }
}

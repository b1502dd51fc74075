/** The single-pass compiler: it consumes tokens and appends bytes as it goes, leaves placeholders
    for forward jumps and patches them in place, and rewrites `break` placeholders by walking the
    emitted bytes when a loop ends. Every method is specified by the grammar and the code generator
    that know nothing of this. */
module Compiler {
  import opened Basics
  import opened Wrappers
  import opened Syntax
  import opened Grammar
  import opened Bytecode
  import opened Octets
  import opened CodeGen
  import opened CodeGenLaws
  import opened Emission
  import opened EmissionStmt
  import opened Walking
  import opened Acceptance
  import opened Limits

  datatype Local = Local(name: string, depth: int)

  /** The loops being compiled, innermost first. */
  datatype Loop = NoLoop | Loop(start: int, exitJump: nat, body: nat, scopeDepth: int, enclosing: Loop)

  /** Where a list of definitions starts: the locals and tables before it, the number of locals a
      `break` keeps, and the output. */
  datatype Entry = Entry(outer: seq<Local>, base: nat, T: Tables, o: Output)

  function LocalNames(locals: seq<Local>): (r: seq<string>)
    ensures |r| == |locals|
  {
    seq(|locals|, i requires 0 <= i < |locals| => locals[i].name)
  }

  /** How many locals stay when those at `depth` or deeper are discarded from the end. */
  function Kept(locals: seq<Local>, depth: int): (n: nat)
    ensures n <= |locals|
  {
    if locals == [] || locals[|locals| - 1].depth < depth then |locals|
    else Kept(locals[..|locals| - 1], depth)
  }

  lemma {:induction false} KeptAppend(locals: seq<Local>, more: seq<Local>, depth: int)
    requires forall i :: 0 <= i < |more| ==> more[i].depth >= depth
    ensures Kept(locals + more, depth) == Kept(locals, depth)
    decreases |more|
  {
    if more == [] {
      assert locals + more == locals;
    } else {
      var shorter := more[..|more| - 1];
      assert (locals + more)[..|locals + more| - 1] == locals + shorter;
      KeptAppend(locals, shorter, depth);
    }
  }

  lemma {:induction false} NamesAppend(a: seq<Local>, b: seq<Local>)
    ensures LocalNames(a + b) == LocalNames(a) + LocalNames(b)
  {
  }

  /** What is parsed after the definitions `prefix`. */
  function Extend(prefix: Body, p: Parsed<Body>): Parsed<Body> {
    if p.Fail? then Fail else Ok(Chain(prefix, p.tree), p.rest)
  }

  lemma {:induction false} ExtendNone(p: Parsed<Body>)
    ensures Extend(Done, p) == p
  {
  }

  lemma {:induction false} DeclaredNone()
    ensures LocalNames([]) == Declared(Done)
  {
  }

  /** One definition of a block and the line that ends it. */
  lemma {:induction false} OneMoreDef(prefix: Body, toks: seq<Token>, d: Parsed<Body>, after: seq<Token>)
    requires d == ParseDef(toks) && d.Ok? && Peek(d.rest) == TLine && after == SkipLines(Next(d.rest))
    ensures Extend(prefix, ParseDefs(toks))
            == Extend(Chain(prefix, d.tree),
                      if Peek(after) != TRightBrace && Peek(after) != TEof then ParseDefs(after) else Ok(Done, after))
  {
    hide ParseDef, Chain;
    assert SkipLines(d.rest) == after;
    var more := ParseMore(after);
    if more.Ok? {
      ChainAssoc(prefix, d.tree, more.tree);
    }
  }

  /** A refused first branch makes the whole `if` refused. */
  lemma {:induction false} ThenRefused(c: Expr, toks: seq<Token>, ls: seq<string>, mods: seq<string>, k: seq<Value>,
                                       base: nat, inLoop: bool)
    ensures var t, p := ParseStmt(toks), ParseBranchesS(c, toks);
            && p == (if t.Fail? then Fail else ParseElseS(c, t.tree, t.rest))
            && (t.Fail? || !AcceptS(t.tree, ls, mods, ConstsE(c, k), base, inLoop) ==>
                p.Fail? || !AcceptS(p.tree, ls, mods, k, base, inLoop))
  {
    hide ParseStmt, AcceptE, ConstsE, AcceptS, ConstsS, LenS;
    var p := ParseBranchesS(c, toks);
    if p.Ok? {
      AcceptIf(c, p.tree.t, if p.tree.IfElse? then p.tree.f else Break, ls, mods, k, base, inLoop);
    }
  }

  lemma {:induction false} FirstRefused(left: Expr, toks: seq<Token>, ls: seq<string>, mods: seq<string>, c: seq<Value>)
    ensures var t, p := ParsePrec(toks, PREC_CONDITIONAL), ParseBranches(left, toks);
            && p == (if t.Fail? then Fail else ParseElse(left, t.tree, t.rest))
            && (t.Fail? || !AcceptE(t.tree, ls, mods, ConstsE(left, c)) ==> p.Fail? || !AcceptE(p.tree, ls, mods, c))
  {
    hide ParsePrec, AcceptE, ConstsE, LenE;
    var p := ParseBranches(left, toks);
    if p.Ok? {
      AcceptCond(left, p.tree.t, p.tree.f, ls, mods, c);
    }
  }

  lemma {:induction false} LongName(left: Expr, name: string, toks: seq<Token>, canAssign: bool, ls: seq<string>,
                                    mods: seq<string>, c: seq<Value>)
    requires |name| > MAX_METHOD_NAME
    ensures var p := ParseNamedCall(left, name, toks, canAssign); p.Fail? || !AcceptE(p.tree, ls, mods, c)
  {
    hide ParseExpr;
  }

  /** A definition that is refused makes the whole block refused. */
  lemma {:induction false} DefRefused(prefix: Body, toks: seq<Token>, ls: seq<string>, m: nat, mods: seq<string>,
                                      c: seq<Value>, base: nat, inLoop: bool)
    requires var d := ParseDef(toks);
             d.Fail? || Peek(d.rest) != TLine
             || !AcceptB(d.tree, ls + Declared(prefix), m, mods, ConstsB(prefix, c), base, inLoop)
    ensures var p := Extend(prefix, ParseDefs(toks)); p.Fail? || !AcceptB(p.tree, ls, m, mods, c, base, inLoop)
  {
    hide ParseDef, AcceptB, ConstsB, Chain, SkipLines, Declared;
    var d := ParseDef(toks);
    if d.Ok? && Peek(d.rest) == TLine {
      var more := ParseMore(SkipLines(d.rest));
      if more.Ok? {
        ChainAccept(prefix, Chain(d.tree, more.tree), ls, m, mods, c, base, inLoop);
        ChainAccept(d.tree, more.tree, ls + Declared(prefix), m, mods, ConstsB(prefix, c), base, inLoop);
      }
    }
  }

  lemma {:induction false} ChainDeclared(a: Body, b: Body)
    ensures Declared(Chain(a, b)) == Declared(a) + Declared(b)
  {
    match a
    case Done =>
    case VarThen(_, _, rest) => ChainDeclared(rest, b);
    case StmtThen(_, rest) => ChainDeclared(rest, b);
  }

  lemma {:induction false} CallEffect(T: Tables, numArgs: nat, sig: string)
    requires numArgs <= 16
    ensures StackEffect(CallOp(T, numArgs, sig).op) == 0 - numArgs
  {
  }

  lemma {:induction false} ExtendDone(prefix: Body, toks: seq<Token>)
    ensures Extend(prefix, Ok(Done, toks)) == Ok(prefix, toks)
  {
    ChainDone(prefix);
  }

  lemma {:induction false} WalkablePops(ins: seq<Instr>, n: nat)
    requires Walkable(ins)
    ensures Walkable(ins + Pops(n))
  {
  }

  /** What the end of a `for` loop expects of the code since its exit test. */
  lemma {:induction false} ForEndReady(k: nat, T: Tables, o: Output, o1: Output, o2: Output, body: Stmt,
                                       ls: seq<string>, base: nat, o3: Output)
    requires o1.code == o.code + Bytes(Advance(k, T))
    requires o2.code == EmitHole(o1, CODE_JUMP_IF).code + Bytes(Current(k, T))
    requires DoneS(body, ls, T, base, true, o2, o3)
    ensures |o.code| <= |o1.code| && |o1.code| - |o.code| == Size(Advance(k, T))
    ensures |o2.code| == |o1.code| + 3 + Size(Current(k, T))
    ensures o3.code + Bytes(Pops(1)) == o1.code + [CODE_JUMP_IF, 255, 255] + Bytes(Current(k, T))
                                        + Bytes(GenS(body, ls, T, base, Pending) + Pops(1))
  {
    hide Advance, Current, GenS, Pops, KnownS;
    BytesSize(Advance(k, T));
    BytesSize(Current(k, T));
    AppendCode(o2.code, GenS(body, ls, T, base, Pending), Pops(1));
  }

  lemma {:induction false} StillThere(T: Tables, T': Tables)
    requires Grows(T, T')
    ensures ITERATE in T.sigs ==> ITERATE in T'.sigs
    ensures ITERATOR_VALUE in T.sigs ==> ITERATOR_VALUE in T'.sigs
  {
  }

  /** Nothing is deeper than the current scope. */
  lemma {:induction false} KeptAll(locals: seq<Local>, depth: int)
    requires forall i :: 0 <= i < |locals| ==> locals[i].depth <= depth
    ensures Kept(locals, depth + 1) == |locals|
  {
  }

  lemma {:induction false} IndexAppended<A>(table: seq<A>, x: A)
    requires x !in table
    ensures IndexOf(table + [x], x) == |table|
    decreases |table|
  {
    if table != [] {
      assert (table + [x])[1..] == table[1..] + [x];
      IndexAppended(table[1..], x);
    }
  }

  lemma {:induction false} FindLastIs(names: seq<string>, x: string, r: Option<nat>)
    requires r.Some? ==> r.value < |names| && names[r.value] == x && forall j :: r.value < j < |names| ==> names[j] != x
    requires r.None? ==> x !in names
    ensures FindLast(names, x) == r
  {
    var f := FindLast(names, x);
    if f.Some? && r.Some? {
      assert names[f.value] == x && names[r.value] == x;
    }
  }

  /** The code of an expression has its length. */
  lemma {:induction false} LenDone(e: Expr, ls: seq<string>, T: Tables, o: Output, o': Output)
    requires DoneE(e, ls, T, o, o')
    ensures |o'.code| == |o.code| + LenE(e, ls)
  {
    hide GenE, KnownE, LenE;
    SizeE(e, ls, T);
    BytesSize(GenE(e, ls, T));
  }

  lemma {:induction false} LenDoneS(s: Stmt, ls: seq<string>, T: Tables, base: nat, inLoop: bool, o: Output, o': Output)
    requires DoneS(s, ls, T, base, inLoop, o, o')
    ensures |o'.code| == |o.code| + LenS(s, ls, base)
  {
    hide GenS, KnownS, LenS;
    SizeS(s, ls, T, base, Pending);
    BytesSize(GenS(s, ls, T, base, Pending));
  }

  lemma {:induction false} JumpedSize(o1: Output, o2: Output)
    requires var jumped := EmitHole(o2, CODE_JUMP); |o1.code| + 3 <= |jumped.code|
    ensures |Patch(EmitHole(o2, CODE_JUMP), |o1.code| + 1).code| == |o2.code| + 3
  {
  }

  function Parameters(params: seq<string>): (r: seq<Local>)
    ensures |r| == |params|
  {
    seq(|params|, i requires 0 <= i < |params| => Local(params[i], 0))
  }

  lemma {:induction false} ParameterScope(params: seq<string>)
    ensures var locals := [Local("", -1)] + Parameters(params);
            && Kept(locals, 0) == 1 && |locals| == 1 + |params|
            && LocalNames(locals) == [""] + params && LocalNames(locals)[1..] == params
            && (params == [] ==> locals == [Local("", -1)])
  {
    var locals := [Local("", -1)];
    assert Kept(locals, 0) == 1;
    KeptAppend(locals, Parameters(params), 0);
  }

  lemma {:induction false} ParameterAdded(params: seq<string>, i: nat)
    requires i < |params|
    ensures [Local("", -1)] + Parameters(params[..i]) + [Local(params[i], 0)] == [Local("",
        -1)] + Parameters(params[..i + 1])
  {
  }

  /** A name of a module variable that nothing defines yet. */
  type ImplicitName = x: string | !IsLocalName(x)

  class Compiler {
    /** The tokens from the current one on. */
    var toks: seq<Token>
    var hasError: bool

    var code: seq<byte>
    var consts: seq<Value>
    var locals: seq<Local>
    var scopeDepth: int
    var numSlots: int
    var maxSlots: int
    var loop: Loop

    /** The virtual machine's method symbols, and the names of the module's variables. */
    var sigs: seq<string>
    const mods: seq<string>

    /** The names that have become module variables by being used: their definitions may come later. */
    var implicits: seq<ImplicitName>

    function T(): Tables
      reads this`consts, this`sigs, this`implicits
    {
      Tables(consts, sigs, mods + implicits)
    }

    function Names(): seq<string>
      reads this`locals
    {
      LocalNames(locals)
    }

    function Out(): Output
      reads this`code, this`numSlots, this`maxSlots
    {
      Output(code, numSlots, maxSlots)
    }

    // ----- Emitting ------------------------------------------------------------------------------

    method EmitByte(b: byte)
      modifies this`code
      ensures code == old(code) + [b]
    {
      code := code + [b];
    }

    /** Emits an opcode and keeps track of the stack's high water mark. */
    method EmitOp(op: byte)
      modifies this`code, this`numSlots, this`maxSlots
      ensures Out() == Emit(old(Out()), Op(op)) && code == old(code) + [op]
    {
      BytesOne(Op(op));
      EmitByte(op);
      numSlots := numSlots + StackEffect(op);
      if numSlots > maxSlots {
        maxSlots := numSlots;
      }
    }

    method EmitShort(n: nat)
      modifies this`code
      ensures code == old(code) + U16(n)
    {
      EmitByte((n / 256) % 256);
      EmitByte(n % 256);
    }

    method EmitByteArg(op: byte, n: nat)
      modifies this`code, this`numSlots, this`maxSlots
      ensures Out() == Emit(old(Out()), ByteOp(op, n))
    {
      BytesOne(ByteOp(op, n));
      EmitOp(op);
      EmitByte(n % 256);
    }

    method EmitShortArg(op: byte, n: nat)
      modifies this`code, this`numSlots, this`maxSlots
      ensures Out() == Emit(old(Out()), ShortOp(op, n))
      ensures numSlots == old(numSlots) + StackEffect(op) && maxSlots == Max(old(maxSlots), numSlots)
    {
      BytesOne(ShortOp(op, n));
      EmitOp(op);
      EmitShort(n);
    }

    /** A jump with a placeholder for its distance; returns where the placeholder is. */
    method EmitJump(op: byte) returns (at: nat)
      modifies this`code, this`numSlots, this`maxSlots
      ensures Out() == EmitHole(old(Out()), op) && at == |old(code)| + 1
    {
      EmitOp(op);
      EmitByte(255);
      EmitByte(255);
      at := |code| - 2;
    }

    /** Makes the jump whose placeholder is at `at` land at the current end of the code. */
    method PatchJump(at: nat)
      requires at + 2 <= |code|
      modifies this`code, this`hasError
      ensures Out() == Patch(old(Out()), at)
      ensures hasError <==> old(hasError) || |old(code)| - at - 2 > MAX_JUMP
    {
      var jump := |code| - at - 2;
      if jump > MAX_JUMP {
        hasError := true;
      }
      code := code[at := (jump / 256) % 256];
      code := code[at + 1 := jump % 256];
    }

    // ----- Tables --------------------------------------------------------------------------------

    /** The index of a literal in the constant table, added if it is new. */
    method AddConstant(v: Value) returns (k: nat)
      modifies this`consts, this`hasError
      ensures hasError <==> old(hasError) || (v !in old(consts) && |old(consts)| >= MAX_CONSTANTS)
      ensures Grows(old(T()), T())
      ensures !hasError ==> v in consts && k == IndexOf(consts, v) && consts == AddOnce(old(consts), v)
    {
      k := IndexOf(consts, v);
      if k < |consts| {
        return;
      }
      if |consts| < MAX_CONSTANTS {
        consts := consts + [v];
        IndexAppended(old(consts), v);
      } else {
        hasError := true;
      }
    }

    method MethodSymbol(sig: string) returns (k: nat)
      modifies this`sigs
      ensures Grows(old(T()), T())
      ensures sig in sigs && k == IndexOf(sigs, sig)
    {
      k := IndexOf(sigs, sig);
      if k == |sigs| {
        sigs := sigs + [sig];
        IndexAppended(old(sigs), sig);
      }
    }

    method CallMethod(numArgs: nat, sig: string)
      requires numArgs <= 16
      modifies this`sigs, this`code, this`numSlots, this`maxSlots
      ensures Grows(old(T()), T()) && sig in sigs
      ensures Out() == Emit(old(Out()), CallOp(T(), numArgs, sig))
    {
      var k := MethodSymbol(sig);
      EmitShortArg(CODE_CALL_0 + numArgs, k);
    }

    // ----- Tokens --------------------------------------------------------------------------------

    method NextToken()
      modifies this`toks
      ensures toks == Next(old(toks))
    {
      if toks != [] {
        toks := toks[1..];
      }
    }

    /** Consumes the current token if it is `expected`. */
    method Match(expected: Token) returns (found: bool)
      modifies this`toks
      ensures found == (Peek(old(toks)) == expected)
      ensures toks == if found then Next(old(toks)) else old(toks)
    {
      found := Peek(toks) == expected;
      if found {
        NextToken();
      }
    }

    /** Consumes the current token, which is an error unless it is `expected`. */
    method Consume(expected: Token)
      modifies this`toks, this`hasError
      ensures hasError <==> old(hasError) || Peek(old(toks)) != expected
      ensures toks == Next(old(toks))
    {
      if Peek(toks) != expected {
        hasError := true;
      }
      NextToken();
    }

    /** Consumes a name, which is returned. */
    method ConsumeName() returns (name: string)
      modifies this`toks, this`hasError
      ensures hasError <==> old(hasError) || !Peek(old(toks)).TName?
      ensures Peek(old(toks)).TName? ==> name == Peek(old(toks)).name
      ensures toks == Next(old(toks))
    {
      name := "";
      if Peek(toks).TName? {
        name := Peek(toks).name;
      } else {
        hasError := true;
      }
      NextToken();
    }

    method IgnoreNewlines()
      modifies this`toks
      ensures toks == SkipLines(old(toks))
    {
      while toks != [] && toks[0] == TLine
        invariant SkipLines(toks) == SkipLines(old(toks))
        decreases |toks|
      {
        toks := toks[1..];
      }
    }

    // ----- Expressions -----------------------------------------------------------------------------

    /** What compiling an expression leaves alone. */
    twostate predicate SameScope()
      reads this
    {
      && locals == old(locals) && scopeDepth == old(scopeDepth) && loop == old(loop)
      && Grows(old(T()), T())
    }

    /** The expression `e` has been compiled since the output was `o` and the constants were `c`. */
    ghost predicate Ready(e: Expr, c: seq<Value>, o: Output)
      reads this`consts, this`sigs, this`implicits, this`locals, this`code, this`numSlots, this`maxSlots
    {
      AcceptE(e, Names(), mods, c) && consts == ConstsE(e, c) && DoneE(e, Names(), T(), o, Out())
    }

    /** What compiling the rest of an expression promises: there is an error exactly when the tokens are
        not an expression or it is not acceptable; otherwise exactly its code has been appended. */
    twostate predicate Built(new p: Parsed<Expr>, new c: seq<Value>, new o: Output)
      reads this
    {
      && (hasError <==> p.Fail? || !AcceptE(p.tree, old(Names()), mods, c))
      && (!hasError ==> SameScope() && toks == p.rest && Ready(p.tree, c, o))
    }

    twostate predicate Compiled(new p: Parsed<Expr>)
      reads this
    {
      Built(p, old(consts), old(Out()))
    }

    method Expression()
      requires !hasError
      modifies this
      ensures Compiled(ParseExpr(old(toks)))
      decreases |toks|, 3
    {
      ParsePrecedence(PREC_LOWEST);
    }

    /** The top-down operator precedence parser. */
    method ParsePrecedence(prec: nat)
      requires !hasError && prec >= PREC_LOWEST
      modifies this
      ensures Compiled(ParsePrec(old(toks), prec))
      decreases |toks|, 2
    {
      hide DoneE, ParsePrefix, ParseOperator, InfixPrec, AcceptE, ConstsE, Grows;
      var canAssign := prec <= PREC_CONDITIONAL;
      ghost var c, o := consts, Out();
      ghost var p := ParsePrefix(toks, canAssign);
      if p.Ok? {
        InfixAccepts(p.tree, p.rest, prec, canAssign, Names(), mods, c);
      }
      Prefix(canAssign);
      if hasError {
        return;
      }
      while toks != [] && prec <= InfixPrec(toks[0])
        invariant SameScope() && !hasError
        invariant p.Ok? && p.rest == toks && Ready(p.tree, c, o)
        invariant ParsePrec(old(toks), prec) == ParseInfix(p.tree, toks, prec, canAssign)
        invariant |toks| < |old(toks)|
        decreases |toks|
      {
        ghost var q := ParseOperator(p.tree, toks, canAssign);
        if q.Ok? {
          InfixAccepts(q.tree, q.rest, prec, canAssign, Names(), mods, c);
        }
        ghost var T1 := T();
        Operator(p.tree, c, o, canAssign);
        if hasError {
          return;
        }
        GrowsTrans(old(T()), T1, T());
        p := q;
      }
    }

    /** The prefix rule of the current token. */
    method Prefix(canAssign: bool)
      requires !hasError
      modifies this
      ensures Compiled(ParsePrefix(old(toks), canAssign))
      decreases |toks|, 1
    {
      hide DoneE, ParseExpr, ParsePrec, GenE, KnownE, SkipLines, Emit, IndexOf, StackEffect, Peek, AcceptE, ConstsE,
           Grows;
      if toks == [] {
        hasError := true;
        return;
      }
      var t := toks[0];
      NextToken();
      if t.TNull? || t.TTrue? || t.TFalse? || t.TLiteral? {
        Constant(t);
      } else if t == TLeftParen {
        Grouping();
      } else if t.TName? {
        Variable(t.name, canAssign);
      } else if UnaryOf(t).Some? {
        UnaryOperator(UnaryOf(t).value);
      } else {
        hasError := true;
      }
    }

    method Constant(t: Token)
      requires !hasError && (t.TNull? || t.TTrue? || t.TFalse? || t.TLiteral?)
      modifies this`code, this`numSlots, this`maxSlots, this`consts, this`hasError
      ensures Grows(old(T()), T())
      ensures hasError <==> !AcceptE(ParsePrefix([t], false).tree, Names(), mods, old(consts))
      ensures !hasError ==> Ready(ParsePrefix([t], false).tree, old(consts), old(Out()))
    {
      hide DoneE, GenE, KnownE, Emit, Grows;
      GrowsSelf(T());
      match t
      case TNull => Singleton(NullLit, CODE_NULL);
      case TTrue => Singleton(BoolLit(true), CODE_TRUE);
      case TFalse => Singleton(BoolLit(false), CODE_FALSE);
      case TLiteral(v) => Literal(v);
    }

    /** `null`, `true` and `false`. */
    method Singleton(ghost e: Expr, op: byte)
      requires (e == NullLit && op == CODE_NULL) || (e == BoolLit(true) && op == CODE_TRUE)
               || (e == BoolLit(false) && op == CODE_FALSE)
      modifies this`code, this`numSlots, this`maxSlots
      ensures Ready(e, old(consts), old(Out()))
    {
      DoneOne(e, Names(), T(), Out(), Op(op));
      EmitOp(op);
    }

    method Literal(v: Value)
      requires !hasError
      modifies this`code, this`numSlots, this`maxSlots, this`consts, this`hasError
      ensures Grows(old(T()), T())
      ensures hasError <==> !AcceptE(Lit(v), Names(), mods, old(consts))
      ensures !hasError ==> Ready(Lit(v), old(consts), old(Out()))
    {
      var k := AddConstant(v);
      if hasError {
        return;
      }
      DoneOne(Lit(v), Names(), T(), Out(), ShortOp(CODE_CONSTANT, k));
      EmitShortArg(CODE_CONSTANT, k);
    }

    method Grouping()
      requires !hasError
      modifies this
      ensures var e := ParseExpr(old(toks));
              Compiled(if e.Fail? || Peek(e.rest) != TRightParen then Fail else Ok(e.tree, Next(e.rest)))
      decreases |toks|, 4
    {
      hide DoneE, ParseExpr, AcceptE, ConstsE, Grows;
      Expression();
      if hasError {
        return;
      }
      Consume(TRightParen);
    }

    /** The slot of a local, or none: the innermost one of that name. */
    method ResolveLocal(x: string) returns (r: Option<nat>)
      ensures r == FindLast(Names(), x)
    {
      var i := |locals|;
      while i > 0 && locals[i - 1].name != x
        invariant 0 <= i <= |locals|
        invariant forall j :: i <= j < |locals| ==> locals[j].name != x
      {
        i := i - 1;
      }
      r := if i > 0 then Some(i - 1) else None;
      FindLastIs(Names(), x, r);
    }

    /** A variable, or an assignment to one. */
    method Variable(x: string, canAssign: bool)
      requires !hasError
      modifies this
      ensures var e := ParseExpr(Next(old(toks)));
              Compiled(if canAssign && Peek(old(toks)) == TEq then
                         if e.Fail? then Fail else Ok(Assign(x, e.tree), e.rest)
                       else Ok(Name(x), old(toks)))
      decreases |toks|, 0
    {
      hide DoneE, ParseExpr, FindLast, AcceptE, ConstsE, Grows, Resolves, KnownVar;
      GrowsSelf(T());
      ghost var e := ParseExpr(Next(toks));
      AcceptVariable(x, if e.Ok? then e.tree else NullLit, Names(), mods, consts);
      var slot, sym := ResolveName(x);
      if hasError {
        return;
      }
      if canAssign && Peek(toks) == TEq {
        ghost var T1 := T();
        NextToken();
        AssignVariable(x, slot, sym);
        if !hasError {
          GrowsTrans(old(T()), T1, T());
        }
      } else {
        LoadParts(x, Names(), T(), Out());
        EmitLoad(x, slot, sym);
      }
    }

    /** The value assigned to a variable, and the store. */
    method AssignVariable(x: string, slot: Option<nat>, sym: nat)
      requires !hasError && slot == FindLast(Names(), x) && (slot.None? ==> sym == IndexOf(T().mods, x))
      requires KnownVar(Names(), T(), x) && Resolves(x, Names(), mods)
      modifies this
      ensures var e := ParseExpr(old(toks)); Compiled(if e.Fail? then Fail else Ok(Assign(x, e.tree), e.rest))
      decreases |toks|, 4
    {
      hide DoneE, ParseExpr, FindLast, AcceptE, ConstsE, Grows, Resolves, KnownVar;
      ghost var e := ParseExpr(toks);
      AcceptVariable(x, if e.Ok? then e.tree else NullLit, Names(), mods, consts);
      ghost var T1 := T();
      Expression();
      if hasError {
        return;
      }
      StableVar(Names(), T1, T(), x);
      ghost var o1 := Out();
      EmitStore(x, slot, sym);
      AssignParts(x, e.tree, Names(), T(), old(Out()), o1);
    }

    /** The local or the module variable that a name means; one that may be defined later becomes a module variable. */
    method ResolveName(x: string) returns (slot: Option<nat>, sym: nat)
      requires !hasError
      modifies this`hasError, this`implicits
      ensures hasError <==> !Resolves(x, Names(), mods)
      ensures !hasError ==>
        slot == FindLast(Names(), x) && (slot.None? ==>
            sym == IndexOf(T().mods, x)) && KnownVar(Names(), T(), x) && Grows(old(T()), T())
    {
      GrowsSelf(T());
      slot := ResolveLocal(x);
      sym := IndexOf(mods + implicits, x);
      if x in implicits {
        ghost var i :| 0 <= i < |implicits| && implicits[i] == x;
        assert !IsLocalName(implicits[i]);
      }
      if slot.None? && sym == |mods + implicits| {
        if IsLocalName(x) {
          hasError := true;
          return;
        }
        DeclareImplicitly(x);
      }
    }

    /** A module variable that is not defined yet. */
    method DeclareImplicitly(x: string)
      requires !IsLocalName(x) && x !in T().mods
      modifies this`implicits
      ensures T().mods == old(T().mods) + [x] && Grows(old(T()), T()) && IndexOf(T().mods, x) == |old(T().mods)|
    {
      ghost var before := mods + implicits;
      implicits := implicits + [x];
      assert mods + implicits == before + [x];
      IndexOfNew(before, x);
    }

    /** The load of a resolved variable. */
    method EmitLoad(ghost x: string, slot: Option<nat>, sym: nat)
      requires slot == FindLast(Names(), x) && (slot.None? ==> sym == IndexOf(T().mods, x))
      modifies this`code, this`numSlots, this`maxSlots
      ensures Out() == Emit(old(Out()), LoadVar(Names(), T(), x))
    {
      if slot.Some? {
        EmitLoadLocal(slot.value);
      } else {
        EmitShortArg(CODE_LOAD_MODULE_VAR, sym);
      }
    }

    method EmitLoadLocal(slot: nat)
      modifies this`code, this`numSlots, this`maxSlots
      ensures Out() == Emit(old(Out()), LoadLocal(slot))
    {
      if slot <= 8 {
        EmitOp(CODE_LOAD_LOCAL_0 + slot);
      } else {
        EmitByteArg(CODE_LOAD_LOCAL, slot);
      }
    }

    method EmitStore(ghost x: string, slot: Option<nat>, sym: nat)
      requires slot == FindLast(Names(), x) && (slot.None? ==> sym == IndexOf(T().mods, x))
      modifies this`code, this`numSlots, this`maxSlots
      ensures Out() == Emit(old(Out()), StoreVar(Names(), T(), x))
    {
      if slot.Some? {
        EmitByteArg(CODE_STORE_LOCAL, slot.value);
      } else {
        EmitShortArg(CODE_STORE_MODULE_VAR, sym);
      }
    }

    method UnaryOperator(op: UnOp)
      requires !hasError
      modifies this
      ensures var e := ParsePrec(SkipLines(old(toks)), PREC_UNARY + 1);
              Compiled(if e.Fail? then Fail else Ok(Unary(op, e.tree), e.rest))
      decreases |toks|, 3
    {
      hide DoneE, ParsePrec, CallOp, AcceptE, ConstsE, Grows;
      IgnoreNewlines();
      ghost var p := ParsePrec(toks, PREC_UNARY + 1);
      if p.Ok? {
        AcceptUnary(op, p.tree, Names(), mods, consts);
      }
      ParsePrecedence(PREC_UNARY + 1);
      if hasError {
        return;
      }
      ghost var T1, o1 := T(), Out();
      CallMethod(0, UnName(op));
      GrowsTrans(old(T()), T1, T());
      DoneStable(p.tree, Names(), T1, T(), old(Out()), o1);
      UnaryParts(op, p.tree, Names(), T(), old(Out()), o1);
    }

    /** The infix rule of the current token, `left` having been compiled since `o`. */
    method Operator(ghost left: Expr, ghost c: seq<Value>, ghost o: Output, canAssign: bool)
      requires !hasError && toks != [] && InfixPrec(toks[0]) != PREC_NONE && Ready(left, c, o)
      modifies this
      ensures Built(ParseOperator(left, old(toks), canAssign), c, o)
      decreases |toks|, 0
    {
      hide DoneE, ParsePrec, ParseExpr, AcceptE, ConstsE, Grows, T, Names, Out;
      var t := toks[0];
      NextToken();
      IgnoreNewlines();
      if t.TOp? {
        InfixOperator(t.op, left, c, o);
      } else if t == TAmpAmp {
        Logic(CODE_AND, left, c, o);
      } else if t == TPipePipe {
        Logic(CODE_OR, left, c, o);
      } else if t == TQuestion {
        Conditional(left, c, o);
      } else {
        Call(left, c, o, canAssign);
      }
    }

    method InfixOperator(op: BinOp, ghost left: Expr, ghost c: seq<Value>, ghost o: Output)
      requires !hasError && Ready(left, c, o)
      modifies this
      ensures var p := ParsePrec(old(toks), OpPrec(op) + 1);
              Built(if p.Fail? then Fail else Ok(Infix(op, left, p.tree), p.rest), c, o)
      decreases |toks|, 4
    {
      hide DoneE, ParsePrec, CallOp, AcceptE, ConstsE, Grows;
      ghost var p := ParsePrec(toks, OpPrec(op) + 1);
      if p.Ok? {
        AcceptInfix(op, left, p.tree, Names(), mods, c);
      }
      ParsePrecedence(OpPrec(op) + 1);
      if hasError {
        return;
      }
      ghost var T1, o2 := T(), Out();
      CallMethod(1, InfixSig(op));
      GrowsTrans(old(T()), T1, T());
      DoneStable(left, Names(), old(T()), T(), o, old(Out()));
      DoneStable(p.tree, Names(), T1, T(), old(Out()), o2);
      InfixParts(op, left, p.tree, Names(), T(), o, old(Out()), o2);
    }

    /** `&&` and `||`: jump over the right operand. */
    method Logic(op: byte, ghost left: Expr, ghost c: seq<Value>, ghost o: Output)
      requires op == CODE_AND || op == CODE_OR
      requires !hasError && Ready(left, c, o)
      modifies this
      ensures var p := ParsePrec(old(toks), if op == CODE_AND then PREC_LOGICAL_AND else PREC_LOGICAL_OR);
              Built(if p.Fail? then Fail
                    else Ok(if op == CODE_AND then And(left, p.tree) else Or(left, p.tree), p.rest), c, o)
      decreases |toks|, 4
    {
      hide DoneE, ParsePrec, Patch, AcceptE, ConstsE, Grows;
      ghost var p := ParsePrec(toks, if op == CODE_AND then PREC_LOGICAL_AND else PREC_LOGICAL_OR);
      if p.Ok? {
        AcceptLogic(left, p.tree, Names(), mods, c);
      }
      var jump := EmitJump(op);
      ParsePrecedence(if op == CODE_AND then PREC_LOGICAL_AND else PREC_LOGICAL_OR);
      if hasError {
        return;
      }
      DoneStable(left, Names(), old(T()), T(), o, old(Out()));
      DoneLogic(if op == CODE_AND then And(left, p.tree) else Or(left, p.tree), left, p.tree, op, Names(), T(), o,
                old(Out()), Out());
      LenDone(p.tree, Names(), T(), EmitHole(old(Out()), op), Out());
      PatchJump(jump);
    }

    /** `?:`, with its asymmetric branches. */
    method Conditional(ghost left: Expr, ghost c: seq<Value>, ghost o: Output)
      requires !hasError && Ready(left, c, o)
      modifies this
      ensures Built(ParseBranches(left, old(toks)), c, o)
      decreases |toks|, 4
    {
      hide DoneE, ParsePrec, Patch, AcceptE, ConstsE, LenE, EmitHole, Grows, ParseBranches, ParseElse, T;
      ghost var t := ParsePrec(toks, PREC_CONDITIONAL);
      FirstRefused(left, toks, Names(), mods, c);
      var ifJump := EmitJump(CODE_JUMP_IF);
      ParsePrecedence(PREC_CONDITIONAL);
      if hasError {
        return;
      }
      ghost var T1 := T();
      DoneStable(left, Names(), old(T()), T1, o, old(Out()));
      Colon(left, t.tree, c, o, old(Out()), ifJump);
      if !hasError {
        GrowsTrans(old(T()), T1, T());
      }
    }

    method Colon(ghost left: Expr, ghost t: Expr, ghost c: seq<Value>, ghost o: Output, ghost o1: Output, ifJump: nat)
      requires !hasError && ifJump == |o1.code| + 1
      requires DoneE(left, Names(), T(), o, o1) && AcceptE(left, Names(), mods, c)
      requires Ready(t, ConstsE(left, c), EmitHole(o1, CODE_JUMP_IF))
      modifies this
      ensures Built(ParseElse(left, t, old(toks)), c, o)
      decreases |toks|, 6
    {
      hide DoneE, ParsePrec, AcceptE, ConstsE, EmitHole, Grows, T, Names, Out;
      Consume(TColon);
      if hasError {
        return;
      }
      IgnoreNewlines();
      JumpOver(left, t, c, o, o1, ifJump);
    }

    /** The end of the first branch of `?:`: a jump over the second one, to which the first jump leads. */
    method JumpOver(ghost left: Expr, ghost t: Expr, ghost c: seq<Value>, ghost o: Output, ghost o1: Output,
                    ifJump: nat)
      requires !hasError && ifJump == |o1.code| + 1
      requires DoneE(left, Names(), T(), o, o1) && AcceptE(left, Names(), mods, c)
      requires Ready(t, ConstsE(left, c), EmitHole(o1, CODE_JUMP_IF))
      modifies this
      ensures var f := ParsePrec(old(toks), PREC_ASSIGNMENT);
              Built(if f.Fail? then Fail else Ok(Cond(left, t, f.tree), f.rest), c, o)
      decreases |toks|, 5
    {
      hide DoneE, ParsePrec, Patch, AcceptE, ConstsE, LenE, EmitHole, Grows;
      GrowsSelf(T());
      ghost var f, T1, o2 := ParsePrec(toks, PREC_ASSIGNMENT), T(), Out();
      if f.Ok? {
        AcceptCond(left, t, f.tree, Names(), mods, c);
      }
      var elseJump := EmitJump(CODE_JUMP);
      LenDone(t, Names(), T(), EmitHole(o1, CODE_JUMP_IF), o2);
      HoleFacts(o1, CODE_JUMP_IF);
      HoleFacts(o2, CODE_JUMP);
      PatchJump(ifJump);
      if hasError {
        return;
      }
      ElseBranch(left, t, c, o, o1, o2, T1, elseJump);
    }

    /** The second branch of `?:`, once the jump to it is patched, and the jump over it. */
    method ElseBranch(ghost left: Expr, ghost t: Expr, ghost c: seq<Value>, ghost o: Output, ghost o1: Output,
                      ghost o2: Output,
                      ghost T1: Tables, elseJump: nat)
      requires !hasError && Grows(T1, T()) && elseJump == |o2.code| + 1
      requires DoneE(left, Names(), T(), o, o1) && DoneE(t, Names(), T1, EmitHole(o1, CODE_JUMP_IF), o2)
      requires AcceptE(left, Names(), mods, c) && AcceptE(t, Names(), mods, ConstsE(left, c))
      requires consts == ConstsE(t, ConstsE(left, c)) && LenE(t, Names()) + 3 <= MAX_JUMP
      requires var jumped := EmitHole(o2, CODE_JUMP);
               |o1.code| + 3 <= |jumped.code| && Out() == Patch(jumped, |o1.code| + 1)
      modifies this
      ensures var f := ParsePrec(old(toks), PREC_ASSIGNMENT);
              Built(if f.Fail? then Fail else Ok(Cond(left, t, f.tree), f.rest), c, o)
      decreases |toks|, 4
    {
      hide DoneE, ParsePrec, Patch, EmitHole, AcceptE, ConstsE, LenE, Grows;
      ghost var f, o3 := ParsePrec(toks, PREC_ASSIGNMENT), Out();
      if f.Ok? {
        AcceptCond(left, t, f.tree, Names(), mods, c);
      }
      JumpedSize(o1, o2);
      ParsePrecedence(PREC_ASSIGNMENT);
      if hasError {
        return;
      }
      DoneStable(left, Names(), old(T()), T(), o, o1);
      GrowsTrans(T1, old(T()), T());
      DoneStable(t, Names(), T1, T(), EmitHole(o1, CODE_JUMP_IF), o2);
      DoneCond(left, t, f.tree, Names(), T(), o, o1, o2, Out());
      LenDone(f.tree, Names(), T(), o3, Out());
      PatchJump(elseJump);
    }

    /** A getter or setter call, after the `.` */
    method Call(ghost left: Expr, ghost c: seq<Value>, ghost o: Output, canAssign: bool)
      requires !hasError && Ready(left, c, o)
      modifies this
      ensures Built(ParseCall(left, old(toks), canAssign), c, o)
      decreases |toks|, 6
    {
      hide DoneE, ParseExpr, AcceptE, ConstsE, Grows, T, Names, Out;
      var name := ConsumeName();
      if hasError {
        return;
      }
      NamedCall(name, left, c, o, canAssign);
    }

    method NamedCall(name: string, ghost left: Expr, ghost c: seq<Value>, ghost o: Output, canAssign: bool)
      requires !hasError && Ready(left, c, o)
      modifies this
      ensures Built(ParseNamedCall(left, name, old(toks), canAssign), c, o)
      decreases |toks|, 5
    {
      hide DoneE, ParseExpr, AcceptE, ConstsE, Grows, T, Names, Out;
      if |name| > MAX_METHOD_NAME {
        LongName(left, name, toks, canAssign, Names(), mods, c);
        hasError := true;
        return;
      }
      if canAssign && Peek(toks) == TEq {
        NextToken();
        IgnoreNewlines();
        SetterCall(name, left, c, o);
      } else if Peek(toks) == TLeftParen || Peek(toks) == TLeftBrace {
        hasError := true;
      } else {
        GetterCall(name, left, c, o);
      }
    }

    method GetterCall(name: string, ghost left: Expr, ghost c: seq<Value>, ghost o: Output)
      requires !hasError && Ready(left, c, o) && |name| <= MAX_METHOD_NAME
      modifies this`sigs, this`code, this`numSlots, this`maxSlots
      ensures Built(Ok(Getter(left, name), toks), c, o)
    {
      hide DoneE, CallOp, AcceptE, ConstsE, Grows;
      AcceptGetter(left, name, Names(), mods, c);
      CallMethod(0, name);
      DoneStable(left, Names(), old(T()), T(), o, old(Out()));
      GetterParts(name, left, Names(), T(), o, old(Out()));
    }

    /** The value assigned through a setter, and the call. */
    method SetterCall(name: string, ghost left: Expr, ghost c: seq<Value>, ghost o: Output)
      requires !hasError && Ready(left, c, o) && |name| <= MAX_METHOD_NAME
      modifies this
      ensures var e := ParseExpr(old(toks));
              Built(if e.Fail? then Fail else Ok(Setter(left, name, e.tree), e.rest), c, o)
      decreases |toks|, 4
    {
      hide DoneE, ParseExpr, CallOp, AcceptE, ConstsE, Grows;
      ghost var e := ParseExpr(toks);
      if e.Ok? {
        AcceptSetter(left, name, e.tree, Names(), mods, c);
      }
      Expression();
      if hasError {
        return;
      }
      ghost var T1, o2 := T(), Out();
      CallMethod(1, SetterSig(name));
      GrowsTrans(old(T()), T1, T());
      DoneStable(left, Names(), old(T()), T(), o, old(Out()));
      DoneStable(e.tree, Names(), T1, T(), old(Out()), o2);
      SetterParts(name, left, e.tree, Names(), T(), o, old(Out()), o2);
    }

    // ----- Loops and their breaks --------------------------------------------------------------------

    /** Walks the instructions from the loop's body to the end of the code and turns every pending
        break into a jump to the end of the code. Operand bytes equal to CODE_END are stepped over. */
    method PatchPending(ghost before: seq<byte>, ghost ins: seq<Instr>)
      requires !hasError && code == before + Bytes(ins) && Walkable(ins)
      requires loop.Loop? && loop.body == |before| && Size(ins) <= MAX_JUMP
      modifies this`code, this`hasError
      ensures !hasError && code == before + Bytes(PatchBreaks(ins, 0))
    {
      hide Walked, PatchBreaks, Bytes, Patch, Size;
      BytesSize(ins);
      var i := loop.body;
      ghost var k := 0;
      WalkStart(before, ins);
      WalkEnd(before, ins, k, i, code);
      while i < |code|
        invariant !hasError && k <= |ins| && |before| <= i && |code| == |before| + Size(ins)
        invariant Walked(before, ins, k, i, code)
        invariant i >= |code| <==> k == |ins|
        decreases |ins| - k
      {
        WalkHere(before, ins, k, i, code);
        if code[i] == CODE_END {
          WalkPatch(before, ins, k, i, code, numSlots, maxSlots);
          code := code[i := CODE_JUMP];
          PatchFacts(Out(), i + 1);
          PatchJump(i + 1);
          i := i + 3;
        } else {
          WalkSkip(before, ins, k, i, code);
          i := i + 1 + NumArguments(code[i]);
        }
        k := k + 1;
        WalkEnd(before, ins, k, i, code);
      }
      WalkEnd(before, ins, k, i, code);
    }

    /** Emits the jump back, patches the exit and the breaks, and leaves the loop. The loop's code
        since `before` is its exit test, still a placeholder, and `bind` and `body` after it. */
    method EndLoop(ghost before: seq<byte>, ghost bind: seq<Instr>, ghost body: seq<Instr>)
      requires !hasError && loop.Loop? && -1 <= loop.start < |before|
      requires code == before + [CODE_JUMP_IF, 255, 255] + Bytes(bind) + Bytes(body) && Walkable(body)
      requires loop.exitJump == |before| + 1 && loop.body == |before| + 3 + Size(bind)
      modifies this`code, this`numSlots, this`maxSlots, this`hasError, this`loop
      ensures hasError <==> Size(bind) + Size(body) + 3 > MAX_JUMP
      ensures !hasError ==> loop == old(loop).enclosing
      ensures !hasError ==>
        var n := Size(bind) + Size(body);
        Out() == Output(before + Bytes([ShortOp(CODE_JUMP_IF, n + 3)]) + Bytes(bind) + Bytes(PatchBreaks(body, 3))
                        + Bytes([ShortOp(CODE_LOOP, |before| - (old(loop).start + 1) + 3 + n + 3)]),
                        old(numSlots), Max(old(maxSlots), old(numSlots)))
    {
      hide ShortOp, PatchBreaks, Walkable, Patch, U16, Bytes, Size;
      var loopOffset := |code| - loop.start + 2;
      BytesSize(bind);
      BytesSize(body);
      EmitShortArg(CODE_LOOP, loopOffset);
      ghost var back, n := [ShortOp(CODE_LOOP, loopOffset)], Size(bind) + Size(body);
      ShortSize(CODE_LOOP, loopOffset);
      BytesAppend(body, back);
      AppendCode(before + [CODE_JUMP_IF, 255, 255] + Bytes(bind), body, back);
      ExitPatched(before, bind, body + back, Out());
      PatchJump(loop.exitJump);
      if hasError {
        return;
      }
      ghost var head := before + Bytes([ShortOp(CODE_JUMP_IF, n + 3)]) + Bytes(bind);
      ShortSize(CODE_JUMP_IF, n + 3);
      BytesSize([ShortOp(CODE_JUMP_IF, n + 3)]);
      WalkBack(body, loopOffset);
      PatchPending(head, body + back);
      AppendCode(head, PatchBreaks(body, 3), back);
      loop := loop.enclosing;
    }

    // ----- Scopes ------------------------------------------------------------------------------------

    /** The locals a `break` keeps. */
    function Base(): nat
      reads this`loop, this`locals
    {
      if loop.NoLoop? then 0 else Kept(locals, loop.scopeDepth + 1)
    }

    /** Every local belongs to the current scope or an outer one, so does the innermost loop, and the
        high water mark has been kept up. */
    predicate Scoped()
      reads this`locals, this`scopeDepth, this`loop, this`numSlots, this`maxSlots
    {
      && (forall i :: 0 <= i < |locals| ==> locals[i].depth <= scopeDepth)
      && (loop.Loop? ==> loop.scopeDepth <= scopeDepth)
      && numSlots <= maxSlots
    }

    /** Emits the pops for the locals at `depth` or deeper, without accounting for them: after a
        `break` they are still in scope. */
    method DiscardLocals(depth: int) returns (popped: nat)
      modifies this`code
      ensures popped == |locals| - Kept(locals, depth)
      ensures code == old(code) + Bytes(Pops(popped))
    {
      var local := |locals|;
      popped := 0;
      assert locals[..|locals|] == locals;
      BytesNothing(code);
      assert Pops(0) == [];
      while local > 0 && locals[local - 1].depth >= depth
        invariant 0 <= local <= |locals| && popped == |locals| - local
        invariant Kept(locals, depth) == Kept(locals[..local], depth)
        invariant code == old(code) + Bytes(Pops(popped))
      {
        EmitByte(CODE_POP);
        AppendCode(old(code), Pops(popped), [Op(CODE_POP)]);
        BytesOne(Op(CODE_POP));
        assert Pops(popped) + [Op(CODE_POP)] == Pops(popped + 1);
        assert locals[..local][..local - 1] == locals[..local - 1];
        local := local - 1;
        popped := popped + 1;
      }
    }

    /** Closes the innermost scope. */
    method PopScope()
      modifies this`code, this`locals, this`numSlots, this`scopeDepth
      ensures var n := |old(locals)| - Kept(old(locals), old(scopeDepth));
              && locals == old(locals)[..Kept(old(locals), old(scopeDepth))]
              && Out() == Output(old(code) + Bytes(Pops(n)), old(numSlots) - n, old(maxSlots))
              && scopeDepth == old(scopeDepth) - 1
    {
      var popped := DiscardLocals(scopeDepth);
      locals := locals[..|locals| - popped];
      numSlots := numSlots - popped;
      scopeDepth := scopeDepth - 1;
    }

    method AddLocal(x: string)
      modifies this`locals
      ensures locals == old(locals) + [Local(x, scopeDepth)]
    {
      locals := locals + [Local(x, scopeDepth)];
    }

    /** A variable must be new in the current scope, and there is room for 256 of them. */
    method DeclareVariable(x: string)
      requires !hasError
      modifies this`locals, this`hasError
      ensures hasError <==>
                !FreshName(x, LocalNames(old(locals))[Kept(old(locals), scopeDepth)..]) || |old(locals)| == MAX_LOCALS
      ensures locals == if hasError then old(locals) else old(locals) + [Local(x, scopeDepth)]
    {
      if |x| > MAX_VARIABLE_NAME {
        hasError := true;
        return;
      }
      var i := |locals|;
      assert locals[..|locals|] == locals;
      while i > 0 && locals[i - 1].depth >= scopeDepth
        invariant 0 <= i <= |locals| && !hasError
        invariant Kept(locals, scopeDepth) == Kept(locals[..i], scopeDepth)
        invariant forall j :: i <= j < |locals| ==> locals[j].name != x
      {
        assert locals[..i][..i - 1] == locals[..i - 1];
        i := i - 1;
        if locals[i].name == x {
          hasError := true;
          assert Names()[i] == x;
          return;
        }
      }
      if |locals| == MAX_LOCALS {
        hasError := true;
        return;
      }
      AddLocal(x);
    }

    // ----- Statements --------------------------------------------------------------------------------

    /** What compiling a statement promises: there is an error exactly when the tokens are not a statement
        or it is not acceptable; otherwise exactly its code has been appended, its breaks still pending,
        and the scope is as it was. */
    twostate predicate CompiledS(new p: Parsed<Stmt>)
      reads this
    {
      BuiltS(p, old(consts), old(Out()))
    }

    /** The statement `p.tree` has been compiled since the output was `o` and the constants were `c`. */
    twostate predicate BuiltS(new p: Parsed<Stmt>, new c: seq<Value>, new o: Output)
      reads this
    {
      && (hasError <==> p.Fail? || !AcceptS(p.tree, old(Names()), mods, c, old(Base()), old(loop).Loop?))
      && (!hasError ==>
            && SameScope() && numSlots <= maxSlots && toks == p.rest && consts == ConstsS(p.tree, c)
            && DoneS(p.tree, Names(), T(), Base(), loop.Loop?, o, Out()))
    }

    /** `(` expression `)` */
    method Parenthesized()
      requires !hasError
      modifies this
      ensures Compiled(ParseParen(old(toks)))
      decreases |toks|, 0
    {
      hide DoneE, ParseExpr, AcceptE, ConstsE, Grows;
      Consume(TLeftParen);
      if hasError {
        return;
      }
      Expression();
      if hasError {
        return;
      }
      Consume(TRightParen);
    }

    method Statement()
      requires !hasError && Scoped()
      modifies this
      ensures CompiledS(ParseStmt(old(toks)))
      decreases |toks|, 6
    {
      hide DoneS, ParseExprStmt, ParseIf, ParseReturn, ParseWhile, ParseBlockStmt, ParseFor, GenS, Kept, AcceptS,
           ConstsS, Grows, T, Names, Out, Base, Scoped;
      if Peek(toks) == TBreak {
        NextToken();
        BreakStatement();
      } else if Peek(toks) == TFor {
        NextToken();
        ForStatement();
      } else if Peek(toks) == TIf {
        NextToken();
        IfStatement();
      } else if Peek(toks) == TReturn {
        NextToken();
        ReturnStatement();
      } else if Peek(toks) == TWhile {
        NextToken();
        WhileStatement();
      } else if Peek(toks) == TLeftBrace {
        NextToken();
        BlockStatement();
      } else {
        ExpressionStatement();
      }
    }

    method ExpressionStatement()
      requires !hasError && Scoped()
      modifies this
      ensures CompiledS(ParseExprStmt(old(toks)))
      decreases |toks|, 5
    {
      hide DoneE, DoneS, ParseExpr, AcceptE, ConstsE, AcceptS, ConstsS, Grows, Kept;
      ghost var e := ParseExpr(toks);
      if e.Ok? {
        AcceptSimple(e.tree, Names(), mods, consts, Base(), loop.Loop?);
      }
      Expression();
      if hasError {
        return;
      }
      ghost var o1 := Out();
      EmitOp(CODE_POP);
      ExprSParts(e.tree, Names(), T(), Base(), loop.Loop?, old(Out()), o1);
    }

    method ReturnStatement()
      requires !hasError && Scoped()
      modifies this
      ensures CompiledS(ParseReturn(old(toks)))
      decreases |toks|, 5
    {
      hide DoneE, DoneS, ParseExpr, AcceptE, ConstsE, AcceptS, ConstsS, Grows, Kept;
      ghost var p := ParseReturn(toks);
      if p.Ok? {
        AcceptSimple(p.tree.e, Names(), mods, consts, Base(), loop.Loop?);
      }
      GrowsSelf(T());
      if Peek(toks) == TLine {
        Singleton(NullLit, CODE_NULL);
      } else {
        Expression();
        if hasError {
          return;
        }
      }
      ghost var o1 := Out();
      EmitOp(CODE_RETURN);
      ReturnParts(p.tree.e, Names(), T(), Base(), loop.Loop?, old(Out()), o1);
    }

    method BreakStatement()
      requires !hasError && Scoped()
      modifies this
      ensures CompiledS(Ok(Break, old(toks)))
      decreases |toks|, 5
    {
      hide DoneS, AcceptE, ConstsE, AcceptS, ConstsS, Grows;
      AcceptSimple(NullLit, Names(), mods, consts, Base(), loop.Loop?);
      GrowsSelf(T());
      if loop.NoLoop? {
        hasError := true;
        return;
      }
      var popped := DiscardLocals(loop.scopeDepth + 1);
      var hole := EmitJump(CODE_END);
      BreakParts(Names(), T(), Base(), old(Out()));
    }

    method IfStatement()
      requires !hasError && Scoped()
      modifies this
      ensures CompiledS(ParseIf(old(toks)))
      decreases |toks|, 5
    {
      hide DoneE, DoneS, ParseExpr, ParseParen, ParseStmt, EmitHole, Kept, AcceptE, ConstsE, AcceptS, ConstsS, LenS,
           Grows;
      ghost var c, p := ParseParen(toks), ParseIf(toks);
      if p.Ok? {
        AcceptIf(c.tree, p.tree.t, if p.tree.IfElse? then p.tree.f else Break, Names(), mods, consts, Base(),
                 loop.Loop?);
      }
      Parenthesized();
      if hasError {
        return;
      }
      ghost var T1 := T();
      SlotsWithin(c.tree, Names(), T1, old(Out()), Out());
      Branches(c.tree, old(consts), old(Out()));
      if !hasError {
        GrowsTrans(old(T()), T1, T());
      }
    }

    /** What follows the condition of an `if`, which has been compiled since `o`. */
    method Branches(ghost c: Expr, ghost k: seq<Value>, ghost o: Output)
      requires !hasError && Scoped() && Ready(c, k, o)
      modifies this
      ensures BuiltS(ParseBranchesS(c, old(toks)), k, o)
      decreases |toks|, 7
    {
      hide DoneE, DoneS, ParseStmt, EmitHole, Kept, AcceptE, ConstsE, AcceptS, ConstsS, LenS, Grows, ParseBranchesS,
           ParseElseS;
      ghost var o1, t := Out(), ParseStmt(toks);
      ThenRefused(c, toks, Names(), mods, k, Base(), loop.Loop?);
      var ifJump := EmitJump(CODE_JUMP_IF);
      HoleFacts(o1, CODE_JUMP_IF);
      Statement();
      if hasError {
        return;
      }
      ghost var T1 := T();
      DoneStable(c, Names(), old(T()), T1, o, o1);
      AfterThen(c, t.tree, k, o, o1, ifJump);
      if !hasError {
        GrowsTrans(old(T()), T1, T());
      }
    }

    /** What follows the first branch of an `if`. */
    method AfterThen(ghost c: Expr, ghost t: Stmt, ghost k: seq<Value>, ghost o: Output, ghost o1: Output, ifJump: nat)
      requires !hasError && Scoped() && ifJump == |o1.code| + 1
      requires DoneE(c, Names(), T(), o, o1) && AcceptE(c, Names(), mods, k) && consts == ConstsS(t, ConstsE(c, k))
      requires AcceptS(t, Names(), mods, ConstsE(c, k), Base(), loop.Loop?)
      requires DoneS(t, Names(), T(), Base(), loop.Loop?, EmitHole(o1, CODE_JUMP_IF), Out())
      modifies this
      ensures BuiltS(ParseElseS(c, t, old(toks)), k, o)
      decreases |toks|, 9
    {
      hide DoneE, DoneS, ParseStmt, EmitHole, Kept, AcceptE, ConstsE, AcceptS, ConstsS, LenS, Grows, T, Names, Out;
      if Peek(toks) == TElse {
        ElseClause(c, t, k, o, o1, ifJump);
      } else {
        EndIf(c, t, k, o, o1, ifJump);
      }
    }

    /** An `if` without `else`. */
    method EndIf(ghost c: Expr, ghost t: Stmt, ghost k: seq<Value>, ghost o: Output, ghost o1: Output, ifJump: nat)
      requires !hasError && Scoped() && ifJump == |o1.code| + 1
      requires DoneE(c, Names(), T(), o, o1) && AcceptE(c, Names(), mods, k) && consts == ConstsS(t, ConstsE(c, k))
      requires AcceptS(t, Names(), mods, ConstsE(c, k), Base(), loop.Loop?)
      requires DoneS(t, Names(), T(), Base(), loop.Loop?, EmitHole(o1, CODE_JUMP_IF), Out())
      modifies this`code, this`hasError
      ensures BuiltS(Ok(IfThen(c, t), toks), k, o)
    {
      hide DoneE, DoneS, Kept, AcceptE, ConstsE, AcceptS, ConstsS, LenS, Grows, Patch;
      AcceptIf(c, t, Break, Names(), mods, k, Base(), loop.Loop?);
      IfThenParts(c, t, Names(), T(), Base(), loop.Loop?, o, o1, Out());
      LenDoneS(t, Names(), T(), Base(), loop.Loop?, EmitHole(o1, CODE_JUMP_IF), Out());
      PatchFacts(Out(), ifJump);
      GrowsSelf(T());
      PatchJump(ifJump);
    }

    /** The `else` branch, its jump over it and the jump to it. */
    method ElseClause(ghost c: Expr, ghost t: Stmt, ghost k: seq<Value>, ghost o: Output, ghost o1: Output, ifJump: nat)
      requires !hasError && Scoped() && ifJump == |o1.code| + 1
      requires DoneE(c, Names(), T(), o, o1) && AcceptE(c, Names(), mods, k) && consts == ConstsS(t, ConstsE(c, k))
      requires AcceptS(t, Names(), mods, ConstsE(c, k), Base(), loop.Loop?)
      requires DoneS(t, Names(), T(), Base(), loop.Loop?, EmitHole(o1, CODE_JUMP_IF), Out())
      modifies this
      ensures var f := ParseStmt(Next(old(toks)));
              BuiltS(if f.Fail? then Fail else Ok(IfElse(c, t, f.tree), f.rest), k, o)
      decreases |toks|, 8
    {
      hide DoneE, DoneS, ParseStmt, Patch, EmitHole, Kept, AcceptE, ConstsE, AcceptS, ConstsS, LenS, Grows;
      NextToken();
      ghost var o2, f := Out(), ParseStmt(toks);
      if f.Ok? {
        AcceptIf(c, t, f.tree, Names(), mods, k, Base(), loop.Loop?);
      }
      LenDoneS(t, Names(), T(), Base(), loop.Loop?, EmitHole(o1, CODE_JUMP_IF), o2);
      HoleFacts(o1, CODE_JUMP_IF);
      var elseJump := EmitJump(CODE_JUMP);
      HoleFacts(o2, CODE_JUMP);
      PatchFacts(EmitHole(o2, CODE_JUMP), ifJump);
      PatchJump(ifJump);
      if hasError {
        return;
      }
      ElseStatement(c, t, k, o, o1, o2, T(), elseJump);
    }

    /** The `else` branch, once the jump to it is patched, and the jump over it. */
    method ElseStatement(ghost c: Expr, ghost t: Stmt, ghost k: seq<Value>, ghost o: Output, ghost o1: Output,
                         ghost o2: Output,
                         ghost T2: Tables, elseJump: nat)
      requires !hasError && Scoped() && T2 == T() && elseJump == |o2.code| + 1
      requires DoneE(c, Names(), T2, o, o1) && AcceptE(c, Names(), mods, k) && consts == ConstsS(t, ConstsE(c, k))
      requires AcceptS(t, Names(), mods, ConstsE(c, k), Base(), loop.Loop?) && LenS(t, Names(), Base()) + 3 <= MAX_JUMP
      requires DoneS(t, Names(), T2, Base(), loop.Loop?, EmitHole(o1, CODE_JUMP_IF), o2)
      requires var jumped := EmitHole(o2, CODE_JUMP);
               |o1.code| + 3 <= |jumped.code| && Out() == Patch(jumped, |o1.code| + 1)
      modifies this
      ensures var f := ParseStmt(old(toks));
              BuiltS(if f.Fail? then Fail else Ok(IfElse(c, t, f.tree), f.rest), k, o)
      decreases |toks|, 7
    {
      hide DoneE, DoneS, ParseStmt, Patch, EmitHole, Kept, AcceptE, ConstsE, AcceptS, ConstsS, LenS, Grows;
      ghost var o3, f := Out(), ParseStmt(toks);
      if f.Ok? {
        AcceptIf(c, t, f.tree, Names(), mods, k, Base(), loop.Loop?);
      }
      Statement();
      if hasError {
        return;
      }
      DoneStable(c, Names(), T2, T(), o, o1);
      DoneStableS(t, Names(), T2, T(), Base(), loop.Loop?, EmitHole(o1, CODE_JUMP_IF), o2);
      EndElse(c, t, f.tree, k, o, o1, o2, o3, elseJump);
    }

    method EndElse(ghost c: Expr, ghost t: Stmt, ghost f: Stmt, ghost k: seq<Value>, ghost o: Output, ghost o1: Output,
                   ghost o2: Output, ghost o3: Output, elseJump: nat)
      requires !hasError && elseJump == |o2.code| + 1 && numSlots <= maxSlots
      requires DoneE(c, Names(), T(), o, o1)
               && DoneS(t, Names(), T(), Base(), loop.Loop?, EmitHole(o1, CODE_JUMP_IF), o2)
      requires var jumped := EmitHole(o2, CODE_JUMP);
               |o1.code| + 3 <= |jumped.code| && o3 == Patch(jumped, |o1.code| + 1)
      requires DoneS(f, Names(), T(), Base(), loop.Loop?, o3, Out())
      modifies this`code, this`hasError
      ensures hasError <==> LenS(f, Names(), Base()) > MAX_JUMP
      ensures numSlots <= maxSlots && DoneS(IfElse(c, t, f), Names(), T(), Base(), loop.Loop?, o, Out())
    {
      hide DoneE, DoneS, Patch, EmitHole, Kept, LenS;
      IfElseParts(c, t, f, Names(), T(), Base(), loop.Loop?, o, o1, o2, Out());
      LenDoneS(f, Names(), T(), Base(), loop.Loop?, o3, Out());
      HoleFacts(o2, CODE_JUMP);
      PatchFacts(EmitHole(o2, CODE_JUMP), |o1.code| + 1);
      PatchFacts(Out(), elseJump);
      PatchJump(elseJump);
    }

    method WhileStatement()
      requires !hasError && Scoped()
      modifies this
      ensures CompiledS(ParseWhile(old(toks)))
      decreases |toks|, 5
    {
      hide DoneE, DoneS, ParseExpr, ParseParen, ParseStmt, Kept, AcceptE, ConstsE, AcceptS, ConstsS, LenS, Grows;
      ghost var c, p := ParseParen(toks), ParseWhile(toks);
      if p.Ok? {
        AcceptWhile(c.tree, p.tree.body, Names(), mods, consts, Base(), loop.Loop?);
      }
      loop := Loop(|code| - 1, 0, 0, scopeDepth, loop);
      Parenthesized();
      if hasError {
        return;
      }
      ghost var T1 := T();
      DoneLonger(c.tree, Names(), T(), old(Out()), Out());
      SlotsWithin(c.tree, Names(), T(), old(Out()), Out());
      WhileBody(c.tree, old(Out()));
      if !hasError {
        GrowsTrans(old(T()), T1, T());
      }
    }

    /** The exit test, body and end of the loop whose condition has been compiled since `o`. */
    method WhileBody(ghost c: Expr, ghost o: Output)
      requires !hasError && Scoped() && loop.Loop? && loop.scopeDepth == scopeDepth
      requires loop.start == |o.code| - 1 && |o.code| <= |code| && DoneE(c, Names(), T(), o, Out())
      requires loop.enclosing.Loop? ==> loop.enclosing.scopeDepth <= scopeDepth
      modifies this
      ensures var b := ParseStmt(old(toks));
              hasError <==> b.Fail? || !AcceptS(b.tree, old(Names()), mods, old(consts), |old(locals)|, true)
                            || LenS(b.tree, old(Names()), |old(locals)|) + 3 > MAX_JUMP
      ensures !hasError ==>
        var b := ParseStmt(old(toks));
        && locals == old(locals) && scopeDepth == old(scopeDepth) && loop == old(loop).enclosing
        && Grows(old(T()), T()) && numSlots <= maxSlots && toks == b.rest && consts == ConstsS(b.tree, old(consts))
        && DoneS(While(c, b.tree), Names(), T(), Base(), loop.Loop?, o, Out())
      decreases |toks|, 7
    {
      hide DoneE, DoneS, ParseStmt, EmitHole, PatchBreaks, ShortOp, GenS, Walkable, Kept, Size, AcceptS, ConstsS, LenS,
           Grows;
      ghost var o1, b := Out(), ParseStmt(toks);
      var exitJump := EmitJump(CODE_JUMP_IF);
      HoleFacts(o1, CODE_JUMP_IF);
      loop := loop.(exitJump := exitJump, body := |code|);
      KeptAll(locals, scopeDepth);
      Statement();
      if hasError {
        return;
      }
      ghost var o2 := Out();
      ghost var bc := GenS(b.tree, Names(), T(), |locals|, Pending);
      SizeS(b.tree, Names(), T(), |locals|, Pending);
      SizeNothing();
      DoneStable(c, Names(), old(T()), T(), o, o1);
      WalkS(b.tree, Names(), T(), |locals|, Pending);
      LoopReady(o1, b.tree, Names(), T(), |locals|, o2);
      EndLoop(o1.code, [], bc);
      if hasError {
        return;
      }
      WhileParts(c, b.tree, Names(), T(), Base(), loop.Loop?, o, o1, o2);
      PatchedSize(bc, 3);
      BytesNothing(o1.code + Bytes([ShortOp(CODE_JUMP_IF, Size(bc) + 3)]));
    }

    method BlockStatement()
      requires !hasError && Scoped()
      modifies this
      ensures CompiledS(ParseBlockStmt(old(toks)))
      decreases |toks|, 5
    {
      hide DoneE, DoneS, DoneB, ParseExpr, ParseBlock, Kept, AcceptE, ConstsE, AcceptS, ConstsS, AcceptB, ConstsB,
           Grows;
      ghost var b := ParseBlock(toks);
      if b.Ok? {
        AcceptSimple(if b.tree.ExprBody? then b.tree.e else NullLit, Names(), mods, consts, Base(), loop.Loop?);
        AcceptBlockS(if b.tree.Defs? then b.tree.b else Done, Names(), mods, consts, Base(), loop.Loop?);
      }
      KeptAll(locals, scopeDepth);
      scopeDepth := scopeDepth + 1;
      var isExpr, more := FinishBlock();
      if hasError {
        return;
      }
      if isExpr {
        CloseExpr(b.tree.e, old(Out()));
      } else {
        CloseBlock(b.tree.b, old(locals), more, old(Out()));
      }
    }

    /** The end of a block that is an expression: its value is discarded. */
    method CloseExpr(ghost e: Expr, ghost o: Output)
      requires !hasError && Scoped() && DoneE(e, Names(), T(), o, Out())
      requires forall i :: 0 <= i < |locals| ==> locals[i].depth < scopeDepth
      modifies this`code, this`numSlots, this`maxSlots, this`locals, this`scopeDepth
      ensures locals == old(locals) && scopeDepth == old(scopeDepth) - 1 && numSlots <= maxSlots
      ensures DoneS(ExprS(e), Names(), T(), Base(), loop.Loop?, o, Out())
    {
      hide DoneE, DoneS;
      KeptAll(locals, scopeDepth - 1);
      ExprSParts(e, Names(), T(), Base(), loop.Loop?, o, Out());
      EmitOp(CODE_POP);
      assert Pops(0) == [];
      BytesNothing(code);
      PopScope();
    }

    /** The end of a block of definitions: the variables `more` they declared are discarded. */
    method CloseBlock(ghost b: Body, ghost outer: seq<Local>, ghost more: seq<Local>, ghost o: Output)
      requires !hasError && Scoped() && locals == outer + more && LocalNames(more) == Declared(b)
      requires forall i :: 0 <= i < |outer| ==> outer[i].depth < scopeDepth
      requires forall i :: 0 <= i < |more| ==> more[i].depth == scopeDepth
      requires loop.Loop? ==> loop.scopeDepth < scopeDepth
      requires var base := if loop.NoLoop? then 0 else Kept(outer, loop.scopeDepth + 1);
               DoneB(b, LocalNames(outer), T(), base, loop.Loop?, o, Out())
      modifies this`code, this`numSlots, this`maxSlots, this`locals, this`scopeDepth
      ensures locals == outer && scopeDepth == old(scopeDepth) - 1 && numSlots <= maxSlots
      ensures DoneS(Block(b), Names(), T(), Base(), loop.Loop?, o, Out())
    {
      hide DoneB, DoneS;
      KeptAll(outer, scopeDepth - 1);
      KeptAppend(outer, more, scopeDepth);
      ghost var base := if loop.NoLoop? then 0 else Kept(outer, loop.scopeDepth + 1);
      BlockParts(b, LocalNames(outer), T(), base, loop.Loop?, o, Out());
      PopScope();
      assert locals == outer;
    }

    /** What compiling definitions promises: there is an error exactly when the tokens are not definitions
        or one of them is not acceptable; otherwise their code is appended and the variables they declare
        are the last of the locals, in the current scope. */
    twostate predicate CompiledB(new p: Parsed<Body>, new more: seq<Local>)
      reads this
    {
      && (hasError <==> p.Fail? || !AcceptB(p.tree, old(Names()), Kept(old(locals), old(scopeDepth)), mods, old(consts),
                                            old(Base()), old(loop).Loop?))
      && (!hasError ==> DefinedB(p, more))
    }

    twostate predicate DefinedB(new p: Parsed<Body>, new more: seq<Local>)
      reads this
    {
      && locals == old(locals) + more && scopeDepth == old(scopeDepth) && loop == old(loop)
      && Grows(old(T()), T()) && Scoped()
      && (forall i :: 0 <= i < |more| ==> more[i].depth == scopeDepth)
      && p.Ok? && toks == p.rest && LocalNames(more) == Declared(p.tree) && consts == ConstsB(p.tree, old(consts))
      && DoneB(p.tree, LocalNames(old(locals)), T(), old(Base()), loop.Loop?, old(Out()), Out())
    }

    /** The inside of a block, after its `{`. Returns whether it was a single expression. */
    method FinishBlock() returns (isExpr: bool, ghost more: seq<Local>)
      requires !hasError && Scoped() && (loop.Loop? ==> loop.scopeDepth < scopeDepth)
      modifies this
      ensures var p := ParseBlock(old(toks));
              hasError <==> p.Fail? || !AcceptBlock(p.tree, old(Names()), Kept(old(locals), old(scopeDepth)), mods,
                                                    old(consts), old(Base()), old(loop).Loop?)
      ensures !hasError ==>
        var p := ParseBlock(old(toks));
        && isExpr == p.tree.ExprBody?
        && if isExpr then
             more == [] && SameScope() && numSlots <= maxSlots && toks == p.rest
               && Ready(p.tree.e, old(consts), old(Out()))
           else DefinedB(Ok(p.tree.b, p.rest), more)
      decreases |toks|, 4
    {
      hide DoneE, DoneB, ParseExpr, ParseDefs, AcceptE, ConstsE, AcceptB, ConstsB, Kept, Grows;
      isExpr, more := false, [];
      AcceptNone(Names(), Kept(locals, scopeDepth), mods, consts, Base(), loop.Loop?);
      DoneEmpty(Names(), T(), Base(), loop.Loop?, Out());
      GrowsSelf(T());
      assert locals + [] == locals;
      var empty := Match(TRightBrace);
      if empty {
        return;
      }
      if Peek(toks) != TLine {
        isExpr := true;
        BlockExpr();
        return;
      }
      IgnoreNewlines();
      empty := Match(TRightBrace);
      if empty {
        return;
      }
      more := Lines();
    }

    /** The definitions of a block and its `}`. */
    method Lines() returns (ghost more: seq<Local>)
      requires !hasError && Scoped() && (loop.Loop? ==> loop.scopeDepth < scopeDepth)
      modifies this
      ensures var b := ParseDefs(old(toks));
              CompiledB(if b.Fail? || Peek(b.rest) != TRightBrace then Fail else Ok(b.tree, Next(b.rest)), more)
      decreases |toks|, 10
    {
      hide DoneB, ParseDefs, AcceptB, ConstsB, Kept, Grows;
      more := Definitions();
      if hasError {
        return;
      }
      Consume(TRightBrace);
    }

    /** A block that is a single expression. */
    method BlockExpr()
      requires !hasError
      modifies this
      ensures var e := ParseExpr(old(toks));
              Compiled(if e.Fail? || Peek(e.rest) != TRightBrace then Fail else Ok(e.tree, Next(e.rest)))
      ensures !hasError ==> numSlots <= maxSlots
      decreases |toks|, 4
    {
      hide DoneE, ParseExpr, AcceptE, ConstsE, Grows;
      ghost var e := ParseExpr(toks);
      Expression();
      if hasError {
        return;
      }
      SlotsWithin(e.tree, Names(), T(), old(Out()), Out());
      Consume(TRightBrace);
    }

    /** The definitions of a block, each ended by a line, up to its `}`. */
    method Definitions() returns (ghost more: seq<Local>)
      requires !hasError && Scoped() && (loop.Loop? ==> loop.scopeDepth < scopeDepth)
      modifies this
      ensures CompiledB(ParseDefs(old(toks)), more)
      decreases |toks|, 9
    {
      hide DoneB, ParseDefs, ParseDef, Chain, Kept, Extend, LocalNames, Declared, AcceptB, ConstsB, Grows;
      ghost var prefix, en := Done, Entry(locals, Base(), T(), Out());
      more := [];
      AcceptNone(Names(), Kept(locals, scopeDepth), mods, consts, Base(), loop.Loop?);
      DoneEmpty(Names(), T(), Base(), loop.Loop?, Out());
      DeclaredNone();
      GrowsSelf(T());
      ExtendNone(ParseDefs(toks));
      assert locals + [] == locals;
      var going := true;
      while going
        invariant !hasError && scopeDepth == old(scopeDepth) && loop == old(loop)
        invariant Partly(prefix, more, en)
        invariant ParseDefs(old(toks)) == Extend(prefix, if going then ParseDefs(toks) else Ok(Done, toks))
        invariant |toks| <= |old(toks)|
        decreases |toks|, going
      {
        prefix, more := NextDefinition(prefix, more, en);
        if hasError {
          return;
        }
        going := Peek(toks) != TRightBrace && Peek(toks) != TEof;
      }
      ExtendDone(prefix, toks);
    }

    /** The definitions `prefix` have been compiled since `en`, and have declared `more`. */
    ghost predicate Partly(prefix: Body, more: seq<Local>, en: Entry)
      reads this
    {
      && Scoped() && (loop.Loop? ==> loop.scopeDepth < scopeDepth && en.base == Kept(en.outer, loop.scopeDepth + 1))
      && (loop.NoLoop? ==> en.base == 0)
      && locals == en.outer + more && (forall i :: 0 <= i < |more| ==> more[i].depth == scopeDepth)
      && Grows(en.T, T()) && LocalNames(more) == Declared(prefix)
      && AcceptB(prefix, LocalNames(en.outer), Kept(en.outer, scopeDepth), mods, en.T.consts, en.base, loop.Loop?)
      && consts == ConstsB(prefix, en.T.consts)
      && DoneB(prefix, LocalNames(en.outer), T(), en.base, loop.Loop?, en.o, Out())
    }

    /** One more definition and the end of its line. */
    method NextDefinition(ghost prefix: Body, ghost more: seq<Local>, ghost en: Entry)
      returns (ghost prefix': Body, ghost more': seq<Local>)
      requires !hasError && Partly(prefix, more, en)
      modifies this
      ensures hasError ==>
        var p := Extend(prefix, ParseDefs(old(toks)));
        p.Fail? || !AcceptB(p.tree, LocalNames(en.outer), Kept(en.outer, old(scopeDepth)), mods, en.T.consts, en.base,
                            old(loop).Loop?)
      ensures !hasError ==>
        && scopeDepth == old(scopeDepth) && loop == old(loop) && |toks| < |old(toks)|
        && Partly(prefix', more', en)
        && Extend(prefix, ParseDefs(old(toks)))
           == Extend(prefix', if Peek(toks) != TRightBrace
             && Peek(toks) != TEof then ParseDefs(toks) else Ok(Done, toks))
      decreases |toks|, 8
    {
      hide DoneB, ParseDefs, ParseDef, Chain, Kept, Extend, LocalNames, Declared, AcceptB, ConstsB, Grows;
      prefix', more' := prefix, more;
      ghost var d, ls, m := ParseDef(toks), LocalNames(en.outer), Kept(en.outer, scopeDepth);
      NamesAppend(en.outer, more);
      KeptAppend(en.outer, more, scopeDepth);
      if loop.Loop? {
        KeptAppend(en.outer, more, loop.scopeDepth + 1);
      }
      if d.Fail? || Peek(d.rest) != TLine
         || !AcceptB(d.tree, ls + Declared(prefix), m, mods, ConstsB(prefix, en.T.consts), en.base, loop.Loop?) {
        DefRefused(prefix, toks, ls, m, mods, en.T.consts, en.base, loop.Loop?);
      }
      ghost var m' := Definition();
      if hasError {
        return;
      }
      Consume(TLine);
      if hasError {
        return;
      }
      IgnoreNewlines();
      OneMoreDef(prefix, old(toks), d, toks);
      Joined(prefix, more, d.tree, m', en, old(T()), old(Out()));
      prefix', more' := Chain(prefix, d.tree), more + m';
    }

    /** Definitions and one more after them. */
    lemma Joined(prefix: Body, more: seq<Local>, d: Body, m': seq<Local>, en: Entry, T1: Tables, o1: Output)
      requires Scoped() && (loop.Loop? ==>
                 loop.scopeDepth < scopeDepth && en.base == Kept(en.outer, loop.scopeDepth + 1))
      requires loop.NoLoop? ==> en.base == 0
      requires locals == en.outer + more + m' && (forall i :: 0 <= i < |more| ==> more[i].depth == scopeDepth)
      requires forall i :: 0 <= i < |m'| ==> m'[i].depth == scopeDepth
      requires Grows(en.T, T1) && Grows(T1, T()) && LocalNames(more) == Declared(prefix)
               && LocalNames(m') == Declared(d)
      requires var ls, m := LocalNames(en.outer), Kept(en.outer, scopeDepth);
               && AcceptB(prefix, ls, m, mods, en.T.consts, en.base, loop.Loop?)
               && AcceptB(d, ls + Declared(prefix), m, mods, ConstsB(prefix, en.T.consts), en.base, loop.Loop?)
               && consts == ConstsB(d, ConstsB(prefix, en.T.consts))
               && DoneB(prefix, ls, T1, en.base, loop.Loop?, en.o, o1)
               && DoneB(d, ls + Declared(prefix), T(), en.base, loop.Loop?, o1, Out())
      ensures Partly(Chain(prefix, d), more + m', en)
    {
      hide DoneB, Chain, Kept, LocalNames, Declared, AcceptB, ConstsB, Grows;
      var ls, m := LocalNames(en.outer), Kept(en.outer, scopeDepth);
      GrowsTrans(en.T, T1, T());
      NamesAppend(more, m');
      DoneStableB(prefix, ls, T1, T(), en.base, loop.Loop?, en.o, o1);
      DoneChain(prefix, d, ls, T(), en.base, loop.Loop?, en.o, o1, Out());
      ChainDeclared(prefix, d);
      ChainAccept(prefix, d, ls, m, mods, en.T.consts, en.base, loop.Loop?);
      assert en.outer + more + m' == en.outer + (more + m');
    }

    /** `var` or a statement. */
    method Definition() returns (ghost more: seq<Local>)
      requires !hasError && Scoped() && (loop.Loop? ==> loop.scopeDepth < scopeDepth)
      modifies this
      ensures CompiledB(ParseDef(old(toks)), more)
      decreases |toks|, 7
    {
      hide DoneB, DoneS, ParseVar, ParseStmt, Kept, AcceptS, ConstsS, AcceptB, ConstsB, Grows;
      more := [];
      if Peek(toks) == TVar {
        NextToken();
        more := VariableDefinition();
      } else {
        ghost var s := ParseStmt(toks);
        if s.Ok? {
          AcceptDef("", NullLit, s.tree, Names(), Kept(locals, scopeDepth), mods, consts, Base(), loop.Loop?);
        }
        Statement();
        if hasError {
          return;
        }
        StmtParts(s.tree, Names(), T(), Base(), loop.Loop?, old(Out()), Out());
        assert locals + [] == locals;
      }
    }

    /** A variable is declared after its initializer, so it is not in scope there; the value the
        initializer leaves on the stack becomes the variable's slot. */
    method VariableDefinition() returns (ghost more: seq<Local>)
      requires !hasError && Scoped()
      modifies this
      ensures var v := ParseVar(old(toks));
              CompiledB(if v.Fail? then Fail else Ok(VarThen(v.tree.0, v.tree.1, Done), v.rest), more)
      decreases |toks|, 5
    {
      hide DoneB, DoneE, ParseInit, Kept, AcceptE, ConstsE, AcceptB, ConstsB, Grows;
      more := [];
      ghost var v := ParseVar(toks);
      if v.Ok? {
        AcceptDef(v.tree.0, v.tree.1, Break, Names(), Kept(locals, scopeDepth), mods, consts, Base(), loop.Loop?);
      }
      var x := ConsumeName();
      if hasError {
        return;
      }
      Initializer();
      if hasError {
        return;
      }
      VarParts(x, v.tree.1, Names(), T(), Base(), loop.Loop?, old(Out()), Out());
      DeclareVariable(x);
      more := [Local(x, scopeDepth)];
    }

    method Initializer()
      requires !hasError
      modifies this
      ensures Compiled(ParseInit(old(toks)))
      ensures !hasError ==> numSlots <= maxSlots
      decreases |toks|, 4
    {
      hide DoneE, ParseExpr, AcceptE, ConstsE, Grows;
      ghost var e := ParseInit(toks);
      GrowsSelf(T());
      AcceptSimple(NullLit, Names(), mods, consts, 0, false);
      var found := Match(TEq);
      if found {
        IgnoreNewlines();
        Expression();
        if hasError {
          return;
        }
      } else {
        Singleton(NullLit, CODE_NULL);
      }
      SlotsWithin(e.tree, Names(), T(), old(Out()), Out());
    }

    /** A `for` loop, after its keyword. The two hidden locals live in a scope of their own, and the
        loop variable in another one inside the loop. */
    method ForStatement()
      requires !hasError && Scoped()
      modifies this
      ensures CompiledS(ParseFor(old(toks)))
      decreases |toks|, 5
    {
      hide DoneE, DoneS, DoneFor, ParseExpr, ParseStmt, Kept, ParseForHead, AcceptE, ConstsE, AcceptS, ConstsS,
           AcceptFor, Grows;
      ghost var head, p := ParseForHead(toks), ParseFor(toks);
      if p.Ok? {
        AcceptForS(p.tree.x, p.tree.e, p.tree.body, Names(), mods, consts, Base(), loop.Loop?);
      }
      var x := ForHead();
      if hasError {
        return;
      }
      ghost var T1 := T();
      ForRest(x, head.tree.1, old(consts), old(Out()));
      if !hasError {
        GrowsTrans(old(T()), T1, T());
      }
    }

    /** The rest of a `for` loop, once its sequence expression has been compiled since `o`. */
    method ForRest(x: string, ghost e: Expr, ghost c: seq<Value>, ghost o: Output)
      requires !hasError && Scoped() && Ready(e, c, o)
      modifies this
      ensures var b := ParseStmt(old(toks));
              BuiltS(if b.Fail? then Fail else Ok(For(x, e, b.tree), b.rest), c, o)
      decreases |toks|, 10
    {
      hide DoneE, DoneS, DoneFor, ParseStmt, Kept, AcceptE, ConstsE, AcceptS, ConstsS, AcceptFor, Grows;
      ghost var o1, T1, b := Out(), T(), ParseStmt(toks);
      if b.Ok? {
        AcceptForS(x, e, b.tree, Names(), mods, c, Base(), loop.Loop?);
      }
      ghost var hidden := [Local(SEQ_LOCAL, scopeDepth + 1), Local(ITER_LOCAL, scopeDepth + 1)];
      scopeDepth := scopeDepth + 1;
      AddLocal(SEQ_LOCAL);
      EmitOp(CODE_NULL);
      AddLocal(ITER_LOCAL);
      assert locals == old(locals) + hidden;
      NamesAppend(old(locals), hidden);
      assert LocalNames(hidden) == [SEQ_LOCAL, ITER_LOCAL];
      ForLoop(x);
      if hasError {
        return;
      }
      DoneStable(e, LocalNames(old(locals)), T1, T(), o, o1);
      ForParts(x, e, b.tree, LocalNames(old(locals)), T(), old(Base()), loop.Loop?, o, o1, Out());
      CloseHidden(old(locals), hidden);
    }

    /** (name in sequence) */
    method ForHead() returns (x: string)
      requires !hasError
      modifies this
      ensures var p := ParseForHead(old(toks));
              && (hasError <==> p.Fail? || !AcceptE(p.tree.1, old(Names()), mods, old(consts)))
              && (!hasError ==> SameScope() && numSlots <= maxSlots && toks == p.rest && x == p.tree.0
                                && Ready(p.tree.1, old(consts), old(Out())))
      decreases |toks|, 4
    {
      hide DoneE, ParseExpr, AcceptE, ConstsE, Grows;
      ghost var p := ParseForHead(toks);
      Consume(TLeftParen);
      x := "";
      if hasError {
        return;
      }
      x := ConsumeName();
      if hasError {
        return;
      }
      Consume(TIn);
      if hasError {
        return;
      }
      IgnoreNewlines();
      Sequence();
    }

    /** The expression a `for` loop goes over, and the `)` after it. */
    method Sequence()
      requires !hasError
      modifies this
      ensures var e := ParseExpr(old(toks));
              Compiled(if e.Fail? || Peek(e.rest) != TRightParen then Fail else Ok(e.tree, Next(e.rest)))
      ensures !hasError ==> numSlots <= maxSlots
      decreases |toks|, 4
    {
      hide DoneE, ParseExpr, AcceptE, ConstsE, Grows;
      ghost var e := ParseExpr(toks);
      Expression();
      if hasError {
        return;
      }
      SlotsWithin(e.tree, Names(), T(), old(Out()), Out());
      Consume(TRightParen);
    }

    /** The end of the scope of the hidden locals. */
    method CloseHidden(ghost outer: seq<Local>, ghost hidden: seq<Local>)
      requires locals == outer + hidden && |hidden| == 2
      requires forall i :: 0 <= i < |outer| ==> outer[i].depth < scopeDepth
      requires forall i :: 0 <= i < |hidden| ==> hidden[i].depth == scopeDepth
      modifies this`code, this`numSlots, this`locals, this`scopeDepth
      ensures locals == outer && scopeDepth == old(scopeDepth) - 1
      ensures Out() == Output(old(code) + Bytes(Pops(2)), old(numSlots) - 2, old(maxSlots))
    {
      hide Kept;
      KeptAll(outer, scopeDepth - 1);
      KeptAppend(outer, hidden, scopeDepth);
      PopScope();
      assert locals == outer;
    }

    /** Advance the iterator, test it, bind its value, run the body, and go back. */
    method ForLoop(x: string)
      requires !hasError && Scoped() && |locals| >= 2
      modifies this
      ensures var b := ParseStmt(old(toks));
              hasError <==> b.Fail? || !AcceptFor(x, b.tree, old(Names()), mods, old(consts))
      ensures !hasError ==>
        var b := ParseStmt(old(toks));
        && SameScope() && numSlots <= maxSlots && toks == b.rest && consts == ConstsS(b.tree, old(consts))
        && DoneFor(x, b.tree, Names(), T(), old(Out()), Out())
      decreases |toks|, 9
    {
      hide DoneS, DoneFor, ParseStmt, Kept, Advance, Current, EmitHole, AcceptFor, ConstsS, Grows;
      ghost var k := |locals| - 2;
      loop := Loop(|code| - 1, 0, 0, scopeDepth, loop);
      EmitAdvancing();
      ghost var o1, T1 := Out(), T();
      var exitJump := EmitJump(CODE_JUMP_IF);
      HoleFacts(o1, CODE_JUMP_IF);
      EmitBinding();
      ghost var T2 := T();
      AdvanceStable(k, T1, T2);
      StillThere(T1, T2);
      loop := loop.(exitJump := exitJump, body := |code|);
      ForBody(x, old(Out()), o1);
      if !hasError {
        GrowsTrans(old(T()), T1, T2);
        GrowsTrans(old(T()), T2, T());
      }
    }

    method EmitAdvancing()
      requires |locals| >= 2
      modifies this`code, this`numSlots, this`maxSlots, this`sigs
      ensures Grows(old(T()), T()) && ITERATE in sigs
      ensures Out() == Output(old(code) + Bytes(Advance(|locals| - 2, T())), old(numSlots) + 1,
                              Max(old(maxSlots), old(numSlots) + 2))
    {
      hide Bytes, Emit, LoadLocal, CallOp;
      var seqSlot, iterSlot := |locals| - 2, |locals| - 1;
      EmitLoadLocal(seqSlot);
      EmitLoadLocal(iterSlot);
      CallMethod(1, ITERATE);
      EmitByteArg(CODE_STORE_LOCAL, iterSlot);
      CallEffect(T(), 1, ITERATE);
      EmitThree(old(Out()), seqSlot, iterSlot, CallOp(T(), 1, ITERATE));
      EmitAdvance(old(Out()), seqSlot, T());
    }

    method EmitBinding()
      requires |locals| >= 2
      modifies this`code, this`numSlots, this`maxSlots, this`sigs
      ensures Grows(old(T()), T()) && ITERATOR_VALUE in sigs
      ensures Out() == Output(old(code) + Bytes(Current(|locals| - 2, T())), old(numSlots) + 1,
                              Max(old(maxSlots), old(numSlots) + 2))
    {
      hide Bytes, Emit, LoadLocal, CallOp;
      var seqSlot, iterSlot := |locals| - 2, |locals| - 1;
      EmitLoadLocal(seqSlot);
      EmitLoadLocal(iterSlot);
      CallMethod(1, ITERATOR_VALUE);
      CallEffect(T(), 1, ITERATOR_VALUE);
      EmitThree(old(Out()), seqSlot, iterSlot, CallOp(T(), 1, ITERATOR_VALUE));
    }

    /** The body of a `for` loop with its variable in a scope of its own, and the loop's end. */
    method ForBody(x: string, ghost o: Output, ghost o1: Output)
      requires !hasError && Scoped() && |locals| >= 2 && loop.Loop? && loop.scopeDepth == scopeDepth
      requires loop.enclosing.Loop? ==> loop.enclosing.scopeDepth <= scopeDepth
      requires ITERATE in T().sigs && ITERATOR_VALUE in T().sigs
      requires o1 == Output(o.code + Bytes(Advance(|locals| - 2, T())), o.slots + 1, Max(o.peak, o.slots + 2))
      requires var hole := EmitHole(o1, CODE_JUMP_IF);
               Out() == Output(hole.code + Bytes(Current(|locals| - 2, T())), o.slots + 1, Max(hole.peak, o.slots + 2))
      requires loop.start == |o.code| - 1 && loop.exitJump == |o1.code| + 1 && loop.body == |code|
      modifies this
      ensures var b := ParseStmt(old(toks));
              hasError <==> b.Fail? || !AcceptFor(x, b.tree, old(Names()), mods, old(consts))
      ensures !hasError ==>
        var b := ParseStmt(old(toks));
        && locals == old(locals) && scopeDepth == old(scopeDepth) && loop == old(loop).enclosing
        && Grows(old(T()), T()) && numSlots <= maxSlots && toks == b.rest && consts == ConstsS(b.tree, old(consts))
        && DoneFor(x, b.tree, Names(), T(), o, Out())
      decreases |toks|, 8
    {
      hide DoneS, DoneFor, ParseStmt, Kept, Advance, Current, GenS, EmitHole, Bytes, Size, AcceptS, ConstsS, LenS,
           Grows, LenTurn;
      ghost var T2, b := T(), ParseStmt(toks);
      scopeDepth := scopeDepth + 1;
      AddLocal(x);
      NamesAppend(old(locals), [Local(x, scopeDepth)]);
      assert LocalNames([Local(x, scopeDepth)]) == [x];
      KeptAll(old(locals), scopeDepth - 1);
      KeptAppend(old(locals), [Local(x, scopeDepth)], scopeDepth);
      assert Base() == |old(locals)| && Names() == old(Names()) + [x];
      Statement();
      if hasError {
        return;
      }
      ghost var o3 := Out();
      PopScope();
      assert locals == old(locals);
      AdvanceStable(|locals| - 2, T2, T());
      StillThere(T2, T());
      EndFor(x, b.tree, o, o1, old(Out()), o3);
    }

    /** The end of a `for` loop, whose variable has gone out of scope. */
    method EndFor(x: string, ghost body: Stmt, ghost o: Output, ghost o1: Output, ghost o2: Output, ghost o3: Output)
      requires !hasError && |locals| >= 2 && loop.Loop?
      requires ITERATE in T().sigs && ITERATOR_VALUE in T().sigs
      requires o1 == Output(o.code + Bytes(Advance(|locals| - 2, T())), o.slots + 1, Max(o.peak, o.slots + 2))
      requires var hole := EmitHole(o1, CODE_JUMP_IF);
               o2 == Output(hole.code + Bytes(Current(|locals| - 2, T())), o.slots + 1, Max(hole.peak, o.slots + 2))
      requires loop.start == |o.code| - 1 && loop.exitJump == |o1.code| + 1 && loop.body == |o2.code|
      requires DoneS(body, Names() + [x], T(), |locals|, true, o2, o3)
      requires Out() == Output(o3.code + Bytes(Pops(1)), o3.slots - 1, o3.peak)
      modifies this`code, this`numSlots, this`maxSlots, this`hasError, this`loop
      ensures hasError <==> LenTurn(|locals| - 2, LenS(body, Names() + [x], |locals|)) + 3 > MAX_JUMP
      ensures !hasError ==>
                loop == old(loop).enclosing && numSlots <= maxSlots && DoneFor(x, body, Names(), T(), o, Out())
    {
      hide DoneS, DoneFor, Advance, Current, GenS, EmitHole, Bytes, Size, PatchBreaks, Walkable, ShortOp, LenS, LenPair;
      ghost var k, ls := |locals| - 2, Names() + [x];
      ghost var bc := GenS(body, ls, T(), |locals|, Pending);
      ForEndReady(k, T(), o, o1, o2, body, ls, |locals|, o3);
      WalkS(body, ls, T(), |locals|, Pending);
      WalkablePops(bc, 1);
      SizePair(k, T());
      SizeS(body, ls, T(), |locals|, Pending);
      PopsSize(1);
      BytesAppend(bc, Pops(1));
      EndLoop(o1.code, Current(k, T()), bc + Pops(1));
      if hasError {
        return;
      }
      ForLoopParts(x, body, Names(), T(), o, o1, o2, o3);
      PatchedSize(bc + Pops(1), 3);
    }

    // ----- Functions -----------------------------------------------------------------------------------

    /** A compiler for one function: slot zero holds the receiver, under a name nothing resolves to. */
    constructor (toks: seq<Token>, sigs: seq<string>, mods: seq<string>)
      ensures this.toks == toks && this.sigs == sigs && this.mods == mods && !hasError
      ensures code == [] && consts == [] && locals == [Local("", -1)] && scopeDepth == 0
      ensures numSlots == 1 && maxSlots == 1 && loop == NoLoop
    {
      this.toks, this.sigs, this.mods, implicits := toks, sigs, mods, [];
      hasError, code, consts := false, [], [];
      locals, scopeDepth, numSlots, maxSlots, loop := [Local("", -1)], 0, 1, 1, NoLoop;
    }

    /** Parameters are the first locals of the body's own scope. */
    method DeclareParameters(params: seq<string>)
      requires !hasError && scopeDepth == 0 && locals == [Local("", -1)]
      modifies this`locals, this`hasError
      ensures hasError <==> !AcceptParams(params)
      ensures !hasError ==> locals == [Local("", -1)] + Parameters(params)
    {
      hide Kept, LocalNames, FreshName, Parameters;
      var i := 0;
      assert params[..0] == [];
      ParameterScope([]);
      while i < |params|
        invariant i <= |params| && !hasError
        invariant i <= MAX_PARAMETERS && forall j :: 0 <= j < i ==> FreshName(params[j], params[..j])
        invariant locals == [Local("", -1)] + Parameters(params[..i])
      {
        if i + 1 == MAX_PARAMETERS + 1 {
          hasError := true;
          return;
        }
        ParameterScope(params[..i]);
        DeclareVariable(params[i]);
        if hasError {
          return;
        }
        ParameterAdded(params, i);
        i := i + 1;
      }
      assert params[..i] == params;
    }

    /** Compiles a whole function body, from after its `{`. */
    method FinishBody()
      requires !hasError && Scoped() && loop.NoLoop? && code == []
      modifies this
      ensures var p := ParseBlock(old(toks));
              hasError <==> p.Fail? || !AcceptBlock(p.tree, old(Names()), Kept(old(locals), old(scopeDepth)), mods,
                                                    old(consts), 0, false)
      ensures !hasError ==>
        var p := ParseBlock(old(toks));
        var ls := LocalNames(old(locals));
        && toks == p.rest && KnownFn(p.tree, ls, T())
        && code == Bytes(GenFn(p.tree, ls, T()))
        && maxSlots == Max(old(maxSlots), old(numSlots) + PeakFn(p.tree))
        && Grows(old(T()), T())
      decreases |toks|, 5
    {
      hide DoneE, DoneB, ParseBlock, Kept, GenFn, KnownFn, PeakFn, AcceptBlock, Grows;
      ghost var fb := ParseBlock(toks);
      var isExpr, more := FinishBlock();
      if hasError {
        return;
      }
      ghost var o1 := Out();
      if !isExpr {
        EmitOp(CODE_NULL);
      }
      EmitOp(CODE_RETURN);
      EmitOp(CODE_END);
      FnParts(fb.tree, LocalNames(old(locals)), T(), old(Out()), o1);
    }
  }
}

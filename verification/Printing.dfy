/** Printing an expression with the parentheses its grammar requires and parsing it back. */
module Printing {
  import opened Wrappers
  import opened Syntax
  import opened Grammar

  /** How loosely the outermost construct of an expression binds. An assignment is allowed wherever
      a conditional's branch is; a prefix operator binds tighter than every infix operator but `.` */
  function Level(e: Expr): nat {
    match e
    case Assign(_, _) => PREC_CONDITIONAL
    case Setter(_, _, _) => PREC_CONDITIONAL
    case Cond(_, _, _) => PREC_ASSIGNMENT
    case Or(_, _) => PREC_LOGICAL_OR
    case And(_, _) => PREC_LOGICAL_AND
    case Infix(op, _, _) => OpPrec(op)
    case Unary(_, _) => PREC_UNARY
    case Getter(_, _) => PREC_CALL
    case _ => PREC_PRIMARY
  }

  function UnaryToken(op: UnOp): Token {
    match op
    case Neg => TOp(Minus)
    case Not => TBang
    case Complement => TTilde
  }

  /** The tokens of `e` where operators must bind at least as tightly as `prec`. */
  function Print(e: Expr, prec: nat): seq<Token>
    decreases e, 1
  {
    if Level(e) < prec then [TLeftParen] + Bare(e) + [TRightParen] else Bare(e)
  }

  /** The level an operand of a prefix operator is printed at: prefix operators stack freely. */
  function OperandPrec(e: Expr): nat {
    if e.Unary? then PREC_UNARY else PREC_CALL
  }

  /** The tokens of `e` without parentheses around it: infix operators associate to the left,
      `&&` and `||` to the right, and the branches of `?:` are parsed at two different levels. */
  function Bare(e: Expr): seq<Token>
    decreases e, 0
  {
    match e
    case NullLit => [TNull]
    case BoolLit(b) => [if b then TTrue else TFalse]
    case Lit(v) => [TLiteral(v)]
    case Name(x) => [TName(x)]
    case Assign(x, e1) => [TName(x), TEq] + Print(e1, PREC_LOWEST)
    case Unary(op, e1) => [UnaryToken(op)] + Print(e1, OperandPrec(e1))
    case Infix(op, l, r) => Print(l, OpPrec(op)) + [TOp(op)] + Print(r, OpPrec(op) + 1)
    case Getter(recv, name) => Print(recv, PREC_CALL) + [TDot, TName(name)]
    case Setter(recv, name, e1) => Print(recv, PREC_CALL) + [TDot, TName(name), TEq] + Print(e1, PREC_LOWEST)
    case And(l, r) => Print(l, PREC_LOGICAL_AND + 1) + [TAmpAmp] + Print(r, PREC_LOGICAL_AND)
    case Or(l, r) => Print(l, PREC_LOGICAL_OR + 1) + [TPipePipe] + Print(r, PREC_LOGICAL_OR)
    case Cond(c, t, f) =>
      Print(c, PREC_LOGICAL_OR) + [TQuestion] + Print(t, PREC_CONDITIONAL) + [TColon] + Print(f, PREC_ASSIGNMENT)
  }

  function Min(a: nat, b: nat): nat { if a < b then a else b }

  /** An operator that follows `Bare(e)` is taken into `e` when it binds at least this tightly. */
  function Open(e: Expr): (p: nat)
    ensures p >= PREC_LOWEST
    decreases e, 0
  {
    match e
    case Assign(_, _) => PREC_LOWEST
    case Setter(_, _, _) => PREC_LOWEST
    case Unary(_, e1) => Min(PREC_CALL, OpenAt(e1, OperandPrec(e1)))
    case Infix(op, _, r) => Min(OpPrec(op) + 1, OpenAt(r, OpPrec(op) + 1))
    case And(_, r) => Min(PREC_LOGICAL_AND, OpenAt(r, PREC_LOGICAL_AND))
    case Or(_, r) => Min(PREC_LOGICAL_OR, OpenAt(r, PREC_LOGICAL_OR))
    case Cond(_, _, f) => Min(PREC_ASSIGNMENT, OpenAt(f, PREC_ASSIGNMENT))
    case _ => PREC_PRIMARY + 1
  }

  function OpenAt(e: Expr, prec: nat): (p: nat)
    ensures p >= PREC_LOWEST
    decreases e, 1
  {
    if Level(e) < prec then PREC_PRIMARY + 1 else Open(e)
  }

  /** What may follow a printed expression: no operator that it would swallow, and nothing that
      turns its last name into a call or an assignment. */
  predicate Follows(e: Expr, prec: nat, rest: seq<Token>) {
    InfixPrec(Peek(rest)) < OpenAt(e, prec) &&
    Peek(rest) != TEq && Peek(rest) != TLeftParen && Peek(rest) != TLeftBrace
  }

  /** A tight context leaves only tight right edges. */
  lemma {:induction false} OpenBound(e: Expr, prec: nat)
    requires prec > PREC_CONDITIONAL
    ensures Min(prec, PREC_CALL) <= OpenAt(e, prec)
    ensures !e.Or? && !e.And? && prec <= PREC_FACTOR ==> prec < OpenAt(e, prec)
    decreases e
  {
    if Level(e) >= prec {
      match e
      case Unary(_, e1) =>
        OpenBound(e1, OperandPrec(e1));
      case Infix(op, _, r) => OpenBound(r, OpPrec(op) + 1);
      case And(_, r) => OpenBound(r, PREC_LOGICAL_AND);
      case Or(_, r) => OpenBound(r, PREC_LOGICAL_OR);
      case _ =>
    }
  }

  lemma {:induction false} BareHead(e: Expr)
    ensures Bare(e) != [] && Bare(e)[0] != TLine
    decreases e, 0
  {
    match e
    case Infix(op, l, r) => PrintHead(l, OpPrec(op));
    case Getter(recv, _) => PrintHead(recv, PREC_CALL);
    case Setter(recv, _, _) => PrintHead(recv, PREC_CALL);
    case And(l, r) => PrintHead(l, PREC_LOGICAL_AND + 1);
    case Or(l, r) => PrintHead(l, PREC_LOGICAL_OR + 1);
    case Cond(c, t, f) => PrintHead(c, PREC_LOGICAL_OR);
    case _ =>
  }

  /** A printed expression does not start with a newline, so nothing of it is skipped. */
  lemma {:induction false} PrintHead(e: Expr, prec: nat)
    ensures Print(e, prec) != [] && Print(e, prec)[0] != TLine
    decreases e, 1
  {
    BareHead(e);
  }

  lemma {:induction false} NoLines(e: Expr, prec: nat, rest: seq<Token>)
    ensures SkipLines(Print(e, prec) + rest) == Print(e, prec) + rest
  {
    PrintHead(e, prec);
  }

  /** The operator loop stops at a token that binds too loosely. */
  lemma {:induction false} StopsAt(e: Expr, rest: seq<Token>, prec: nat, canAssign: bool)
    requires prec >= PREC_LOWEST && InfixPrec(Peek(rest)) < prec
    ensures ParseInfix(e, rest, prec, canAssign) == Ok(e, rest)
  {
  }

  /** The operator loop takes an operator that binds tightly enough. */
  lemma {:induction false} TakesOperator(e: Expr, toks: seq<Token>, prec: nat, canAssign: bool, e': Expr,
                                         rest: seq<Token>)
    requires toks != [] && PREC_LOWEST <= prec <= InfixPrec(toks[0])
    requires ParseOperator(e, toks, canAssign) == Ok(e', rest)
    ensures ParseInfix(e, toks, prec, canAssign) == ParseInfix(e', rest, prec, canAssign)
  {
  }

  lemma {:induction false} OperatorRules(left: Expr, toks: seq<Token>, canAssign: bool)
    requires toks != []
    ensures var rest := SkipLines(toks[1..]);
            && (toks[0] == TQuestion ==> ParseOperator(left, toks, canAssign) == ParseBranches(left, rest))
            && (toks[0] == TDot ==> ParseOperator(left, toks, canAssign) == ParseCall(left, rest, canAssign))
  {
    hide ParseBranches, ParseCall, SkipLines;
  }

  lemma {:induction false} LogicRules(left: Expr, toks: seq<Token>, canAssign: bool, right: Expr, rest: seq<Token>)
    requires toks != []
    ensures toks[0] == TAmpAmp && ParsePrec(SkipLines(toks[1..]), PREC_LOGICAL_AND) == Ok(right, rest) ==>
            ParseOperator(left, toks, canAssign) == Ok(And(left, right), rest)
    ensures toks[0] == TPipePipe && ParsePrec(SkipLines(toks[1..]), PREC_LOGICAL_OR) == Ok(right, rest) ==>
            ParseOperator(left, toks, canAssign) == Ok(Or(left, right), rest)
  {
    hide ParsePrec, SkipLines;
  }

  lemma {:induction false} BranchesParse(c: Expr, t: Expr, f: Expr, toks: seq<Token>, last: seq<Token>,
                                         rest: seq<Token>)
    requires ParsePrec(toks, PREC_CONDITIONAL) == Ok(t, [TColon] + last)
    requires SkipLines(last) == last && ParsePrec(last, PREC_ASSIGNMENT) == Ok(f, rest)
    ensures ParseBranches(c, toks) == Ok(Cond(c, t, f), rest)
  {
    hide ParsePrec, SkipLines;
    assert ([TColon] + last)[1..] == last;
  }

  /** A printed operand is read back whole where it is parsed at the level it was printed for. */
  lemma {:induction false} PrintEnds(e: Expr, prec: nat, rest: seq<Token>)
    requires prec >= PREC_LOWEST && Follows(e, prec, rest) && InfixPrec(Peek(rest)) < prec
    ensures ParsePrec(Print(e, prec) + rest, prec) == Ok(e, rest)
    decreases e, 4
  {
    hide Print, ParsePrec, ParseInfix;
    PrintParses(e, prec, prec, rest);
    StopsAt(e, rest, prec, prec <= PREC_CONDITIONAL);
  }

  /** Parsing a printed expression first rebuilds it and then goes on with the operators after it. */
  lemma {:induction false} PrintParses(e: Expr, prec: nat, p: nat, rest: seq<Token>)
    requires PREC_LOWEST <= p && (p <= prec || (e.Unary? && prec <= PREC_UNARY)) && Follows(e, prec, rest)
    ensures ParsePrec(Print(e, prec) + rest, p) == ParseInfix(e, rest, p, p <= PREC_CONDITIONAL)
    decreases e, 3
  {
    hide ParseInfix, ParsePrec, Bare;
    if Level(e) < prec {
      ParenParses(e, p, rest);
    } else {
      BareParses(e, p, rest);
    }
  }

  lemma {:induction false} ParenParses(e: Expr, p: nat, rest: seq<Token>)
    requires p >= PREC_LOWEST
    ensures ParsePrec([TLeftParen] + Bare(e) + [TRightParen] + rest, p) == ParseInfix(e, rest, p, p <= PREC_CONDITIONAL)
    decreases e, 2
  {
    hide ParseInfix, Bare;
    var inner := [TRightParen] + rest;
    var toks := [TLeftParen] + Bare(e) + [TRightParen] + rest;
    assert toks[1..] == Bare(e) + inner;
    BareParses(e, PREC_LOWEST, inner);
    StopsAt(e, inner, PREC_LOWEST, true);
    assert inner[1..] == rest;
    assert ParseExpr(toks[1..]) == Ok(e, inner);
    assert ParsePrefix(toks, p <= PREC_CONDITIONAL) == Ok(e, rest);
  }

  lemma {:induction false} BareParses(e: Expr, p: nat, rest: seq<Token>)
    requires PREC_LOWEST <= p && (p <= Level(e) || e.Unary?)
    requires InfixPrec(Peek(rest)) < Open(e) && Peek(rest) != TEq && Peek(rest) != TLeftParen
             && Peek(rest) != TLeftBrace
    ensures ParsePrec(Bare(e) + rest, p) == ParseInfix(e, rest, p, p <= PREC_CONDITIONAL)
    decreases e, 1
  {
    hide ParseInfix, ParsePrec, Bare, Open;
    match e
    case Infix(_, _, _) => InfixParses(e, p, rest);
    case And(_, _) => LogicParses(e, p, rest);
    case Or(_, _) => LogicParses(e, p, rest);
    case Cond(_, _, _) => CondParses(e, p, rest);
    case Getter(_, _) => GetterParses(e, p, rest);
    case Setter(_, _, _) => SetterParses(e, p, rest);
    case Assign(_, _) => AssignParses(e, p, rest);
    case Unary(_, _) => UnaryParses(e, p, rest);
    case NullLit => LeafParses(e, p, rest);
    case BoolLit(_) => LeafParses(e, p, rest);
    case Lit(_) => LeafParses(e, p, rest);
    case Name(_) => LeafParses(e, p, rest);
  }

  lemma {:induction false} LeafParses(e: Expr, p: nat, rest: seq<Token>)
    requires e.NullLit? || e.BoolLit? || e.Lit? || e.Name?
    requires PREC_LOWEST <= p && Peek(rest) != TEq
    ensures ParsePrec(Bare(e) + rest, p) == ParseInfix(e, rest, p, p <= PREC_CONDITIONAL)
  {
    hide ParseInfix;
    var toks := Bare(e) + rest;
    assert toks[1..] == rest;
    assert ParsePrefix(toks, p <= PREC_CONDITIONAL) == Ok(e, rest);
  }

  lemma {:induction false} AssignParses(e: Expr, p: nat, rest: seq<Token>)
    requires e.Assign? && PREC_LOWEST <= p <= PREC_CONDITIONAL
    requires InfixPrec(Peek(rest)) < Open(e) && Peek(rest) != TEq && Peek(rest) != TLeftParen
             && Peek(rest) != TLeftBrace
    ensures ParsePrec(Bare(e) + rest, p) == ParseInfix(e, rest, p, p <= PREC_CONDITIONAL)
    decreases e, 0
  {
    hide ParseInfix, Print;
    var toks := Bare(e) + rest;
    var after := Print(e.e, PREC_LOWEST) + rest;
    assert toks == [TName(e.name), TEq] + after;
    assert toks[1..] == [TEq] + after;
    assert toks[1..][1..] == after;
    PrintEnds(e.e, PREC_LOWEST, rest);
    assert ParsePrefix(toks, true) == Ok(e, rest);
  }

  lemma {:induction false} UnaryParses(e: Expr, p: nat, rest: seq<Token>)
    requires e.Unary? && PREC_LOWEST <= p
    requires InfixPrec(Peek(rest)) < Open(e) && Peek(rest) != TEq && Peek(rest) != TLeftParen
             && Peek(rest) != TLeftBrace
    ensures ParsePrec(Bare(e) + rest, p) == ParseInfix(e, rest, p, p <= PREC_CONDITIONAL)
    decreases e, 0
  {
    hide ParseInfix, Print;
    var toks := Bare(e) + rest;
    var q := OperandPrec(e.e);
    var after := Print(e.e, q) + rest;
    assert toks[1..] == after;
    NoLines(e.e, q, rest);
    PrintParses(e.e, q, PREC_CALL, rest);
    StopsAt(e.e, rest, PREC_CALL, false);
    assert UnaryOf(toks[0]) == Some(e.op);
    assert ParsePrefix(toks, p <= PREC_CONDITIONAL) == Ok(e, rest);
  }

  lemma {:induction false} InfixParses(e: Expr, p: nat, rest: seq<Token>)
    requires e.Infix? && PREC_LOWEST <= p <= OpPrec(e.bop)
    requires InfixPrec(Peek(rest)) < Open(e) && Peek(rest) != TEq && Peek(rest) != TLeftParen
             && Peek(rest) != TLeftBrace
    ensures ParsePrec(Bare(e) + rest, p) == ParseInfix(e, rest, p, p <= PREC_CONDITIONAL)
    decreases e, 0
  {
    hide ParsePrec, ParseInfix, Print, SkipLines;
    var q := OpPrec(e.bop);
    var right := Print(e.r, q + 1) + rest;
    var toks := [TOp(e.bop)] + right;
    assert Bare(e) + rest == Print(e.l, q) + toks;
    assert toks[1..] == right;
    OpenBound(e.l, q);
    PrintParses(e.l, q, p, toks);
    NoLines(e.r, q + 1, rest);
    PrintEnds(e.r, q + 1, rest);
    assert ParseOperator(e.l, toks, p <= PREC_CONDITIONAL) == Ok(e, rest);
    TakesOperator(e.l, toks, p, p <= PREC_CONDITIONAL, e, rest);
  }

  lemma {:induction false} LogicParses(e: Expr, p: nat, rest: seq<Token>)
    requires (e.And? || e.Or?) && PREC_LOWEST <= p <= Level(e)
    requires InfixPrec(Peek(rest)) < Open(e) && Peek(rest) != TEq && Peek(rest) != TLeftParen
             && Peek(rest) != TLeftBrace
    ensures ParsePrec(Bare(e) + rest, p) == ParseInfix(e, rest, p, p <= PREC_CONDITIONAL)
    decreases e, 0
  {
    hide ParsePrec, ParseInfix, Print, SkipLines, ParseOperator;
    var q := Level(e);
    var right := Print(e.r, q) + rest;
    var toks := [if e.And? then TAmpAmp else TPipePipe] + right;
    assert Bare(e) + rest == Print(e.l, q + 1) + toks;
    assert toks[1..] == right;
    OpenBound(e.l, q + 1);
    PrintParses(e.l, q + 1, p, toks);
    NoLines(e.r, q, rest);
    PrintEnds(e.r, q, rest);
    LogicRules(e.l, toks, p <= PREC_CONDITIONAL, e.r, rest);
    TakesOperator(e.l, toks, p, p <= PREC_CONDITIONAL, e, rest);
  }

  lemma {:induction false} CondParses(e: Expr, p: nat, rest: seq<Token>)
    requires e.Cond? && PREC_LOWEST <= p <= PREC_ASSIGNMENT
    requires InfixPrec(Peek(rest)) < Open(e) && Peek(rest) != TEq && Peek(rest) != TLeftParen
             && Peek(rest) != TLeftBrace
    ensures ParsePrec(Bare(e) + rest, p) == ParseInfix(e, rest, p, p <= PREC_CONDITIONAL)
    decreases e, 0
  {
    hide ParsePrec, ParseInfix, Print, SkipLines, ParseOperator;
    var last := Print(e.f, PREC_ASSIGNMENT) + rest;
    var colon := [TColon] + last;
    var mid := Print(e.t, PREC_CONDITIONAL) + colon;
    var toks := [TQuestion] + mid;
    assert Bare(e) + rest == Print(e.c, PREC_LOGICAL_OR) + toks;
    assert toks[1..] == mid && colon[1..] == last;
    OpenBound(e.c, PREC_LOGICAL_OR);
    PrintParses(e.c, PREC_LOGICAL_OR, p, toks);
    NoLines(e.t, PREC_CONDITIONAL, colon);
    PrintEnds(e.t, PREC_CONDITIONAL, colon);
    NoLines(e.f, PREC_ASSIGNMENT, rest);
    PrintEnds(e.f, PREC_ASSIGNMENT, rest);
    BranchesParse(e.c, e.t, e.f, mid, last, rest);
    OperatorRules(e.c, toks, p <= PREC_CONDITIONAL);
    TakesOperator(e.c, toks, p, p <= PREC_CONDITIONAL, e, rest);
  }

  lemma {:induction false} NameNotSkipped(x: string, rest: seq<Token>)
    ensures SkipLines([TName(x)] + rest) == [TName(x)] + rest
  {
  }

  lemma {:induction false} GetterParses(e: Expr, p: nat, rest: seq<Token>)
    requires e.Getter? && PREC_LOWEST <= p <= PREC_CALL
    requires Peek(rest) != TEq && Peek(rest) != TLeftParen && Peek(rest) != TLeftBrace
    ensures ParsePrec(Bare(e) + rest, p) == ParseInfix(e, rest, p, p <= PREC_CONDITIONAL)
    decreases e, 0
  {
    hide ParsePrec, ParseInfix, Print, SkipLines, ParseOperator;
    var named := [TName(e.method_)] + rest;
    var toks := [TDot] + named;
    assert Bare(e) + rest == Print(e.recv, PREC_CALL) + toks;
    assert toks[1..] == named && named[1..] == rest;
    NameNotSkipped(e.method_, rest);
    CallFollows(e.recv, named);
    PrintParses(e.recv, PREC_CALL, p, toks);
    assert ParseNamedCall(e.recv, e.method_, rest, p <= PREC_CONDITIONAL) == Ok(e, rest);
    assert ParseCall(e.recv, named, p <= PREC_CONDITIONAL) == Ok(e, rest);
    OperatorRules(e.recv, toks, p <= PREC_CONDITIONAL);
    TakesOperator(e.recv, toks, p, p <= PREC_CONDITIONAL, e, rest);
  }

  /** Anything printed as a receiver can be followed by a call. */
  lemma {:induction false} CallFollows(e: Expr, rest: seq<Token>)
    ensures Follows(e, PREC_CALL, [TDot] + rest)
  {
  }

  lemma {:induction false} SetterParses(e: Expr, p: nat, rest: seq<Token>)
    requires e.Setter? && PREC_LOWEST <= p <= PREC_CONDITIONAL
    requires InfixPrec(Peek(rest)) < Open(e) && Peek(rest) != TEq && Peek(rest) != TLeftParen
             && Peek(rest) != TLeftBrace
    ensures ParsePrec(Bare(e) + rest, p) == ParseInfix(e, rest, p, p <= PREC_CONDITIONAL)
    decreases e, 0
  {
    hide ParsePrec, ParseInfix, Print, SkipLines, ParseOperator;
    var value := Print(e.e, PREC_LOWEST) + rest;
    var eq := [TEq] + value;
    var named := [TName(e.method_)] + eq;
    var toks := [TDot] + named;
    assert Bare(e) + rest == Print(e.recv, PREC_CALL) + toks;
    assert toks[1..] == named && named[1..] == eq && eq[1..] == value;
    NameNotSkipped(e.method_, eq);
    CallFollows(e.recv, named);
    PrintParses(e.recv, PREC_CALL, p, toks);
    NoLines(e.e, PREC_LOWEST, rest);
    PrintEnds(e.e, PREC_LOWEST, rest);
    assert ParseExpr(value) == Ok(e.e, rest);
    assert ParseNamedCall(e.recv, e.method_, eq, true) == Ok(e, rest);
    assert ParseCall(e.recv, named, true) == Ok(e, rest);
    OperatorRules(e.recv, toks, true);
    TakesOperator(e.recv, toks, p, true, e, rest);
  }

  /** Printing any expression and parsing it as an expression gives it back. */
  lemma {:induction false} PrintParseRoundTrip(e: Expr, rest: seq<Token>)
    requires InfixPrec(Peek(rest)) == PREC_NONE && Peek(rest) != TEq && Peek(rest) != TLeftParen
             && Peek(rest) != TLeftBrace
    ensures ParseExpr(Print(e, PREC_LOWEST) + rest) == Ok(e, rest)
  {
    hide ParsePrec, Print;
    PrintEnds(e, PREC_LOWEST, rest);
  }
}

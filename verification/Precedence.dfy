/** How operators group, from written-out classes of operators: which of two binds more tightly, and which associate to
    the right. Nothing here is stated with the parser's own table. */
module Precedence {
  import opened Wrappers
  import opened Syntax
  import opened Grammar
  import opened Printing

  /** What stands between two operands. */
  datatype Connective = Send(op: BinOp) | AndThen | OrElse

  /** The connectives, from those that bind most loosely to those that bind most tightly. */
  const CLASSES: seq<set<Connective>> := [
    {OrElse},
    {AndThen},
    {Send(EqEq), Send(BangEq)},
    {Send(Is)},
    {Send(Lt), Send(Gt), Send(LtEq), Send(GtEq)},
    {Send(Pipe)},
    {Send(Caret)},
    {Send(Amp)},
    {Send(LtLt), Send(GtGt)},
    {Send(DotDot), Send(DotDotDot)},
    {Send(Plus), Send(Minus)},
    {Send(Star), Send(Slash), Send(Percent)}]

  /** `y` stands in a later class than `x`. */
  ghost predicate Tighter(y: Connective, x: Connective) {
    exists i, j :: 0 <= i < j < |CLASSES| && x in CLASSES[i] && y in CLASSES[j]
  }

  /** Of `a x b y c`, the operand `b` belongs to `y`. Two `&&`, and two `||`, group to the right. */
  ghost predicate GroupsRight(x: Connective, y: Connective) {
    Tighter(y, x) || (x == y && !x.Send?)
  }

  function TokenOf(x: Connective): Token {
    match x
    case Send(op) => TOp(op)
    case AndThen => TAmpAmp
    case OrElse => TPipePipe
  }

  function Joined(x: Connective, l: Expr, r: Expr): Expr {
    match x
    case Send(op) => Infix(op, l, r)
    case AndThen => And(l, r)
    case OrElse => Or(l, r)
  }

  /** What follows does not go on with the expression: no operator, and nothing that makes a call or an assignment. */
  predicate Ends(rest: seq<Token>) {
    rest == [] ||
    !(rest[0].TOp? || rest[0] in {TAmpAmp, TPipePipe, TQuestion, TDot, TEq, TLeftParen, TLeftBrace})
  }

  lemma {:induction false} EndsNothing(rest: seq<Token>)
    ensures Ends(rest) <==> InfixPrec(Peek(rest)) == PREC_NONE && Peek(rest) != TEq && Peek(rest) != TLeftParen
                            && Peek(rest) != TLeftBrace
  {
  }

  // ----- The parser's table against the classes ----------------------------------------------------------------

  /** The place in the table that belongs to a class. */
  lemma {:induction false} RowOfClass(x: Connective, i: nat)
    requires i < |CLASSES|
    ensures x in CLASSES[i] <==> InfixPrec(TokenOf(x)) == 4 + i
  {
  }

  lemma {:induction false} InAClass(x: Connective) returns (i: nat)
    ensures i < |CLASSES| && x in CLASSES[i]
  {
    i := InfixPrec(TokenOf(x)) - 4;
    RowOfClass(x, i);
  }

  lemma {:induction false} TighterIs(x: Connective, y: Connective)
    ensures Tighter(y, x) <==> InfixPrec(TokenOf(x)) < InfixPrec(TokenOf(y))
  {
    hide InfixPrec;
    var i := InAClass(x);
    var j := InAClass(y);
    forall k: nat | k < |CLASSES|
      ensures x in CLASSES[k] <==> InfixPrec(TokenOf(x)) == 4 + k
      ensures y in CLASSES[k] <==> InfixPrec(TokenOf(y)) == 4 + k
    {
      RowOfClass(x, k);
      RowOfClass(y, k);
    }
  }

  // ----- Two operators between three names ---------------------------------------------------------------------

  lemma {:induction false} PrintName(a: string, prec: nat)
    requires prec <= PREC_PRIMARY
    ensures Print(Name(a), prec) == [TName(a)]
  {
  }

  /** How tightly the operands of a connective are printed: those of an infix operator group to the left. */
  function LeftPrec(x: Connective): nat { if x.Send? then InfixPrec(TokenOf(x)) else InfixPrec(TokenOf(x)) + 1 }

  function RightPrec(x: Connective): nat { if x.Send? then InfixPrec(TokenOf(x)) + 1 else InfixPrec(TokenOf(x)) }

  lemma {:induction false} PrintJoined(x: Connective, l: Expr, r: Expr, prec: nat)
    requires prec <= InfixPrec(TokenOf(x))
    ensures Print(Joined(x, l, r), prec) == Print(l, LeftPrec(x)) + [TokenOf(x)] + Print(r, RightPrec(x))
  {
    hide Print;
    assert Print(Joined(x, l, r), prec) == Bare(Joined(x, l, r)) by { PrintBare(Joined(x, l, r), prec); }
  }

  lemma {:induction false} PrintBare(e: Expr, prec: nat)
    requires prec <= Level(e)
    ensures Print(e, prec) == Bare(e)
  {
  }

  lemma {:induction false} PrintGrouped(x: Connective, y: Connective, a: string, b: string, c: string)
    ensures GroupsRight(x, y) ==>
            Print(Joined(x, Name(a), Joined(y, Name(b), Name(c))), PREC_LOWEST) ==
              [TName(a), TokenOf(x), TName(b), TokenOf(y), TName(c)]
    ensures !GroupsRight(x, y) ==>
            Print(Joined(y, Joined(x, Name(a), Name(b)), Name(c)), PREC_LOWEST) ==
              [TName(a), TokenOf(x), TName(b), TokenOf(y), TName(c)]
  {
    hide Print, Tighter;
    TighterIs(x, y);
    PrintName(a, LeftPrec(x));
    if GroupsRight(x, y) {
      PrintJoined(x, Name(a), Joined(y, Name(b), Name(c)), PREC_LOWEST);
      PrintJoined(y, Name(b), Name(c), RightPrec(x));
      PrintName(b, LeftPrec(y));
    } else {
      PrintJoined(y, Joined(x, Name(a), Name(b)), Name(c), PREC_LOWEST);
      PrintJoined(x, Name(a), Name(b), LeftPrec(y));
      PrintName(b, RightPrec(x));
    }
    PrintName(c, RightPrec(y));
  }

  /** Of two operators between three names the first takes the middle name, unless the second binds more tightly or both
      are the same one of `&&` and `||`. */
  lemma {:induction false} TwoOperators(x: Connective, y: Connective, a: string, b: string, c: string, rest: seq<Token>)
    requires Ends(rest)
    ensures ParseExpr([TName(a), TokenOf(x), TName(b), TokenOf(y), TName(c)] + rest) ==
            Ok(if GroupsRight(x, y) then Joined(x, Name(a), Joined(y, Name(b), Name(c)))
               else Joined(y, Joined(x, Name(a), Name(b)), Name(c)), rest)
  {
    hide ParseExpr, Print, Tighter, InfixPrec;
    TighterIs(x, y);
    var e := if GroupsRight(x, y) then Joined(x, Name(a), Joined(y, Name(b), Name(c)))
             else Joined(y, Joined(x, Name(a), Name(b)), Name(c));
    EndsNothing(rest);
    PrintParseRoundTrip(e, rest);
    PrintGrouped(x, y, a, b, c);
  }

  // ----- Prefix operators and getters --------------------------------------------------------------------------

  /** The token of a prefix operator. */
  predicate IsPrefix(t: Token, u: UnOp) {
    || (t == TOp(Minus) && u == Neg)
    || (t == TBang && u == Not)
    || (t == TTilde && u == Complement)
  }

  lemma {:induction false} PrintUnary(t: Token, u: UnOp, e: Expr, prec: nat)
    requires IsPrefix(t, u) && prec <= PREC_UNARY
    ensures Print(Unary(u, e), prec) == [t] + Print(e, OperandPrec(e))
  {
    hide Print;
    assert Print(Unary(u, e), prec) == Bare(Unary(u, e)) by { PrintBare(Unary(u, e), prec); }
  }

  lemma {:induction false} PrintGetter(e: Expr, f: string, prec: nat)
    requires prec <= PREC_CALL
    ensures Print(Getter(e, f), prec) == Print(e, PREC_CALL) + [TDot, TName(f)]
  {
    hide Print;
    assert Print(Getter(e, f), prec) == Bare(Getter(e, f)) by { PrintBare(Getter(e, f), prec); }
  }

  lemma {:induction false} PrintCond(c: Expr, t: Expr, f: Expr, prec: nat)
    requires prec <= PREC_ASSIGNMENT
    ensures Print(Cond(c, t, f), prec) ==
            Print(c, PREC_LOGICAL_OR) + [TQuestion] + Print(t, PREC_CONDITIONAL) + [TColon] + Print(f, PREC_ASSIGNMENT)
  {
    hide Print;
    assert Print(Cond(c, t, f), prec) == Bare(Cond(c, t, f)) by { PrintBare(Cond(c, t, f), prec); }
  }

  lemma {:induction false} PrintAssign(a: string, e: Expr, prec: nat)
    requires prec <= PREC_CONDITIONAL
    ensures Print(Assign(a, e), prec) == [TName(a), TEq] + Print(e, PREC_LOWEST)
  {
    hide Print;
    assert Print(Assign(a, e), prec) == Bare(Assign(a, e)) by { PrintBare(Assign(a, e), prec); }
  }

  lemma {:induction false} PrintSetter(r: Expr, f: string, e: Expr, prec: nat)
    requires prec <= PREC_CONDITIONAL
    ensures Print(Setter(r, f, e), prec) == Print(r, PREC_CALL) + [TDot, TName(f), TEq] + Print(e, PREC_LOWEST)
  {
    hide Print;
    assert Print(Setter(r, f, e), prec) == Bare(Setter(r, f, e)) by { PrintBare(Setter(r, f, e), prec); }
  }

  /** Reading back what is printed, in terms of `Ends`. */
  lemma {:induction false} ReadBack(toks: seq<Token>, e: Expr, rest: seq<Token>)
    requires toks == Print(e, PREC_LOWEST) && Ends(rest)
    ensures ParseExpr(toks + rest) == Ok(e, rest)
  {
    EndsNothing(rest);
    PrintParseRoundTrip(e, rest);
  }

  /** A prefix operator takes the name after it, whatever operator stands before it or follows. */
  lemma {:induction false} PrefixBindsTighter(t: Token, u: UnOp, x: Connective, a: string, b: string, rest: seq<Token>)
    requires IsPrefix(t, u) && Ends(rest)
    ensures ParseExpr([t, TName(a), TokenOf(x), TName(b)] + rest) == Ok(Joined(x, Unary(u, Name(a)), Name(b)), rest)
    ensures ParseExpr([TName(a), TokenOf(x), t, TName(b)] + rest) == Ok(Joined(x, Name(a), Unary(u, Name(b))), rest)
  {
    hide Print, ParseExpr;
    PrintName(a, PREC_CALL);
    PrintName(b, PREC_CALL);
    PrintName(a, LeftPrec(x));
    PrintName(b, RightPrec(x));
    PrintJoined(x, Unary(u, Name(a)), Name(b), PREC_LOWEST);
    PrintUnary(t, u, Name(a), LeftPrec(x));
    ReadBack([t, TName(a), TokenOf(x), TName(b)], Joined(x, Unary(u, Name(a)), Name(b)), rest);
    PrintJoined(x, Name(a), Unary(u, Name(b)), PREC_LOWEST);
    PrintUnary(t, u, Name(b), RightPrec(x));
    ReadBack([TName(a), TokenOf(x), t, TName(b)], Joined(x, Name(a), Unary(u, Name(b))), rest);
  }

  /** A getter binds more tightly than any operator, prefix operators included. */
  lemma {:induction false} GetterBindsTightest(t: Token, u: UnOp, x: Connective, a: string, b: string, f: string,
                                               g: string, rest: seq<Token>)
    requires IsPrefix(t, u) && Ends(rest)
    ensures ParseExpr([TName(a), TDot, TName(f), TokenOf(x), TName(b)] + rest) ==
            Ok(Joined(x, Getter(Name(a), f), Name(b)), rest)
    ensures ParseExpr([TName(a), TokenOf(x), TName(b), TDot, TName(f)] + rest) ==
            Ok(Joined(x, Name(a), Getter(Name(b), f)), rest)
    ensures ParseExpr([t, TName(a), TDot, TName(f)] + rest) == Ok(Unary(u, Getter(Name(a), f)), rest)
    ensures ParseExpr([TName(a), TDot, TName(f), TDot, TName(g)] + rest) == Ok(Getter(Getter(Name(a), f), g), rest)
  {
    hide Print, ParseExpr;
    PrintName(a, PREC_CALL);
    PrintName(b, PREC_CALL);
    PrintName(a, LeftPrec(x));
    PrintName(b, RightPrec(x));
    PrintJoined(x, Getter(Name(a), f), Name(b), PREC_LOWEST);
    PrintGetter(Name(a), f, LeftPrec(x));
    ReadBack([TName(a), TDot, TName(f), TokenOf(x), TName(b)], Joined(x, Getter(Name(a), f), Name(b)), rest);
    PrintJoined(x, Name(a), Getter(Name(b), f), PREC_LOWEST);
    PrintGetter(Name(b), f, RightPrec(x));
    ReadBack([TName(a), TokenOf(x), TName(b), TDot, TName(f)], Joined(x, Name(a), Getter(Name(b), f)), rest);
    PrintUnary(t, u, Getter(Name(a), f), PREC_LOWEST);
    PrintGetter(Name(a), f, PREC_CALL);
    ReadBack([t, TName(a), TDot, TName(f)], Unary(u, Getter(Name(a), f)), rest);
    PrintGetter(Getter(Name(a), f), g, PREC_LOWEST);
    ReadBack([TName(a), TDot, TName(f), TDot, TName(g)], Getter(Getter(Name(a), f), g), rest);
  }

  /** One operator alone, of each kind. */
  lemma {:induction false} OneOperator(t: Token, u: UnOp, x: Connective, a: string, b: string, f: string,
                                       rest: seq<Token>)
    requires IsPrefix(t, u) && Ends(rest)
    ensures ParseExpr([t, TName(a)] + rest) == Ok(Unary(u, Name(a)), rest)
    ensures ParseExpr([TName(a), TokenOf(x), TName(b)] + rest) == Ok(Joined(x, Name(a), Name(b)), rest)
    ensures ParseExpr([TName(a), TDot, TName(f)] + rest) == Ok(Getter(Name(a), f), rest)
    ensures ParseExpr([TName(a), TDot, TName(f), TEq, TName(b)] + rest) == Ok(Setter(Name(a), f, Name(b)), rest)
  {
    hide Print, ParseExpr;
    PrintName(a, PREC_CALL);
    PrintName(a, LeftPrec(x));
    PrintName(b, RightPrec(x));
    PrintName(b, PREC_LOWEST);
    PrintUnary(t, u, Name(a), PREC_LOWEST);
    ReadBack([t, TName(a)], Unary(u, Name(a)), rest);
    PrintJoined(x, Name(a), Name(b), PREC_LOWEST);
    ReadBack([TName(a), TokenOf(x), TName(b)], Joined(x, Name(a), Name(b)), rest);
    PrintGetter(Name(a), f, PREC_LOWEST);
    ReadBack([TName(a), TDot, TName(f)], Getter(Name(a), f), rest);
    PrintSetter(Name(a), f, Name(b), PREC_LOWEST);
    ReadBack([TName(a), TDot, TName(f), TEq, TName(b)], Setter(Name(a), f, Name(b)), rest);
  }

  // ----- Conditionals and assignments --------------------------------------------------------------------------

  /** Of the operators on either side of `?` and `:` none is torn apart by them, nor is a prefix operator. */
  lemma {:induction false} ConditionalBindsLooser(t: Token, u: UnOp, x: Connective, a: string, b: string, c: string,
                                                  d: string, rest: seq<Token>)
    requires IsPrefix(t, u) && Ends(rest)
    ensures ParseExpr([TName(a), TokenOf(x), TName(b), TQuestion, TName(c), TColon, TName(d)] + rest) ==
            Ok(Cond(Joined(x, Name(a), Name(b)), Name(c), Name(d)), rest)
    ensures ParseExpr([TName(a), TQuestion, TName(b), TokenOf(x), TName(c), TColon, TName(d)] + rest) ==
            Ok(Cond(Name(a), Joined(x, Name(b), Name(c)), Name(d)), rest)
    ensures ParseExpr([TName(a), TQuestion, TName(b), TColon, TName(c), TokenOf(x), TName(d)] + rest) ==
            Ok(Cond(Name(a), Name(b), Joined(x, Name(c), Name(d))), rest)
    ensures ParseExpr([t, TName(a), TQuestion, TName(b), TColon, TName(c)] + rest) ==
            Ok(Cond(Unary(u, Name(a)), Name(b), Name(c)), rest)
  {
    hide Print, ParseExpr;
    PrintConditions(t, u, x, a, b, c, d);
    PrintBranches(x, a, b, c, d);
    ReadBack([TName(a), TokenOf(x), TName(b), TQuestion, TName(c), TColon, TName(d)],
             Cond(Joined(x, Name(a), Name(b)), Name(c), Name(d)), rest);
    ReadBack([TName(a), TQuestion, TName(b), TokenOf(x), TName(c), TColon, TName(d)],
             Cond(Name(a), Joined(x, Name(b), Name(c)), Name(d)), rest);
    ReadBack([TName(a), TQuestion, TName(b), TColon, TName(c), TokenOf(x), TName(d)],
             Cond(Name(a), Name(b), Joined(x, Name(c), Name(d))), rest);
    ReadBack([t, TName(a), TQuestion, TName(b), TColon, TName(c)],
             Cond(Unary(u, Name(a)), Name(b), Name(c)), rest);
  }

  lemma {:induction false} PrintConditions(t: Token, u: UnOp, x: Connective, a: string, b: string, c: string, d: string)
    requires IsPrefix(t, u)
    ensures Print(Cond(Joined(x, Name(a), Name(b)), Name(c), Name(d)), PREC_LOWEST) ==
            [TName(a), TokenOf(x), TName(b), TQuestion, TName(c), TColon, TName(d)]
    ensures Print(Cond(Unary(u, Name(a)), Name(b), Name(c)), PREC_LOWEST) ==
            [t, TName(a), TQuestion, TName(b), TColon, TName(c)]
  {
    hide Print;
    AnyName(a);
    AnyName(b);
    AnyName(c);
    AnyName(d);
    PrintJoined(x, Name(a), Name(b), PREC_LOGICAL_OR);
    PrintCond(Joined(x, Name(a), Name(b)), Name(c), Name(d), PREC_LOWEST);
    PrintUnary(t, u, Name(a), PREC_LOGICAL_OR);
    PrintCond(Unary(u, Name(a)), Name(b), Name(c), PREC_LOWEST);
  }

  lemma {:induction false} PrintBranches(x: Connective, a: string, b: string, c: string, d: string)
    ensures Print(Cond(Name(a), Joined(x, Name(b), Name(c)), Name(d)), PREC_LOWEST) ==
            [TName(a), TQuestion, TName(b), TokenOf(x), TName(c), TColon, TName(d)]
    ensures Print(Cond(Name(a), Name(b), Joined(x, Name(c), Name(d))), PREC_LOWEST) ==
            [TName(a), TQuestion, TName(b), TColon, TName(c), TokenOf(x), TName(d)]
  {
    hide Print;
    AnyName(a);
    AnyName(b);
    AnyName(c);
    AnyName(d);
    PrintJoined(x, Name(b), Name(c), PREC_CONDITIONAL);
    PrintCond(Name(a), Joined(x, Name(b), Name(c)), Name(d), PREC_LOWEST);
    PrintJoined(x, Name(c), Name(d), PREC_ASSIGNMENT);
    PrintCond(Name(a), Name(b), Joined(x, Name(c), Name(d)), PREC_LOWEST);
  }

  lemma {:induction false} AnyName(a: string)
    ensures forall prec: nat :: prec <= PREC_PRIMARY ==> Print(Name(a), prec) == [TName(a)]
  {
  }

  /** A conditional may stand after the `:` of another, and there it belongs to that branch. */
  lemma {:induction false} ConditionalsGroupRight(a: string, b: string, c: string, d: string, e: string,
                                                  rest: seq<Token>)
    requires Ends(rest)
    ensures ParseExpr([TName(a), TQuestion, TName(b), TColon, TName(c), TQuestion, TName(d), TColon, TName(e)] + rest)
            == Ok(Cond(Name(a), Name(b), Cond(Name(c), Name(d), Name(e))), rest)
  {
    hide Print, ParseExpr;
    AnyName(a);
    AnyName(b);
    AnyName(c);
    AnyName(d);
    AnyName(e);
    PrintCond(Name(c), Name(d), Name(e), PREC_ASSIGNMENT);
    PrintCond(Name(a), Name(b), Cond(Name(c), Name(d), Name(e)), PREC_LOWEST);
    ReadBack([TName(a), TQuestion, TName(b), TColon, TName(c), TQuestion, TName(d), TColon, TName(e)],
             Cond(Name(a), Name(b), Cond(Name(c), Name(d), Name(e))), rest);
  }

  /** The expression before the `:` is parsed above the level of conditionals: one that stands there without parentheses
      is an error. */
  lemma {:induction false} ConditionalNotBeforeColon(a: string, b: string, more: seq<Token>)
    ensures ParseExpr([TName(a), TQuestion, TName(b), TQuestion] + more).Fail?
  {
    var last := [TQuestion] + more;
    var mid := [TName(b)] + last;
    var toks := [TQuestion] + mid;
    assert [TName(a), TQuestion, TName(b), TQuestion] + more == [TName(a)] + toks;
    OneName(b, last, PREC_CONDITIONAL);
    StopsAt(Name(b), last, PREC_CONDITIONAL, true);
    assert toks[1..] == mid;
    NameNotSkipped(b, last);
    assert ParseBranches(Name(a), mid).Fail?;
    OperatorRules(Name(a), toks, true);
    OneName(a, toks, PREC_LOWEST);
  }

  lemma {:induction false} OneName(a: string, rest: seq<Token>, prec: nat)
    requires PREC_LOWEST <= prec && (Peek(rest) != TEq || PREC_CONDITIONAL < prec)
    ensures ParsePrec([TName(a)] + rest, prec) == ParseInfix(Name(a), rest, prec, prec <= PREC_CONDITIONAL)
  {
    hide ParseInfix;
    var toks := [TName(a)] + rest;
    assert toks[1..] == rest;
    assert ParsePrefix(toks, prec <= PREC_CONDITIONAL) == Ok(Name(a), rest);
  }

  /** An assignment takes all that follows it. */
  lemma {:induction false} AssignmentBindsLoosest(x: Connective, a: string, b: string, c: string, d: string,
                                                  rest: seq<Token>)
    requires Ends(rest)
    ensures ParseExpr([TName(a), TEq, TName(b), TokenOf(x), TName(c)] + rest) ==
            Ok(Assign(a, Joined(x, Name(b), Name(c))), rest)
    ensures ParseExpr([TName(a), TEq, TName(b), TEq, TName(c)] + rest) == Ok(Assign(a, Assign(b, Name(c))), rest)
    ensures ParseExpr([TName(a), TEq, TName(b), TQuestion, TName(c), TColon, TName(d)] + rest) ==
            Ok(Assign(a, Cond(Name(b), Name(c), Name(d))), rest)
  {
    hide Print, ParseExpr;
    AnyName(b);
    AnyName(c);
    AnyName(d);
    PrintJoined(x, Name(b), Name(c), PREC_LOWEST);
    PrintAssign(a, Joined(x, Name(b), Name(c)), PREC_LOWEST);
    ReadBack([TName(a), TEq, TName(b), TokenOf(x), TName(c)], Assign(a, Joined(x, Name(b), Name(c))), rest);
    PrintAssign(b, Name(c), PREC_LOWEST);
    PrintAssign(a, Assign(b, Name(c)), PREC_LOWEST);
    ReadBack([TName(a), TEq, TName(b), TEq, TName(c)], Assign(a, Assign(b, Name(c))), rest);
    PrintCond(Name(b), Name(c), Name(d), PREC_LOWEST);
    PrintAssign(a, Cond(Name(b), Name(c), Name(d)), PREC_LOWEST);
    ReadBack([TName(a), TEq, TName(b), TQuestion, TName(c), TColon, TName(d)],
             Assign(a, Cond(Name(b), Name(c), Name(d))), rest);
  }

  /** It may stand before the `:` and after it. */
  lemma {:induction false} AssignmentInBranches(a: string, b: string, c: string, d: string, rest: seq<Token>)
    requires Ends(rest)
    ensures ParseExpr([TName(a), TQuestion, TName(b), TEq, TName(c), TColon, TName(d)] + rest) ==
            Ok(Cond(Name(a), Assign(b, Name(c)), Name(d)), rest)
    ensures ParseExpr([TName(a), TQuestion, TName(b), TColon, TName(c), TEq, TName(d)] + rest) ==
            Ok(Cond(Name(a), Name(b), Assign(c, Name(d))), rest)
  {
    hide Print, ParseExpr;
    AnyName(a);
    AnyName(b);
    AnyName(c);
    AnyName(d);
    PrintAssign(b, Name(c), PREC_CONDITIONAL);
    PrintCond(Name(a), Assign(b, Name(c)), Name(d), PREC_LOWEST);
    ReadBack([TName(a), TQuestion, TName(b), TEq, TName(c), TColon, TName(d)],
             Cond(Name(a), Assign(b, Name(c)), Name(d)), rest);
    PrintAssign(c, Name(d), PREC_ASSIGNMENT);
    PrintCond(Name(a), Name(b), Assign(c, Name(d)), PREC_LOWEST);
    ReadBack([TName(a), TQuestion, TName(b), TColon, TName(c), TEq, TName(d)],
             Cond(Name(a), Name(b), Assign(c, Name(d))), rest);
  }

  /** A setter is one of the receiver next to the dot, and takes all that follows. */
  lemma {:induction false} SetterBindsLoosest(x: Connective, a: string, f: string, b: string, c: string,
                                              rest: seq<Token>)
    requires Ends(rest)
    ensures ParseExpr([TName(a), TDot, TName(f), TEq, TName(b), TokenOf(x), TName(c)] + rest) ==
            Ok(Setter(Name(a), f, Joined(x, Name(b), Name(c))), rest)
  {
    hide Print, ParseExpr;
    AnyName(a);
    AnyName(b);
    AnyName(c);
    PrintJoined(x, Name(b), Name(c), PREC_LOWEST);
    PrintSetter(Name(a), f, Joined(x, Name(b), Name(c)), PREC_LOWEST);
    ReadBack([TName(a), TDot, TName(f), TEq, TName(b), TokenOf(x), TName(c)],
             Setter(Name(a), f, Joined(x, Name(b), Name(c))), rest);
  }

  /** The right operand of an operator cannot be assigned to: the expression ends before the `=`. */
  lemma {:induction false} NoAssignmentToOperand(x: Connective, a: string, b: string, more: seq<Token>)
    ensures ParseExpr([TName(a), TokenOf(x), TName(b), TEq] + more) ==
            Ok(Joined(x, Name(a), Name(b)), [TEq] + more)
  {
    hide ParsePrec, ParseInfix, ParseOperator;
    var last := [TEq] + more;
    var right := [TName(b)] + last;
    var toks := [TokenOf(x)] + right;
    assert [TName(a), TokenOf(x), TName(b), TEq] + more == [TName(a)] + toks;
    OneName(a, toks, PREC_LOWEST);
    OneName(b, last, RightPrec(x));
    StopsAt(Name(b), last, RightPrec(x), false);
    assert toks[1..] == right;
    NameNotSkipped(b, last);
    JoinedRule(x, Name(a), toks, Name(b), last);
    TakesOperator(Name(a), toks, PREC_LOWEST, true, Joined(x, Name(a), Name(b)), last);
    StopsAt(Joined(x, Name(a), Name(b)), last, PREC_LOWEST, true);
  }

  lemma {:induction false} JoinedRule(x: Connective, left: Expr, toks: seq<Token>, right: Expr, rest: seq<Token>)
    requires toks != [] && toks[0] == TokenOf(x)
    requires ParsePrec(SkipLines(toks[1..]), RightPrec(x)) == Ok(right, rest)
    ensures ParseOperator(left, toks, true) == Ok(Joined(x, left, right), rest)
  {
    hide ParsePrec, SkipLines;
  }
}

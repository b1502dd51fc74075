/** The Pratt grammar of expressions and the recursive-descent grammar of statements, as functions
    from tokens to trees that follow the parser's own steps. */
module Grammar {
  import opened Wrappers
  import opened Syntax

  /** The tokens of the fragment. `TOther` stands for the tokens that have no rule in the grammar
      table and start no statement. */
  datatype Token =
    | TName(name: string) | TLiteral(v: Value) | TTrue | TFalse | TNull
    | TOp(op: BinOp) | TBang | TTilde | TAmpAmp | TPipePipe | TQuestion | TColon | TEq | TDot
    | TLeftParen | TRightParen | TLeftBrace | TRightBrace | TLine
    | TBreak | TElse | TFor | TIf | TIn | TReturn | TVar | TWhile
    | TOther | TEof

  const PREC_NONE := 0
  const PREC_LOWEST := 1
  const PREC_ASSIGNMENT := 2
  const PREC_CONDITIONAL := 3
  const PREC_LOGICAL_OR := 4
  const PREC_LOGICAL_AND := 5
  const PREC_EQUALITY := 6
  const PREC_IS := 7
  const PREC_COMPARISON := 8
  const PREC_BITWISE_OR := 9
  const PREC_BITWISE_XOR := 10
  const PREC_BITWISE_AND := 11
  const PREC_BITWISE_SHIFT := 12
  const PREC_RANGE := 13
  const PREC_TERM := 14
  const PREC_FACTOR := 15
  const PREC_UNARY := 16
  const PREC_CALL := 17
  const PREC_PRIMARY := 18

  function OpPrec(op: BinOp): (p: nat)
    ensures PREC_EQUALITY <= p <= PREC_FACTOR
  {
    match op
    case DotDot => PREC_RANGE case DotDotDot => PREC_RANGE
    case Star => PREC_FACTOR case Slash => PREC_FACTOR case Percent => PREC_FACTOR
    case Plus => PREC_TERM case Minus => PREC_TERM
    case LtLt => PREC_BITWISE_SHIFT case GtGt => PREC_BITWISE_SHIFT
    case Pipe => PREC_BITWISE_OR case Caret => PREC_BITWISE_XOR case Amp => PREC_BITWISE_AND
    case Lt => PREC_COMPARISON case Gt => PREC_COMPARISON case LtEq => PREC_COMPARISON case GtEq => PREC_COMPARISON
    case EqEq => PREC_EQUALITY case BangEq => PREC_EQUALITY
    case Is => PREC_IS
  }

  /** The precedence column of the rule table: how tightly a token binds as an infix operator. */
  function InfixPrec(t: Token): nat {
    match t
    case TOp(op) => OpPrec(op)
    case TAmpAmp => PREC_LOGICAL_AND
    case TPipePipe => PREC_LOGICAL_OR
    case TQuestion => PREC_ASSIGNMENT
    case TDot => PREC_CALL
    case _ => PREC_NONE
  }

  /** The current token: past the end of the program there are only end-of-file tokens. */
  function Peek(toks: seq<Token>): Token {
    if toks == [] then TEof else toks[0]
  }

  function Next(toks: seq<Token>): seq<Token> {
    if toks == [] then [] else toks[1..]
  }

  function SkipLines(toks: seq<Token>): (r: seq<Token>)
    ensures |r| <= |toks|
    ensures Peek(r) != TLine
  {
    if Peek(toks) == TLine then SkipLines(toks[1..]) else toks
  }

  datatype Parsed<+A> = Fail | Ok(tree: A, rest: seq<Token>)

  function UnaryOf(t: Token): Option<UnOp> {
    match t
    case TOp(op) => if op == Minus then Some(Neg) else None
    case TBang => Some(Not)
    case TTilde => Some(Complement)
    case _ => None
  }

  // ----- The fragment ------------------------------------------------------------------------------

  /** An expression is to begin after the token, so that a brace would open a map. */
  predicate WantsOperand(t: Token) {
    t.TOp? || t.TBang? || t.TTilde? || t.TAmpAmp? || t.TPipePipe? || t.TQuestion? || t.TColon? || t.TEq?
      || t.TLeftParen?
    || t.TIn? || t.TReturn?
  }

  /** The last token before number `i` that is not a line break. */
  function LastBefore(toks: seq<Token>, i: nat): Token
    requires i <= |toks|
  {
    if i == 0 then TLine else if toks[i - 1] != TLine then toks[i - 1] else LastBefore(toks, i - 1)
  }

  /** The tokens are all of the fragment, and none of them stands where it would begin something else: argument lists
      and block arguments after the name of a method, and maps. */
  predicate InFragment(toks: seq<Token>) {
    forall i :: 0 <= i < |toks| ==>
      && toks[i] != TOther
      && (toks[i] == TLeftParen || toks[i] == TLeftBrace ==>
            !(i >= 1 && toks[i - 1].TName? && LastBefore(toks, i - 1) == TDot))
      && (toks[i] == TLeftBrace ==> !WantsOperand(LastBefore(toks, i)) && !(i >= 1 && toks[i - 1] == TLeftBrace))
  }

  // ----- Expressions -------------------------------------------------------------------------------

  /** Parse an expression whose operators bind at least as tightly as `prec`. */
  function ParsePrec(toks: seq<Token>, prec: nat): (r: Parsed<Expr>)
    requires prec >= PREC_LOWEST
    ensures r.Ok? ==> |r.rest| < |toks|
    decreases |toks|, 1
  {
    var p := ParsePrefix(toks, prec <= PREC_CONDITIONAL);
    if p.Fail? then Fail else ParseInfix(p.tree, p.rest, prec, prec <= PREC_CONDITIONAL)
  }

  function ParseExpr(toks: seq<Token>): (r: Parsed<Expr>)
    ensures r.Ok? ==> |r.rest| < |toks|
    decreases |toks|, 2
  {
    ParsePrec(toks, PREC_LOWEST)
  }

  /** The prefix column of the rule table. */
  function ParsePrefix(toks: seq<Token>, canAssign: bool): (r: Parsed<Expr>)
    ensures r.Ok? ==> |r.rest| < |toks|
    decreases |toks|, 0
  {
    if toks == [] then Fail
    else
      var rest := toks[1..];
      match toks[0]
      case TNull => Ok(NullLit, rest)
      case TTrue => Ok(BoolLit(true), rest)
      case TFalse => Ok(BoolLit(false), rest)
      case TLiteral(v) => Ok(Lit(v), rest)
      case TLeftParen =>
        var e := ParseExpr(rest);
        if e.Fail? || Peek(e.rest) != TRightParen then Fail else Ok(e.tree, Next(e.rest))
      case TName(x) =>
        if canAssign && Peek(rest) == TEq then
          var e := ParseExpr(Next(rest));
          if e.Fail? then Fail else Ok(Assign(x, e.tree), e.rest)
        else Ok(Name(x), rest)
      case t =>
        match UnaryOf(t)
        case None => Fail
        case Some(op) =>
          var e := ParsePrec(SkipLines(rest), PREC_UNARY + 1);
          if e.Fail? then Fail else Ok(Unary(op, e.tree), e.rest)
  }

  /** The loop over infix operators: `left` is what has been parsed so far. */
  function ParseInfix(left: Expr, toks: seq<Token>, prec: nat, canAssign: bool): (r: Parsed<Expr>)
    requires prec >= PREC_LOWEST
    ensures r.Ok? ==> |r.rest| <= |toks|
    decreases |toks|, 1
  {
    if toks == [] || prec > InfixPrec(toks[0]) then Ok(left, toks)
    else
      var p := ParseOperator(left, toks, canAssign);
      if p.Fail? then Fail else ParseInfix(p.tree, p.rest, prec, canAssign)
  }

  /** The infix column of the rule table, on a token that has an entry there. */
  function ParseOperator(left: Expr, toks: seq<Token>, canAssign: bool): (r: Parsed<Expr>)
    requires toks != []
    ensures r.Ok? ==> |r.rest| < |toks|
    decreases |toks|, 0
  {
    var rest := SkipLines(toks[1..]);
    match toks[0]
    case TOp(op) =>
      var r := ParsePrec(rest, OpPrec(op) + 1);
      if r.Fail? then Fail else Ok(Infix(op, left, r.tree), r.rest)
    case TAmpAmp =>
      var r := ParsePrec(rest, PREC_LOGICAL_AND);
      if r.Fail? then Fail else Ok(And(left, r.tree), r.rest)
    case TPipePipe =>
      var r := ParsePrec(rest, PREC_LOGICAL_OR);
      if r.Fail? then Fail else Ok(Or(left, r.tree), r.rest)
    case TQuestion => ParseBranches(left, rest)
    case TDot => ParseCall(left, rest, canAssign)
    case _ => Fail
  }

  /** The two branches of `?:`. Both may be assignments; the second may be a conditional, the first may not. */
  function ParseBranches(left: Expr, toks: seq<Token>): (r: Parsed<Expr>)
    ensures r.Ok? ==> |r.rest| < |toks| && r.tree.Cond? && r.tree.c == left
    decreases |toks|, 2
  {
    var t := ParsePrec(toks, PREC_CONDITIONAL);
    if t.Fail? then Fail else ParseElse(left, t.tree, t.rest)
  }

  function ParseElse(left: Expr, t: Expr, toks: seq<Token>): (r: Parsed<Expr>)
    ensures r.Ok? ==> |r.rest| < |toks| && r.tree.Cond? && r.tree.c == left && r.tree.t == t
    decreases |toks|, 2
  {
    if Peek(toks) != TColon then Fail
    else
      var f := ParsePrec(SkipLines(Next(toks)), PREC_ASSIGNMENT);
      if f.Fail? then Fail else Ok(Cond(left, t, f.tree), f.rest)
  }

  /** A getter or a setter, after the `.` */
  function ParseCall(left: Expr, toks: seq<Token>, canAssign: bool): (r: Parsed<Expr>)
    ensures r.Ok? ==> |r.rest| < |toks| && (r.tree.Getter? || r.tree.Setter?) && r.tree.recv == left
    decreases |toks|, 2
  {
    if !Peek(toks).TName? then Fail else ParseNamedCall(left, toks[0].name, Next(toks), canAssign)
  }

  function ParseNamedCall(left: Expr, name: string, toks: seq<Token>, canAssign: bool): (r: Parsed<Expr>)
    ensures r.Ok? ==> |r.rest| <= |toks| && (r.tree.Getter? || r.tree.Setter?) && r.tree.recv == left
    decreases |toks|, 3
  {
    if canAssign && Peek(toks) == TEq then
      var e := ParseExpr(SkipLines(Next(toks)));
      if e.Fail? then Fail else Ok(Setter(left, name, e.tree), e.rest)
    else if Peek(toks) == TLeftParen || Peek(toks) == TLeftBrace then Fail
    else Ok(Getter(left, name), toks)
  }

  // ----- Statements --------------------------------------------------------------------------------

  /** `(` expression `)` */
  function ParseParen(toks: seq<Token>): (r: Parsed<Expr>)
    ensures r.Ok? ==> |r.rest| < |toks|
  {
    if Peek(toks) != TLeftParen then Fail
    else
      var e := ParseExpr(Next(toks));
      if e.Fail? || Peek(e.rest) != TRightParen then Fail else Ok(e.tree, Next(e.rest))
  }

  function ParseStmt(toks: seq<Token>): (r: Parsed<Stmt>)
    ensures r.Ok? ==> |r.rest| < |toks|
    decreases |toks|, 1
  {
    match Peek(toks)
    case TBreak => Ok(Break, Next(toks))
    case TFor => ParseFor(Next(toks))
    case TIf => ParseIf(Next(toks))
    case TReturn => ParseReturn(Next(toks))
    case TWhile => ParseWhile(Next(toks))
    case TLeftBrace => ParseBlockStmt(Next(toks))
    case _ => ParseExprStmt(toks)
  }

  function ParseExprStmt(toks: seq<Token>): (r: Parsed<Stmt>)
    ensures r.Ok? ==> |r.rest| < |toks|
  {
    var e := ParseExpr(toks);
    if e.Fail? then Fail else Ok(ExprS(e.tree), e.rest)
  }

  function ParseReturn(toks: seq<Token>): (r: Parsed<Stmt>)
    ensures r.Ok? ==> |r.rest| <= |toks| && r.tree.Return?
  {
    if Peek(toks) == TLine then Ok(Return(NullLit), toks)
    else
      var e := ParseExpr(toks);
      if e.Fail? then Fail else Ok(Return(e.tree), e.rest)
  }

  /** (condition) statement [else statement] */
  function ParseIf(toks: seq<Token>): (r: Parsed<Stmt>)
    ensures r.Ok? ==> |r.rest| < |toks| && (r.tree.IfThen? || r.tree.IfElse?)
    decreases |toks|, 2
  {
    var c := ParseParen(toks);
    if c.Fail? then Fail else ParseBranchesS(c.tree, c.rest)
  }

  function ParseBranchesS(c: Expr, toks: seq<Token>): (r: Parsed<Stmt>)
    ensures r.Ok? ==> |r.rest| < |toks| && (r.tree.IfThen? || r.tree.IfElse?) && r.tree.c == c
    decreases |toks|, 2
  {
    var t := ParseStmt(toks);
    if t.Fail? then Fail else ParseElseS(c, t.tree, t.rest)
  }

  function ParseElseS(c: Expr, t: Stmt, toks: seq<Token>): (r: Parsed<Stmt>)
    ensures r.Ok? ==> |r.rest| <= |toks| && (r.tree.IfThen? || r.tree.IfElse?) && r.tree.c == c && r.tree.t == t
    decreases |toks|, 2
  {
    if Peek(toks) == TElse then
      var f := ParseStmt(Next(toks));
      if f.Fail? then Fail else Ok(IfElse(c, t, f.tree), f.rest)
    else Ok(IfThen(c, t), toks)
  }

  function ParseWhile(toks: seq<Token>): (r: Parsed<Stmt>)
    ensures r.Ok? ==> |r.rest| < |toks| && r.tree.While?
    decreases |toks|, 2
  {
    var c := ParseParen(toks);
    if c.Fail? then Fail
    else
      var b := ParseStmt(c.rest);
      if b.Fail? then Fail else Ok(While(c.tree, b.tree), b.rest)
  }

  function ParseBlockStmt(toks: seq<Token>): (r: Parsed<Stmt>)
    ensures r.Ok? ==> |r.rest| < |toks|
    decreases |toks|, 5
  {
    var b := ParseBlock(toks);
    if b.Fail? then Fail
    else Ok(if b.tree.ExprBody? then ExprS(b.tree.e) else Block(b.tree.b), b.rest)
  }

  /** (name in sequence) body, after `for` */
  function ParseFor(toks: seq<Token>): (r: Parsed<Stmt>)
    ensures r.Ok? ==> |r.rest| < |toks| && r.tree.For?
    decreases |toks|, 2
  {
    var h := ParseForHead(toks);
    if h.Fail? then Fail
    else
      var b := ParseStmt(h.rest);
      if b.Fail? then Fail else Ok(For(h.tree.0, h.tree.1, b.tree), b.rest)
  }

  function ParseForHead(toks: seq<Token>): (r: Parsed<(string, Expr)>)
    ensures r.Ok? ==> |r.rest| < |toks|
  {
    var t2 := Next(toks);
    var t3 := Next(t2);
    if Peek(toks) != TLeftParen || !Peek(t2).TName? || Peek(t3) != TIn then Fail
    else
      var e := ParseExpr(SkipLines(Next(t3)));
      if e.Fail? || Peek(e.rest) != TRightParen then Fail else Ok((Peek(t2).name, e.tree), Next(e.rest))
  }

  /** What follows a `{`, up to and with its `}`. */
  function ParseBlock(toks: seq<Token>): (r: Parsed<FnBody>)
    ensures r.Ok? ==> |r.rest| < |toks|
    decreases |toks|, 4
  {
    if Peek(toks) == TRightBrace then Ok(Defs(Done), Next(toks))
    else if Peek(toks) != TLine then
      var e := ParseExpr(toks);
      if e.Fail? || Peek(e.rest) != TRightBrace then Fail else Ok(ExprBody(e.tree), Next(e.rest))
    else
      var rest := SkipLines(toks);
      if Peek(rest) == TRightBrace then Ok(Defs(Done), Next(rest))
      else
        var b := ParseDefs(rest);
        if b.Fail? || Peek(b.rest) != TRightBrace then Fail else Ok(Defs(b.tree), Next(b.rest))
  }

  /** A variable definition or a statement, as the only one of a body. */
  function ParseDef(toks: seq<Token>): (r: Parsed<Body>)
    ensures r.Ok? ==> |r.rest| < |toks|
    decreases |toks|, 2
  {
    if Peek(toks) == TVar then
      var v := ParseVar(Next(toks));
      if v.Fail? then Fail else Ok(VarThen(v.tree.0, v.tree.1, Done), v.rest)
    else
      var s := ParseStmt(toks);
      if s.Fail? then Fail else Ok(StmtThen(s.tree, Done), s.rest)
  }

  /** One or more definitions, each ended by a line. */
  function ParseDefs(toks: seq<Token>): (r: Parsed<Body>)
    ensures r.Ok? ==> |r.rest| < |toks|
    decreases |toks|, 3
  {
    var d := ParseDef(toks);
    if d.Fail? || Peek(d.rest) != TLine then Fail
    else
      var more := ParseMore(SkipLines(d.rest));
      if more.Fail? then Fail else Ok(Chain(d.tree, more.tree), more.rest)
  }

  /** The definitions stop at a `}` or at the end of the program. */
  function ParseMore(toks: seq<Token>): (r: Parsed<Body>)
    ensures r.Ok? ==> |r.rest| <= |toks|
    decreases |toks|, 4
  {
    if Peek(toks) == TRightBrace || Peek(toks) == TEof then Ok(Done, toks) else ParseDefs(toks)
  }

  /** name [= initializer], after `var` */
  function ParseVar(toks: seq<Token>): (r: Parsed<(string, Expr)>)
    ensures r.Ok? ==> |r.rest| < |toks|
  {
    if !Peek(toks).TName? then Fail
    else
      var e := ParseInit(Next(toks));
      if e.Fail? then Fail else Ok((toks[0].name, e.tree), e.rest)
  }

  function ParseInit(toks: seq<Token>): (r: Parsed<Expr>)
    ensures r.Ok? ==> |r.rest| <= |toks|
  {
    if Peek(toks) == TEq then ParseExpr(SkipLines(Next(toks))) else Ok(NullLit, toks)
  }
}

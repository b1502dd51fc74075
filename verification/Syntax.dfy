/** The abstract syntax of the part of the Wren language that is compiled inside one function
    body, and the values it computes with. */
module Syntax {
  import opened Wrappers

  /** A Wren value. Heap objects are opaque identities. */
  datatype Value = Null | Bool(b: bool) | Num(n: int) | Obj(id: nat)

  /** `null` and `false` are the two values that make a condition fail. */
  predicate Falsy(v: Value) {
    v == Null || v == Bool(false)
  }

  datatype BinOp =
    | DotDot | DotDotDot | Star | Slash | Percent | Plus | Minus | LtLt | GtGt | Pipe | Caret | Amp
    | Lt | Gt | LtEq | GtEq | EqEq | BangEq | Is

  datatype UnOp = Neg | Not | Complement

  /** Names of operators as they appear in the grammar's rule table. */
  function BinName(op: BinOp): string {
    match op
    case DotDot => ".." case DotDotDot => "..." case Star => "*" case Slash => "/" case Percent => "%"
    case Plus => "+" case Minus => "-" case LtLt => "<<" case GtGt => ">>" case Pipe => "|"
    case Caret => "^" case Amp => "&" case Lt => "<" case Gt => ">" case LtEq => "<=" case GtEq => ">="
    case EqEq => "==" case BangEq => "!=" case Is => "is"
  }

  function UnName(op: UnOp): string {
    match op
    case Neg => "-" case Not => "!" case Complement => "~"
  }

  /** A name that begins with a lower-case letter; any other may be a module variable defined later. */
  predicate IsLocalName(x: string) {
    x != "" && 'a' <= x[0] <= 'z'
  }

  /** Method signatures: a getter or unary operator is its bare name, a one-argument method gets
      "(_)", and a setter "=(_)". */
  function InfixSig(op: BinOp): string { BinName(op) + "(_)" }

  function SetterSig(name: string): string { name + "=(_)" }

  const ITERATE := "iterate(_)"
  const ITERATOR_VALUE := "iteratorValue(_)"

  /** Names of the two hidden locals of a `for` loop; the space keeps them apart from user names. */
  const SEQ_LOCAL := "seq "
  const ITER_LOCAL := "iter "

  datatype Expr =
    | NullLit
    | BoolLit(b: bool)
    | Lit(v: Value)
    | Name(name: string)
    | Assign(name: string, e: Expr)
    | Unary(op: UnOp, e: Expr)
    | Infix(bop: BinOp, l: Expr, r: Expr)
    | Getter(recv: Expr, method_: string)
    | Setter(recv: Expr, method_: string, e: Expr)
    | And(l: Expr, r: Expr)
    | Or(l: Expr, r: Expr)
    | Cond(c: Expr, t: Expr, f: Expr)

  datatype Stmt =
    | ExprS(e: Expr)
    | IfThen(c: Expr, t: Stmt)
    | IfElse(c: Expr, t: Stmt, f: Stmt)
    | While(c: Expr, body: Stmt)
    | For(x: string, e: Expr, body: Stmt)
    | Break
    | Return(e: Expr)
    | Block(b: Body)

  /** The definitions of a block, in order. Only a block can declare variables. */
  datatype Body =
    | Done
    | VarThen(x: string, init: Expr, rest: Body)
    | StmtThen(s: Stmt, rest: Body)

  /** What stands between the braces of a function: one expression, or definitions. */
  datatype FnBody = ExprBody(e: Expr) | Defs(b: Body)

  /** The names a block has declared by its end, in slot order. */
  function Declared(b: Body): seq<string> {
    match b
    case Done => []
    case VarThen(x, _, rest) => [x] + Declared(rest)
    case StmtThen(_, rest) => Declared(rest)
  }

  /** The definitions of `a`, then those of `b`. */
  function Chain(a: Body, b: Body): Body {
    match a
    case Done => b
    case VarThen(x, init, rest) => VarThen(x, init, Chain(rest, b))
    case StmtThen(s, rest) => StmtThen(s, Chain(rest, b))
  }

  /** The index of the last occurrence of `x`: the innermost declaration shadows the outer ones. */
  function FindLast(names: seq<string>, x: string): (r: Option<nat>)
    ensures r.Some? ==> r.value < |names| && names[r.value] == x
    ensures r.Some? ==> forall j :: r.value < j < |names| ==> names[j] != x
    ensures r.None? ==> x !in names
  {
    if names == [] then None
    else if names[|names| - 1] == x then Some(|names| - 1)
    else FindLast(names[..|names| - 1], x)
  }

  /** The index of the first occurrence of `x`, or the length of the table. */
  function IndexOf<T(==)>(table: seq<T>, x: T): (r: nat)
    ensures r <= |table|
    ensures r < |table| <==> x in table
    ensures r < |table| ==> table[r] == x
    ensures forall j :: 0 <= j < r ==> table[j] != x
  {
    if table == [] then 0
    else if table[0] == x then 0
    else 1 + IndexOf(table[1..], x)
  }

  /** A new entry is found where it has been added. */
  lemma {:induction false} IndexOfNew<T>(table: seq<T>, x: T)
    requires x !in table
    ensures IndexOf(table + [x], x) == |table|
  {
    var i := IndexOf(table + [x], x);
    assert x in table + [x];
    forall j | 0 <= j < |table| ensures (table + [x])[j] != x {
      assert table[j] in table;
    }
  }

  /** Appending to a table does not move the entries it already has. */
  lemma {:induction false} IndexOfStable<T>(table: seq<T>, table': seq<T>, x: T)
    requires table <= table' && x in table
    ensures IndexOf(table, x) == IndexOf(table', x)
  {
    var i := IndexOf(table, x);
    var j := IndexOf(table', x);
    assert table'[i] == x;
    assert x in table';
  }
}

/** Programs of functions within functions, and the values they compute with. */
module FunctionSyntax {
  /** A value: one a literal may have, or the closure that has been made as number `id`. */
  datatype Value = Null | Bool(b: bool) | Num(n: int) | Closure(id: nat)

  type Literal = v: Value | !v.Closure? witness Null

  /** `null` and `false` are the two values that make a condition fail. */
  predicate Falsy(v: Value) {
    v == Null || v == Bool(false)
  }

  datatype Expr =
    | Constant(value: Literal)
    | Name(name: string)
    | Assign(name: string, e: Expr)
    | Fn(params: seq<string>, body: seq<Definition>)
    | CallOf(callee: Expr, args: seq<Expr>)

  datatype Stmt =
    | Do(e: Expr)
    | Block(parts: seq<Definition>)
    | If(cond: Expr, thenBranch: Stmt)
    | IfElse(cond: Expr, thenBranch: Stmt, elseBranch: Stmt)
    | While(cond: Expr, body: Stmt)
    | Break
    | ReturnOf(e: Expr)

  datatype Definition = Var(name: string, init: Expr) | Plain(s: Stmt)
}

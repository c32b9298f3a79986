/**
 * The statement graph that the (external) parser hands to the executor.
 * Literals are kept as their source text and converted where they are used.
 * The per-kind `next_stmt` pointers of the C structures become the order of a
 * sequence of statements.
 */
module ProgramGraph {

  import opened Wrappers

  /** One operand term. `OtherElement` stands for the element kinds the executor
      does not handle (the keyword elements), so that its "wrong element" branches
      stay reachable. */
  datatype Element =
    | IntLit(text: string)
    | RealLit(text: string)
    | StrLit(text: string)
    | Ident(name: string)
    | OtherElement(text: string)

  /** Binary operators; `OtherOp` is any operator the evaluator does not support. */
  datatype Operator = Plus | Minus | Asterisk | Div | Mod | Power | OtherOp

  /** A right-hand side expression: a single term or `lhs op rhs`. */
  datatype Expr =
    | Unary(elem: Element)
    | Binary(lhs: Element, op: Operator, rhs: Element)

  /** The value on the right of `=`; `NonExpr` is anything that is not an expression. */
  datatype Rhs = RhsExpr(expr: Expr) | NonExpr

  datatype Stmt =
    | Assignment(line: int, varName: string, isPtrDeref: bool, rhs: Rhs)
    | FunctionCall(line: int, functionName: string, param: Option<Element>)
    | Pass(line: int)

  type Program = seq<Stmt>
}

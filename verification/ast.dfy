/** The expression tree built by the parser of `src/parser.rs` and reduced by `eval`. */
module Ast {
  import opened Chars

  /** The operator label of a node; the source keeps it as the token's Debug name. */
  datatype Op = Plus | Minus | Times | Divides

  datatype Expr =
    | Number(value: u64)
    | PrefixExpr(op: Op, right: Expr)
    | InfixExpr(left: Expr, op: Op, right: Expr)

  /** Every prefix node is a unary minus, the only prefix operator the grammar has. */
  predicate WellFormed(e: Expr) {
    match e
    case Number(_) => true
    case PrefixExpr(op, right) => op == Minus && WellFormed(right)
    case InfixExpr(left, _, right) => WellFormed(left) && WellFormed(right)
  }
}

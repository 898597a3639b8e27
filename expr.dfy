// The expression tree of the tree-walking pipeline (src/expr.rs).  The
// parser also builds `Super` nodes, so the tree has them too; a literal holds
// a run-time value.

module Exprs {
  import opened Token

  datatype Expr =
    | Binary(left: Expr, operator: Token, right: Expr)
    | Call(callee: Expr, paren: Token, arguments: seq<Expr>)
    | Get(obj: Expr, name: Token)
    | Grouping(expression: Expr)
    | Literal(literal: BasicType)
    | Logical(left: Expr, operator: Token, right: Expr)
    | Set(obj: Expr, name: Token, value: Expr)
    | Super(keyword: Token, methodName: Token, id: nat)
    | This(keyword: Token, id: nat)
    | Unary(operator: Token, right: Expr)
    | Variable(name: Token, id: nat)
    | Assign(name: Token, value: Expr, id: nat)
}

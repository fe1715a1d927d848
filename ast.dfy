/** The syntax tree (main.py:26-43): binary operations, unary operations and
    numbers.  A child is an `Option<Node>` because `factor` returns Python
    `None` on a token that cannot start a factor, and that `None` ends up as a
    child of the enclosing node. */
module Ast {

  import opened Wrappers
  import opened Tokens

  /** The kinds `expr` and `term` put into a `BinOp`. */
  type BinaryKind = k: TokenType | k == Plus || k == Minus || k == Mul || k == Div witness Plus

  /** The kinds `factor` puts into a `UnaryOp`. */
  type UnaryKind = k: TokenType | k == Plus || k == Minus witness Plus

  datatype Node =
    | BinOp(left: Option<Node>, op: BinaryKind, right: Option<Node>)
    | UnaryOp(sign: UnaryKind, right: Option<Node>)
    | Num(value: nat)

  /** Both children of every operation are present. */
  predicate CompleteNode(n: Node) {
    match n
    case BinOp(l, _, r) => l.Some? && r.Some? && CompleteNode(l.value) && CompleteNode(r.value)
    case UnaryOp(_, r) => r.Some? && CompleteNode(r.value)
    case Num(_) => true
  }

  /** A tree with no `None` anywhere. */
  predicate Complete(t: Option<Node>) {
    t.Some? && CompleteNode(t.value)
  }

  /** No division anywhere in the tree. */
  predicate DivFree(t: Option<Node>) {
    match t
    case None => true
    case Some(BinOp(l, op, r)) => op != Div && DivFree(l) && DivFree(r)
    case Some(UnaryOp(_, r)) => DivFree(r)
    case Some(Num(_)) => true
  }
}

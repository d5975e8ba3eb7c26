/**
 * The expression tree (src/ast.ts). The source's five node classes and the
 * `accept`/`ExprVisitor` double dispatch become one datatype: every consumer
 * matches on it, and Dafny checks that each match covers all five variants.
 */
module Ast {
  import opened Wrappers
  import opened Tokens

  /** A runtime value: the source's untyped `object` restricted to what literals and operators produce. */
  datatype Value<N> = Nil | Bool(b: bool) | Num(n: N) | Str(s: string)

  datatype Expr<N> =
    | Binary(left: Expr<N>, operator: Token<N>, right: Expr<N>)
    | Unary(operator: Token<N>, right: Expr<N>)
    | Literal(value: Value<N>)
    | Grouping(expression: Expr<N>)
    | Ternary(condition: Expr<N>, left: Expr<N>, right: Expr<N>)

  /** The value a STRING or NUMBER token's payload denotes. */
  function LiteralValue<N>(t: Token<N>): (v: Value<N>)
    requires t.literal.Some? && !t.literal.value.EmptyObject?
    ensures v.Num? <==> t.literal.value.NumLit?
    ensures v.Str? <==> t.literal.value.StrLit?
    ensures t.literal.value.NumLit? ==> v == Num(t.literal.value.num)
    ensures t.literal.value.StrLit? ==> v == Str(t.literal.value.str)
  {
    match t.literal.value
    case NumLit(n) => Num(n)
    case StrLit(s) => Str(s)
  }

  /** Number of tokens the expression occupies when written out in the language's syntax. */
  function Size<N>(e: Expr<N>): (n: nat)
    ensures n >= 1
  {
    match e
    case Binary(l, _, r) => Size(l) + 1 + Size(r)
    case Unary(_, r) => 1 + Size(r)
    case Literal(_) => 1
    case Grouping(x) => Size(x) + 2
    case Ternary(c, l, r) => Size(c) + 1 + Size(l) + 1 + Size(r)
  }

  /** True when no Ternary node occurs anywhere in the tree. */
  predicate TernaryFree<N>(e: Expr<N>) {
    match e
    case Binary(l, _, r) => TernaryFree(l) && TernaryFree(r)
    case Unary(_, r) => TernaryFree(r)
    case Literal(_) => true
    case Grouping(x) => TernaryFree(x)
    case Ternary(_, _, _) => false
  }

  /** The operator tokens of a tree, in evaluation order. */
  function Operators<N>(e: Expr<N>): seq<Token<N>> {
    match e
    case Binary(l, op, r) => Operators(l) + Operators(r) + [op]
    case Unary(op, r) => Operators(r) + [op]
    case Literal(_) => []
    case Grouping(x) => Operators(x)
    case Ternary(c, l, r) => Operators(c) + Operators(l) + Operators(r)
  }
}

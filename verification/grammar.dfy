/**
 * The expression grammar the parser implements, stated independently of
 * parsing (src/parser.ts:22-99): precedence levels, the trees each level
 * produces, and what it means for a token list to hold a tree written out.
 */
module Grammar {
  import opened Wrappers
  import opened Tokens
  import opened Ast

  /** Precedence levels, loosest first. */
  newtype Level = l: int | 0 <= l <= 5

  const EqualityLevel: Level := 0
  const ComparisonLevel: Level := 1
  const TermLevel: Level := 2
  const FactorLevel: Level := 3
  const UnaryLevel: Level := 4
  const PrimaryLevel: Level := 5

  /** The operators each binary level's loop matches, in the order the source lists them. */
  function LevelOps(lvl: Level): seq<TokenType> {
    if lvl == EqualityLevel then [BangEqual, EqualEqual]
    else if lvl == ComparisonLevel then [Greater, GreaterEqual, Less, LessEqual]
    else if lvl == TermLevel then [Plus, Minus]
    else if lvl == FactorLevel then [Star, Slash]
    else []
  }

  const UnaryOps: seq<TokenType> := [Bang, Minus]

  /** The ten kinds some binary level's loop matches. */
  predicate IsBinaryOperator(kind: TokenType) {
    kind in {BangEqual, EqualEqual, Greater, GreaterEqual, Less, LessEqual, Plus, Minus, Star, Slash}
  }

  /** The binary level whose loop matches a binary operator. */
  function OperatorLevel(kind: TokenType): (lvl: Level)
    requires IsBinaryOperator(kind)
    ensures lvl <= FactorLevel && kind in LevelOps(lvl)
  {
    if kind in LevelOps(EqualityLevel) then EqualityLevel
    else if kind in LevelOps(ComparisonLevel) then ComparisonLevel
    else if kind in LevelOps(TermLevel) then TermLevel
    else FactorLevel
  }

  /** The binary levels' operator lists are disjoint and together hold exactly the binary operators. */
  lemma LevelOpsPartition(kind: TokenType, lvl: Level)
    requires lvl <= FactorLevel
    ensures kind in LevelOps(lvl) <==> IsBinaryOperator(kind) && OperatorLevel(kind) == lvl
  {
  }

  /** A token of this kind would let the loop of `lvl`, or of a tighter binary level, take another operand. */
  predicate Continues(kind: TokenType, lvl: Level) {
    IsBinaryOperator(kind) && lvl <= OperatorLevel(kind)
  }

  /**
   * The loosest level whose rule produces the tree at its root: a node of a
   * binary operator comes from that operator's level, a unary node from
   * `unary`, and a literal or group from `primary`.
   */
  function Tier<N>(e: Expr<N>): Level {
    match e
    case Binary(_, op, _) => if IsBinaryOperator(op.kind) then OperatorLevel(op.kind) else PrimaryLevel
    case Unary(_, _) => UnaryLevel
    case _ => PrimaryLevel
  }

  /**
   * The trees the grammar produces. A group holds any expression; a unary
   * operator is `!` or `-` over a primary; the left operand of a binary node
   * is of its operator's level or tighter (left associativity) and the right
   * operand strictly tighter (precedence). There is no rule for a ternary.
   */
  predicate Grammatical<N>(e: Expr<N>) {
    match e
    case Literal(_) => true
    case Grouping(x) => Grammatical(x)
    case Unary(op, r) => op.kind in UnaryOps && Grammatical(r) && Tier(r) == PrimaryLevel
    case Binary(l, op, r) =>
      && IsBinaryOperator(op.kind) && Grammatical(l) && Grammatical(r)
      && OperatorLevel(op.kind) <= Tier(l) && OperatorLevel(op.kind) < Tier(r)
    case Ternary(_, _, _) => false
  }

  /** The trees the rule of `lvl` produces: those of the grammar whose root comes from `lvl` or a tighter level. */
  predicate Shaped<N>(e: Expr<N>, lvl: Level) {
    Grammatical(e) && lvl <= Tier(e)
  }

  /** The token a literal is written as: `false`, `true`, `nil`, or a STRING or NUMBER token with that payload. */
  ghost predicate LiteralToken<N>(t: Token<N>, v: Value<N>) {
    || (t.kind == FalseKw && v == Bool(false))
    || (t.kind == TrueKw && v == Bool(true))
    || (t.kind == NilKw && v == Nil)
    || ((t.kind == StringTok || t.kind == NumberTok) && t.literal.Some? && !t.literal.value.EmptyObject? && v == LiteralValue(t))
  }

  /** The `Size(e)` tokens from `pos` on are `e` written out: its literals, operators and parentheses, in order. */
  ghost predicate Spans<N>(tokens: seq<Token<N>>, pos: nat, e: Expr<N>)
    decreases e
  {
    pos + Size(e) <= |tokens| &&
    match e
    case Literal(v) => LiteralToken(tokens[pos], v)
    case Grouping(x) =>
      tokens[pos].kind == LeftParen && Spans(tokens, pos + 1, x) && tokens[pos + 1 + Size(x)].kind == RightParen
    case Unary(op, r) => tokens[pos] == op && Spans(tokens, pos + 1, r)
    case Binary(l, op, r) => Spans(tokens, pos, l) && tokens[pos + Size(l)] == op && Spans(tokens, pos + Size(l) + 1, r)
    case Ternary(_, _, _) => false
  }

  /** `e` is a tree of level `lvl`, written out from `pos` on, and followed by a token at which that level stops. */
  ghost predicate WrittenAt<N>(tokens: seq<Token<N>>, pos: nat, lvl: Level, e: Expr<N>) {
    && pos + Size(e) < |tokens|
    && Shaped(e, lvl)
    && Spans(tokens, pos, e)
    && !Continues(tokens[pos + Size(e)].kind, lvl)
  }

  /** The tokens from `pos` up to `next` are `e` written out, a tree of level `lvl`, and the token at `next` is one that level stops at. */
  ghost predicate Holds<N>(tokens: seq<Token<N>>, pos: nat, next: nat, lvl: Level, e: Expr<N>) {
    next == pos + Size(e) && WrittenAt(tokens, pos, lvl, e)
  }

  /** `(`, an expression written out, and `)` hold a group, which is a primary. */
  lemma GroupHolds<N>(tokens: seq<Token<N>>, pos: nat, close: nat, x: Expr<N>)
    requires ValidTokens(tokens) && pos < |tokens| && tokens[pos].kind == LeftParen
    requires Holds(tokens, pos + 1, close, EqualityLevel, x) && tokens[close].kind == RightParen
    ensures Holds(tokens, pos, close + 1, PrimaryLevel, Grouping(x))
  {
  }

  /** The state of a binary loop: `acc`, of level `lvl`, is written out from `start`, and the token after it ends the operand level. */
  ghost predicate Folded<N>(tokens: seq<Token<N>>, lvl: Level, start: nat, acc: Expr<N>)
    requires lvl <= FactorLevel
  {
    && start + Size(acc) < |tokens|
    && Shaped(acc, lvl)
    && Spans(tokens, start, acc)
    && !Continues(tokens[start + Size(acc)].kind, lvl + 1)
  }

  /** A tree of the grammar contains no ternary node. */
  lemma {:induction false} GrammaticalTernaryFree<N>(e: Expr<N>)
    requires Grammatical(e)
    ensures TernaryFree(e)
  {
    match e
    case Literal(_) =>
    case Grouping(x) => GrammaticalTernaryFree(x);
    case Unary(_, r) => GrammaticalTernaryFree(r);
    case Binary(l, _, r) =>
      GrammaticalTernaryFree(l);
      GrammaticalTernaryFree(r);
  }

  /** A node of a binary level's own operator is of that level only, and then its operands are of the level and of the next. */
  lemma OwnOperatorNode<N>(e: Expr<N>, lvl: Level)
    requires lvl <= FactorLevel && Shaped(e, lvl) && e.Binary? && e.operator.kind in LevelOps(lvl)
    ensures !Shaped(e, lvl + 1) && Shaped(e.left, lvl) && Shaped(e.right, lvl + 1)
  {
    LevelOpsPartition(e.operator.kind, lvl);
  }

  /** `acc` is `e` or a left operand, at any depth, of a chain of `lvl` operator nodes starting at `e`. */
  ghost predicate OnSpine<N>(acc: Expr<N>, e: Expr<N>, lvl: Level) {
    acc == e || (e.Binary? && e.operator.kind in LevelOps(lvl) && OnSpine(acc, e.left, lvl))
  }

  /** The bottom of the chain: the first operand the loop of `lvl` starts from, which is of the next level. */
  ghost function SpineBase<N>(e: Expr<N>, lvl: Level): (base: Expr<N>)
    requires lvl <= FactorLevel && Shaped(e, lvl)
    ensures OnSpine(base, e, lvl) && Shaped(base, lvl + 1)
  {
    if e.Binary? && e.operator.kind in LevelOps(lvl) then
      OwnOperatorNode(e, lvl);
      SpineBase(e.left, lvl)
    else e
  }

  /** The chain node whose left operand is `acc`: the tree the loop has built after one more iteration. */
  ghost function SpineParent<N>(acc: Expr<N>, e: Expr<N>, lvl: Level): (n: Expr<N>)
    requires OnSpine(acc, e, lvl) && acc != e
    ensures n.Binary? && n.left == acc && n.operator.kind in LevelOps(lvl)
    ensures OnSpine(n, e, lvl) && Size(acc) < Size(n)
  {
    if e.left == acc then e else SpineParent(acc, e.left, lvl)
  }

  /** Every tree on the chain is of the level, written out from where `e` starts, and followed by a token the next level stops at. */
  lemma {:induction false} SpineFacts<N>(tokens: seq<Token<N>>, start: nat, acc: Expr<N>, e: Expr<N>, lvl: Level)
    requires lvl <= FactorLevel && OnSpine(acc, e, lvl) && Folded(tokens, lvl, start, e)
    ensures Size(acc) <= Size(e) && Folded(tokens, lvl, start, acc)
  {
    if acc != e {
      OwnOperatorNode(e, lvl);
      assert tokens[start + Size(e.left)] == e.operator;
      SpineFacts(tokens, start, acc, e.left, lvl);
    }
  }

  /** The token at `pos` is one of the operators the loop of binary level `lvl` matches. */
  predicate OperatorAt<N>(tokens: seq<Token<N>>, pos: nat, lvl: Level) {
    lvl <= FactorLevel && pos < |tokens| && tokens[pos].kind in LevelOps(lvl)
  }

  /**
   * The loop of `lvl`, started at `start` on the way to building `e`, holds
   * `acc`: `e` is a tree the loop may hold, followed by a token at which the
   * level stops, and `acc` is on its chain.
   */
  ghost predicate LoopReady<N>(tokens: seq<Token<N>>, lvl: Level, start: nat, acc: Expr<N>, e: Expr<N>) {
    && lvl <= FactorLevel
    && Folded(tokens, lvl, start, e)
    && !Continues(tokens[start + Size(e)].kind, lvl)
    && OnSpine(acc, e, lvl)
    && Size(acc) <= Size(e)
  }

  /** A tree of a binary level is its chain's bottom, a tree of the next level, followed by the rest of the chain. */
  lemma ChainBottom<N>(tokens: seq<Token<N>>, pos: nat, lvl: Level, e: Expr<N>) returns (base: Expr<N>)
    requires lvl <= FactorLevel && WrittenAt(tokens, pos, lvl, e)
    ensures Size(base) <= Size(e) && WrittenAt(tokens, pos, lvl + 1, base) && LoopReady(tokens, lvl, pos, base, e)
  {
    base := SpineBase(e, lvl);
    SpineFacts(tokens, pos, base, e, lvl);
  }

  /** At the top of the chain the loop sees no operator of its level. */
  lemma ChainTop<N>(tokens: seq<Token<N>>, lvl: Level, start: nat, e: Expr<N>)
    requires LoopReady(tokens, lvl, start, e, e)
    ensures start + Size(e) < |tokens| && !OperatorAt(tokens, start + Size(e), lvl)
  {
    LevelOpsPartition(tokens[start + Size(e)].kind, lvl);
  }

  /** An operator node of a binary level, written out at `start`: its operator follows its left operand, and its right operand is written out after that. */
  lemma OperatorNodeLayout<N>(tokens: seq<Token<N>>, lvl: Level, start: nat, n: Expr<N>)
    requires lvl <= FactorLevel && Folded(tokens, lvl, start, n)
    requires n.Binary? && n.operator.kind in LevelOps(lvl)
    ensures tokens[start + Size(n.left)] == n.operator
    ensures WrittenAt(tokens, start + Size(n.left) + 1, lvl + 1, n.right)
  {
    OwnOperatorNode(n, lvl);
  }

  /**
   * The chain node above a tree on the chain other than `e`: it is the tree
   * on the chain with one more operator and right operand, written out right
   * after the tree below it.
   */
  lemma ChainStep<N>(tokens: seq<Token<N>>, lvl: Level, start: nat, acc: Expr<N>, e: Expr<N>) returns (n: Expr<N>)
    requires LoopReady(tokens, lvl, start, acc, e) && acc != e
    ensures LoopReady(tokens, lvl, start, n, e) && Size(acc) < Size(n) <= Size(e)
    ensures n.Binary? && n.left == acc && Size(n) == Size(n.left) + 1 + Size(n.right)
    ensures OperatorAt(tokens, start + Size(n.left), lvl) && tokens[start + Size(n.left)] == n.operator
    ensures WrittenAt(tokens, start + Size(n.left) + 1, lvl + 1, n.right)
  {
    n := SpineParent(acc, e, lvl);
    SpineFacts(tokens, start, n, e, lvl);
    OperatorNodeLayout(tokens, lvl, start, n);
  }

  /** Folding an operator of the level and a right operand of the next level into a tree the loop may hold gives another such tree. */
  lemma FoldStep<N>(tokens: seq<Token<N>>, lvl: Level, start: nat, acc: Expr<N>, right: Expr<N>, next: nat)
    requires lvl <= FactorLevel && Folded(tokens, lvl, start, acc) && OperatorAt(tokens, start + Size(acc), lvl)
    requires Holds(tokens, start + Size(acc) + 1, next, lvl + 1, right)
    ensures Folded(tokens, lvl, start, Binary(acc, tokens[start + Size(acc)], right))
    ensures next == start + Size(Binary(acc, tokens[start + Size(acc)], right))
  {
    LevelOpsPartition(tokens[start + Size(acc)].kind, lvl);
  }

  /** A tree the loop may hold, followed by a token that is not one of the level's operators, is a tree of the level. */
  lemma FoldedStops<N>(tokens: seq<Token<N>>, lvl: Level, start: nat, acc: Expr<N>)
    requires lvl <= FactorLevel && Folded(tokens, lvl, start, acc) && !OperatorAt(tokens, start + Size(acc), lvl)
    ensures Holds(tokens, start, start + Size(acc), lvl, acc)
  {
    LevelOpsPartition(tokens[start + Size(acc)].kind, lvl);
  }
}

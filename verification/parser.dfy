/**
 * The recursive-descent parser (src/parser.ts). The mutable `current` index
 * becomes an explicit cursor: every parsing function takes the cursor and
 * returns the tree it built together with the cursor after it, or the parse
 * error that `error` reports and `parse` turns into `null`.
 *
 * The four binary precedence levels (`equality`, `comparison`, `term`,
 * `factor`) share one definition indexed by a `Level`; `unary` and `primary`
 * are the two tightest levels.
 */
module Parser {
  import opened Wrappers
  import opened Tokens
  import opened Ast
  import opened Grammar

  /** The token a parse error is reported at, and the message. */
  datatype ParseError<N> = ParseError(token: Token<N>, message: string)

  /** A tree and the cursor just after the tokens it was built from. */
  datatype Parsed<N> = Parsed(expr: Expr<N>, next: nat)

  const ExpectExpression := "Expect expression."
  /** The message of a missing `)`, spelled as in the source. */
  const ExpectClosingParen := "Expect ')' after expresion"

  /** The parser's cursor starts at the first token. */
  const InitialCursor: nat := 0

  // ---------------------------------------------------------------------
  // Cursor primitives.
  // ---------------------------------------------------------------------

  predicate IsAtEnd<N>(tokens: seq<Token<N>>, pos: nat)
    requires pos < |tokens|
  {
    tokens[pos].kind == Eof
  }

  /** `check`: the current token has the kind, and the cursor is not at end of input. */
  predicate Check<N>(tokens: seq<Token<N>>, pos: nat, kind: TokenType)
    requires pos < |tokens|
  {
    !IsAtEnd(tokens, pos) && tokens[pos].kind == kind
  }

  /** `check` never succeeds at end of input, not even for the end-of-input kind; elsewhere it compares the current token's kind. */
  lemma CheckSkipsEnd<N>(tokens: seq<Token<N>>, pos: nat, kind: TokenType)
    requires ValidTokens(tokens) && pos < |tokens|
    ensures !Check(tokens, pos, Eof)
    ensures pos == |tokens| - 1 ==> !Check(tokens, pos, kind)
    ensures tokens[pos].kind != Eof ==> (Check(tokens, pos, kind) <==> tokens[pos].kind == kind)
  {
  }

  /** `advance`: one token forward, except at end of input, so the cursor never passes the last token. */
  function Advance<N>(tokens: seq<Token<N>>, pos: nat): (next: nat)
    requires ValidTokens(tokens) && pos < |tokens|
    ensures next < |tokens|
    ensures IsAtEnd(tokens, pos) <==> next == pos
    ensures next == pos || next == pos + 1
  {
    if IsAtEnd(tokens, pos) then pos else pos + 1
  }

  /** `match`: whether the current token has one of the kinds; the caller then advances past it. */
  predicate Match<N>(tokens: seq<Token<N>>, pos: nat, kinds: seq<TokenType>)
    requires pos < |tokens|
  {
    !IsAtEnd(tokens, pos) && tokens[pos].kind in kinds
  }

  /** `match` tries `check` on each kind in turn: it is a hit exactly when one of them checks. */
  lemma MatchHit<N>(tokens: seq<Token<N>>, pos: nat, kinds: seq<TokenType>)
    requires pos < |tokens|
    ensures Match(tokens, pos, kinds) <==> exists i :: 0 <= i < |kinds| && Check(tokens, pos, kinds[i])
  {
    if Match(tokens, pos, kinds) {
      var i :| 0 <= i < |kinds| && kinds[i] == tokens[pos].kind;
      assert Check(tokens, pos, kinds[i]);
    }
  }

  /** `consume`: step past a token of the expected kind, or report `message` at the current token. */
  function Consume<N>(tokens: seq<Token<N>>, pos: nat, kind: TokenType, message: string): (r: Result<nat, ParseError<N>>)
    requires ValidTokens(tokens) && pos < |tokens|
    ensures r.Ok? <==> Check(tokens, pos, kind)
    ensures r.Ok? ==> r.value == pos + 1 && r.value < |tokens|
    ensures r.Err? ==> r.error == ParseError(tokens[pos], message)
  {
    if Check(tokens, pos, kind) then Ok(Advance(tokens, pos)) else Err(ParseError(tokens[pos], message))
  }

  /** The only two messages the parser reports. */
  predicate Reported<N>(err: ParseError<N>) {
    err.message == ExpectExpression || err.message == ExpectClosingParen
  }

  // ---------------------------------------------------------------------
  // The parsing functions.
  // ---------------------------------------------------------------------

  /** `primary`: a literal keyword, a STRING or NUMBER, or a parenthesised expression; anything else is reported. */
  function ParsePrimary<N>(tokens: seq<Token<N>>, pos: nat): (r: Result<Parsed<N>, ParseError<N>>)
    requires ValidTokens(tokens) && pos < |tokens|
    ensures r.Ok? ==> pos < r.value.next < |tokens|
    ensures r.Err? ==> Reported(r.error)
    decreases |tokens| - pos, 1
  {
    if Check(tokens, pos, FalseKw) then Ok(Parsed(Literal(Bool(false)), Advance(tokens, pos)))
    else if Check(tokens, pos, TrueKw) then Ok(Parsed(Literal(Bool(true)), Advance(tokens, pos)))
    else if Check(tokens, pos, NilKw) then Ok(Parsed(Literal(Nil), Advance(tokens, pos)))
    else if Check(tokens, pos, StringTok) || Check(tokens, pos, NumberTok) then
      Ok(Parsed(Literal(LiteralValue(tokens[pos])), Advance(tokens, pos)))
    else if Check(tokens, pos, LeftParen) then
      var inner :- ParseExpression(tokens, Advance(tokens, pos));
      var close :- Consume(tokens, inner.next, RightParen, ExpectClosingParen);
      Ok(Parsed(Grouping(inner.expr), close))
    else
      Err(ParseError(tokens[pos], ExpectExpression))
  }

  /** `unary`: `!` or `-` applied to a primary, or a primary alone. */
  function ParseUnary<N>(tokens: seq<Token<N>>, pos: nat): (r: Result<Parsed<N>, ParseError<N>>)
    requires ValidTokens(tokens) && pos < |tokens|
    ensures r.Ok? ==> pos < r.value.next < |tokens|
    ensures r.Err? ==> Reported(r.error)
    decreases |tokens| - pos, 2
  {
    if Match(tokens, pos, UnaryOps) then
      var right :- ParsePrimary(tokens, Advance(tokens, pos));
      Ok(Parsed(Unary(tokens[pos], right.expr), right.next))
    else
      ParsePrimary(tokens, pos)
  }

  /** `equality`, `comparison`, `term`, `factor`, `unary` and `primary`, by level. */
  function ParseAt<N>(tokens: seq<Token<N>>, pos: nat, lvl: Level): (r: Result<Parsed<N>, ParseError<N>>)
    requires ValidTokens(tokens) && pos < |tokens|
    ensures r.Ok? ==> pos < r.value.next < |tokens|
    ensures r.Err? ==> Reported(r.error)
    decreases |tokens| - pos, 3 + (5 - lvl) as int
  {
    if lvl == PrimaryLevel then ParsePrimary(tokens, pos)
    else if lvl == UnaryLevel then ParseUnary(tokens, pos)
    else
      var first :- ParseAt(tokens, pos, lvl + 1);
      BinaryLoop(tokens, lvl, first.expr, first.next)
  }

  /**
   * The `while` loop of a binary level: while the current token is one of the
   * level's operators, parse a right operand at the next level and fold the
   * tree built so far in as the left child.
   */
  function BinaryLoop<N>(tokens: seq<Token<N>>, lvl: Level, acc: Expr<N>, pos: nat): (r: Result<Parsed<N>, ParseError<N>>)
    requires ValidTokens(tokens) && lvl <= FactorLevel && pos < |tokens|
    ensures r.Ok? ==> pos <= r.value.next < |tokens|
    ensures r.Err? ==> Reported(r.error)
    decreases |tokens| - pos, 0
  {
    if Match(tokens, pos, LevelOps(lvl)) then
      var right :- ParseAt(tokens, Advance(tokens, pos), lvl + 1);
      BinaryLoop(tokens, lvl, Binary(acc, tokens[pos], right.expr), right.next)
    else
      Ok(Parsed(acc, pos))
  }

  /** `expression`: goes straight to `equality`; no rule builds a ternary. */
  function ParseExpression<N>(tokens: seq<Token<N>>, pos: nat): (r: Result<Parsed<N>, ParseError<N>>)
    requires ValidTokens(tokens) && pos < |tokens|
    ensures r.Ok? ==> pos < r.value.next < |tokens|
    ensures r.Err? ==> Reported(r.error)
    decreases |tokens| - pos, 9
  {
    ParseAt(tokens, pos, EqualityLevel)
  }

  /**
   * `parse`: one expression from the first token. A failure is the error that
   * was reported, where the source returns `null`; tokens after a complete
   * expression are left unread.
   */
  function Parse<N>(tokens: seq<Token<N>>): (r: Result<Expr<N>, ParseError<N>>)
    requires ValidTokens(tokens)
    ensures r.Ok? ==> WrittenAt(tokens, InitialCursor, EqualityLevel, r.value)
    ensures r.Err? ==> Reported(r.error)
  {
    ParseAtSound(tokens, InitialCursor, EqualityLevel, ParseAt(tokens, InitialCursor, EqualityLevel));
    match ParseExpression(tokens, InitialCursor)
    case Ok(p) => Ok(p.expr)
    case Err(err) => Err(err)
  }

  /** No parse builds a ternary node. */
  lemma ParseTernaryFree<N>(tokens: seq<Token<N>>)
    requires ValidTokens(tokens)
    ensures Parse(tokens).Ok? ==> TernaryFree(Parse(tokens).value)
  {
    if Parse(tokens).Ok? {
      GrammaticalTernaryFree(Parse(tokens).value);
    }
  }

  /**
   * Where `primary` reports: a token that starts no primary, end of input
   * included, is reported as a missing expression; a group whose inner
   * expression parses but is not followed by `)` is reported at the token
   * found in its place.
   */
  lemma PrimaryErrors<N>(tokens: seq<Token<N>>, pos: nat)
    requires ValidTokens(tokens) && pos < |tokens|
    ensures !Check(tokens, pos, LeftParen) ==>
      (ParsePrimary(tokens, pos).Err? <==> !LiteralStart(tokens, pos))
    ensures !Check(tokens, pos, LeftParen) && ParsePrimary(tokens, pos).Err? ==>
      ParsePrimary(tokens, pos).error == ParseError(tokens[pos], ExpectExpression)
    ensures Check(tokens, pos, LeftParen) && ParseExpression(tokens, pos + 1).Ok? ==>
      var close := ParseExpression(tokens, pos + 1).value.next;
      (ParsePrimary(tokens, pos).Err? <==> !Check(tokens, close, RightParen))
      && (ParsePrimary(tokens, pos).Err? ==> ParsePrimary(tokens, pos).error == ParseError(tokens[close], ExpectClosingParen))
  {
  }

  /** The current token is `false`, `true`, `nil`, a STRING or a NUMBER. */
  predicate LiteralStart<N>(tokens: seq<Token<N>>, pos: nat)
    requires pos < |tokens|
  {
    Check(tokens, pos, FalseKw) || Check(tokens, pos, TrueKw) || Check(tokens, pos, NilKw)
    || Check(tokens, pos, StringTok) || Check(tokens, pos, NumberTok)
  }

  // ---------------------------------------------------------------------
  // Soundness: what a parsing function builds is a tree of its level,
  // written out exactly over the tokens it read.
  // ---------------------------------------------------------------------

  lemma {:induction false} PrimarySound<N>(tokens: seq<Token<N>>, pos: nat)
    requires ValidTokens(tokens) && pos < |tokens|
    ensures ParsePrimary(tokens, pos).Ok? ==>
              Holds(tokens, pos, ParsePrimary(tokens, pos).value.next, PrimaryLevel, ParsePrimary(tokens, pos).value.expr)
    decreases |tokens| - pos, 1
  {
    if Check(tokens, pos, LeftParen) {
      GroupSound(tokens, pos);
    } else {
      LiteralSound(tokens, pos);
    }
  }

  /** A primary that is not a group is one literal token. */
  lemma LiteralSound<N>(tokens: seq<Token<N>>, pos: nat)
    requires ValidTokens(tokens) && pos < |tokens| && !Check(tokens, pos, LeftParen)
    ensures ParsePrimary(tokens, pos).Ok? ==>
              Holds(tokens, pos, ParsePrimary(tokens, pos).value.next, PrimaryLevel, ParsePrimary(tokens, pos).value.expr)
  {
    if ParsePrimary(tokens, pos).Ok? {
      assert CarriesValue(tokens[pos]);
      assert ParsePrimary(tokens, pos).value.next == pos + 1;
    }
  }

  /** A group is `(`, an expression, and the `)` that `consume` demands. */
  lemma {:induction false} GroupSound<N>(tokens: seq<Token<N>>, pos: nat)
    requires ValidTokens(tokens) && pos < |tokens| && Check(tokens, pos, LeftParen)
    ensures ParsePrimary(tokens, pos).Ok? ==>
              Holds(tokens, pos, ParsePrimary(tokens, pos).value.next, PrimaryLevel, ParsePrimary(tokens, pos).value.expr)
    decreases |tokens| - pos, 0
  {
    var inner := ParseAt(tokens, pos + 1, EqualityLevel);
    ParseAtSound(tokens, pos + 1, EqualityLevel, inner);
    if inner.Ok? && Check(tokens, inner.value.next, RightParen) {
      assert ParsePrimary(tokens, pos) == Ok(Parsed(Grouping(inner.value.expr), inner.value.next + 1));
      GroupHolds(tokens, pos, inner.value.next, inner.value.expr);
    }
  }

  lemma {:induction false} UnarySound<N>(tokens: seq<Token<N>>, pos: nat)
    requires ValidTokens(tokens) && pos < |tokens|
    ensures ParseUnary(tokens, pos).Ok? ==> Holds(tokens, pos, ParseUnary(tokens, pos).value.next, UnaryLevel, ParseUnary(tokens, pos).value.expr)
    decreases |tokens| - pos, 2
  {
    if Match(tokens, pos, UnaryOps) {
      PrimarySound(tokens, pos + 1);
    } else {
      PrimarySound(tokens, pos);
    }
  }

  lemma {:induction false} ParseAtSound<N>(tokens: seq<Token<N>>, pos: nat, lvl: Level, r: Result<Parsed<N>, ParseError<N>>)
    requires ValidTokens(tokens) && pos < |tokens| && r == ParseAt(tokens, pos, lvl)
    ensures r.Ok? ==> Holds(tokens, pos, r.value.next, lvl, r.value.expr)
    decreases |tokens| - pos, 3 + (5 - lvl) as int
  {
    if lvl == PrimaryLevel {
      PrimarySound(tokens, pos);
    } else if lvl == UnaryLevel {
      UnarySound(tokens, pos);
    } else {
      var first := ParseAt(tokens, pos, lvl + 1);
      ParseAtSound(tokens, pos, lvl + 1, first);
      if first.Ok? {
        LoopSound(tokens, lvl, pos, first.value.expr, r);
      }
    }
  }

  /** Started on a tree the loop may hold, the loop of `lvl` returns a tree of `lvl` written out from the same place. */
  lemma {:induction false} LoopSound<N>(tokens: seq<Token<N>>, lvl: Level, start: nat, acc: Expr<N>, r: Result<Parsed<N>, ParseError<N>>)
    requires ValidTokens(tokens) && lvl <= FactorLevel && Folded(tokens, lvl, start, acc)
    requires r == BinaryLoop(tokens, lvl, acc, start + Size(acc))
    ensures r.Ok? ==> Holds(tokens, start, r.value.next, lvl, r.value.expr)
    decreases |tokens| - (start + Size(acc)), 1
  {
    if OperatorAt(tokens, start + Size(acc), lvl) {
      var right := OperandSound(tokens, lvl, acc, start + Size(acc), r);
      if right.Ok? {
        var n := FoldSound(tokens, lvl, start, acc, right.value, r);
        LoopSound(tokens, lvl, start, n, r);
      }
    } else {
      LoopStop(tokens, lvl, acc, start + Size(acc));
      FoldedStops(tokens, lvl, start, acc);
    }
  }

  /** At one of its operators the loop parses a right operand, a tree of the next level written out after the operator, and continues with the folded tree. */
  lemma OperandSound<N>(tokens: seq<Token<N>>, lvl: Level, acc: Expr<N>, pos: nat, r: Result<Parsed<N>, ParseError<N>>) returns (right: Result<Parsed<N>, ParseError<N>>)
    requires ValidTokens(tokens) && OperatorAt(tokens, pos, lvl) && r == BinaryLoop(tokens, lvl, acc, pos)
    ensures right.Err? ==> r.Err?
    ensures right.Ok? ==> Holds(tokens, pos + 1, right.value.next, lvl + 1, right.value.expr)
    ensures right.Ok? ==> r == BinaryLoop(tokens, lvl, Binary(acc, tokens[pos], right.value.expr), right.value.next)
    decreases |tokens| - pos, 0
  {
    right := ParseAt(tokens, pos + 1, lvl + 1);
    ParseAtSound(tokens, pos + 1, lvl + 1, right);
    LoopStep(tokens, lvl, acc, pos, right, r);
  }

  /** Folding a right operand of the next level into a tree the loop may hold gives the tree the loop continues with, which it may hold too. */
  lemma FoldSound<N>(tokens: seq<Token<N>>, lvl: Level, start: nat, acc: Expr<N>, right: Parsed<N>, r: Result<Parsed<N>, ParseError<N>>) returns (n: Expr<N>)
    requires ValidTokens(tokens) && lvl <= FactorLevel && Folded(tokens, lvl, start, acc) && OperatorAt(tokens, start + Size(acc), lvl)
    requires Holds(tokens, start + Size(acc) + 1, right.next, lvl + 1, right.expr)
    requires r == BinaryLoop(tokens, lvl, Binary(acc, tokens[start + Size(acc)], right.expr), right.next)
    ensures Folded(tokens, lvl, start, n) && Size(acc) < Size(n) && r == BinaryLoop(tokens, lvl, n, start + Size(n))
  {
    FoldStep(tokens, lvl, start, acc, right.expr, right.next);
    n := Binary(acc, tokens[start + Size(acc)], right.expr);
  }

  /** When the loop sees one of its operators, it parses a right operand at the next level and, if that succeeds, continues with the folded tree. */
  lemma LoopStep<N>(tokens: seq<Token<N>>, lvl: Level, acc: Expr<N>, pos: nat, right: Result<Parsed<N>, ParseError<N>>, r: Result<Parsed<N>, ParseError<N>>)
    requires ValidTokens(tokens) && OperatorAt(tokens, pos, lvl)
    requires right == ParseAt(tokens, pos + 1, lvl + 1) && r == BinaryLoop(tokens, lvl, acc, pos)
    ensures right.Err? ==> r.Err?
    ensures right.Ok? ==> r == BinaryLoop(tokens, lvl, Binary(acc, tokens[pos], right.value.expr), right.value.next)
  {
  }

  /** When the current token is not one of its operators, the loop returns the tree built so far. */
  lemma LoopStop<N>(tokens: seq<Token<N>>, lvl: Level, acc: Expr<N>, pos: nat)
    requires ValidTokens(tokens) && lvl <= FactorLevel && pos < |tokens| && !OperatorAt(tokens, pos, lvl)
    ensures BinaryLoop(tokens, lvl, acc, pos) == Ok(Parsed(acc, pos))
  {
  }

  // ---------------------------------------------------------------------
  // Completeness: every tree of the grammar written out is parsed back.
  // ---------------------------------------------------------------------

  /** A tree of level `lvl`, written out at `pos` and followed by a token that level stops at, is parsed back exactly. */
  lemma {:induction false} ParseAtComplete<N>(tokens: seq<Token<N>>, pos: nat, lvl: Level, e: Expr<N>)
    requires ValidTokens(tokens) && WrittenAt(tokens, pos, lvl, e)
    ensures ParseAt(tokens, pos, lvl) == Ok(Parsed(e, pos + Size(e)))
    decreases Size(e), 3 * (6 - lvl as int), 0
  {
    if lvl == PrimaryLevel {
      PrimaryComplete(tokens, pos, e);
    } else if lvl == UnaryLevel {
      UnaryComplete(tokens, pos, e);
    } else {
      BinaryComplete(tokens, pos, lvl, e);
    }
  }

  lemma {:induction false} PrimaryComplete<N>(tokens: seq<Token<N>>, pos: nat, e: Expr<N>)
    requires ValidTokens(tokens) && WrittenAt(tokens, pos, PrimaryLevel, e)
    ensures ParsePrimary(tokens, pos) == Ok(Parsed(e, pos + Size(e)))
    decreases Size(e), 2, 0
  {
    if e.Grouping? {
      ParseAtComplete(tokens, pos + 1, EqualityLevel, e.expression);
    }
  }

  lemma {:induction false} UnaryComplete<N>(tokens: seq<Token<N>>, pos: nat, e: Expr<N>)
    requires ValidTokens(tokens) && WrittenAt(tokens, pos, UnaryLevel, e)
    ensures ParseUnary(tokens, pos) == Ok(Parsed(e, pos + Size(e)))
    decreases Size(e), 5, 0
  {
    if e.Unary? {
      ParseAtComplete(tokens, pos + 1, PrimaryLevel, e.right);
    } else {
      ParseAtComplete(tokens, pos, PrimaryLevel, e);
    }
  }

  /** A binary level parses its first operand, the bottom of the chain, and then its loop folds in the rest. */
  lemma {:induction false} BinaryComplete<N>(tokens: seq<Token<N>>, pos: nat, lvl: Level, e: Expr<N>)
    requires ValidTokens(tokens) && lvl <= FactorLevel && WrittenAt(tokens, pos, lvl, e)
    ensures ParseAt(tokens, pos, lvl) == Ok(Parsed(e, pos + Size(e)))
    decreases Size(e), 3 * (6 - lvl as int) - 1, 0
  {
    var base := ChainBottom(tokens, pos, lvl, e);
    var first := ParseAt(tokens, pos, lvl + 1);
    ParseAtComplete(tokens, pos, lvl + 1, base);
    assert first == Ok(Parsed(base, pos + Size(base)));
    LoopComplete(tokens, lvl, pos, base, e);
    assert ParseAt(tokens, pos, lvl) == BinaryLoop(tokens, lvl, base, pos + Size(base));
  }

  /** From a tree on the chain other than `e` itself, one turn of the loop arrives at the chain's next node. */
  lemma {:induction false} LoopTurn<N>(tokens: seq<Token<N>>, lvl: Level, start: nat, acc: Expr<N>, e: Expr<N>) returns (n: Expr<N>)
    requires ValidTokens(tokens) && LoopReady(tokens, lvl, start, acc, e) && acc != e
    ensures LoopReady(tokens, lvl, start, n, e) && Size(acc) < Size(n) <= Size(e)
    ensures BinaryLoop(tokens, lvl, acc, start + Size(acc)) == BinaryLoop(tokens, lvl, n, start + Size(n))
    decreases Size(e), 3 * (6 - lvl as int) - 3, 0
  {
    n := ChainStep(tokens, lvl, start, acc, e);
    OperandComplete(tokens, lvl, n.left, start + Size(n.left), n.right);
    assert Binary(n.left, tokens[start + Size(n.left)], n.right) == n;
  }

  /** At one of its operators, with a tree of the next level written out after it, the loop parses that tree and continues with the folded tree. */
  lemma {:induction false} OperandComplete<N>(tokens: seq<Token<N>>, lvl: Level, acc: Expr<N>, pos: nat, right: Expr<N>)
    requires ValidTokens(tokens) && OperatorAt(tokens, pos, lvl) && WrittenAt(tokens, pos + 1, lvl + 1, right)
    ensures BinaryLoop(tokens, lvl, acc, pos) == BinaryLoop(tokens, lvl, Binary(acc, tokens[pos], right), pos + 1 + Size(right))
    decreases Size(right), 3 * (6 - lvl as int) - 2, 0
  {
    var parsed := ParseAt(tokens, pos + 1, lvl + 1);
    ParseAtComplete(tokens, pos + 1, lvl + 1, right);
    assert parsed == Ok(Parsed(right, pos + 1 + Size(right)));
    LoopStep(tokens, lvl, acc, pos, parsed, BinaryLoop(tokens, lvl, acc, pos));
  }

  /** From any tree on the chain, the loop of `lvl` folds in the remaining operators and operands and stops at the end of `e`. */
  lemma {:induction false} LoopComplete<N>(tokens: seq<Token<N>>, lvl: Level, start: nat, acc: Expr<N>, e: Expr<N>)
    requires ValidTokens(tokens) && LoopReady(tokens, lvl, start, acc, e)
    ensures BinaryLoop(tokens, lvl, acc, start + Size(acc)) == Ok(Parsed(e, start + Size(e)))
    decreases Size(e), 3 * (6 - lvl as int) - 2, Size(e) - Size(acc)
  {
    if acc == e {
      ChainTop(tokens, lvl, start, e);
      LoopStop(tokens, lvl, e, start + Size(e));
    } else {
      var n := LoopTurn(tokens, lvl, start, acc, e);
      LoopComplete(tokens, lvl, start, n, e);
    }
  }

  /**
   * `parse` succeeds with `e` exactly when `e` is a tree of the grammar, the
   * tokens begin with `e` written out, and the token after it is not a binary
   * operator; whatever follows that token is never read.
   */
  lemma ParseCharacterization<N>(tokens: seq<Token<N>>, e: Expr<N>)
    requires ValidTokens(tokens)
    ensures Parse(tokens) == Ok(e) <==> WrittenAt(tokens, InitialCursor, EqualityLevel, e)
  {
    if WrittenAt(tokens, InitialCursor, EqualityLevel, e) {
      ParseAtComplete(tokens, InitialCursor, EqualityLevel, e);
    }
  }
}

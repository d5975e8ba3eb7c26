/**
 * Concrete token lists run through the parser and the evaluator, with whole
 * numbers standing in for the language's numbers. Every token sits on line 1.
 */
module WorkedExamples {
  import opened Wrappers
  import opened Tokens
  import opened Ast
  import opened IntNumbers
  import Scanner
  import Grammar
  import Parser
  import Interpreter
  import AstPrinter

  function NumberToken(lexeme: string, n: int): Token<int> {
    Token(NumberTok, lexeme, 1, Some(NumLit(n)))
  }

  function OperatorToken(kind: TokenType, lexeme: string): Token<int> {
    Token(kind, lexeme, 1, None)
  }

  const End: Token<int> := Scanner.EofToken(1)
  const PlusToken := OperatorToken(Plus, "+")
  const StarToken := OperatorToken(Star, "*")
  const MinusToken := OperatorToken(Minus, "-")
  const BangToken := OperatorToken(Bang, "!")

  /** The tokens of `2 + 5*8`. */
  const SumTokens: seq<Token<int>> := [NumberToken("2", 2), PlusToken, NumberToken("5", 5), StarToken, NumberToken("8", 8), End]

  /** `*` binds tighter than `+`: the product is the right operand of the sum. */
  const SumTree: Expr<int> :=
    Binary(Literal(Num(2)), PlusToken, Binary(Literal(Num(5)), StarToken, Literal(Num(8))))

  /** `2 + 5*8` parses with `*` inside `+`. */
  lemma SumParses()
    ensures Parser.Parse(SumTokens) == Ok(SumTree)
  {
    assert ValidTokens(SumTokens);
    assert Grammar.Spans(SumTokens, 2, SumTree.right);
    assert Grammar.Spans(SumTokens, 0, SumTree);
    Parser.ParseCharacterization(SumTokens, SumTree);
  }

  /** The sum evaluates to 42. */
  lemma SumEvaluates()
    ensures Interpreter.Evaluate(IntArith(), SumTree) == Ok(Num(42))
  {
  }

  /** The tokens of `8 - 5 - 1`. */
  const DifferenceTokens: seq<Token<int>> :=
    [NumberToken("8", 8), MinusToken, NumberToken("5", 5), MinusToken, NumberToken("1", 1), End]

  /** `-` is left-associative: the first difference is the left operand of the second. */
  const DifferenceTree: Expr<int> :=
    Binary(Binary(Literal(Num(8)), MinusToken, Literal(Num(5))), MinusToken, Literal(Num(1)))

  /** `8 - 5 - 1` parses as `(8 - 5) - 1`. */
  lemma DifferenceParses()
    ensures Parser.Parse(DifferenceTokens) == Ok(DifferenceTree)
  {
    assert ValidTokens(DifferenceTokens);
    assert Grammar.Spans(DifferenceTokens, 0, DifferenceTree.left);
    assert Grammar.Spans(DifferenceTokens, 0, DifferenceTree);
    Parser.ParseCharacterization(DifferenceTokens, DifferenceTree);
  }

  /** Operands keep their order: `8 - 5` is 3, so `8 - 5 - 1` is 2; and `-2` negates. */
  lemma DifferenceEvaluates()
    ensures Interpreter.Evaluate(IntArith(), DifferenceTree.left) == Ok(Num(3))
    ensures Interpreter.Evaluate(IntArith(), DifferenceTree) == Ok(Num(2))
    ensures Interpreter.Evaluate(IntArith(), Unary(MinusToken, Literal(Num(2)))) == Ok(Num(-2))
  {
  }

  /** The tokens of `--1` and of `!!true`. */
  const NegNegTokens: seq<Token<int>> := [MinusToken, MinusToken, NumberToken("1", 1), End]
  const NotNotTokens: seq<Token<int>> := [BangToken, BangToken, OperatorToken(TrueKw, "true"), End]

  /** A unary operator takes a primary, so a second `-` or `!` is reported as a missing expression. */
  lemma DoubleUnaryFails()
    ensures Parser.Parse(NegNegTokens) == Err(Parser.ParseError(NegNegTokens[1], Parser.ExpectExpression))
    ensures Parser.Parse(NotNotTokens) == Err(Parser.ParseError(NotNotTokens[1], Parser.ExpectExpression))
  {
    SecondUnaryFails(NegNegTokens);
    SecondUnaryFails(NotNotTokens);
  }

  /** An error in the first operand passes unchanged through every binary level up to `parse`. */
  lemma SecondUnaryFails(tokens: seq<Token<int>>)
    requires ValidTokens(tokens) && |tokens| > 2
    requires tokens[0].kind in Grammar.UnaryOps && tokens[1].kind in Grammar.UnaryOps
    ensures Parser.Parse(tokens) == Err(Parser.ParseError(tokens[1], Parser.ExpectExpression))
  {
    var err := Err(Parser.ParseError(tokens[1], Parser.ExpectExpression));
    assert Parser.ParsePrimary(tokens, 1) == err;
    assert Parser.ParseAt(tokens, 0, Grammar.UnaryLevel) == err;
    assert Parser.ParseAt(tokens, 0, Grammar.FactorLevel) == err;
    assert Parser.ParseAt(tokens, 0, Grammar.TermLevel) == err;
    assert Parser.ParseAt(tokens, 0, Grammar.ComparisonLevel) == err;
    assert Parser.ParseAt(tokens, 0, Grammar.EqualityLevel) == err;
  }

  /** The tokens of `1 2`. */
  const TrailingTokens: seq<Token<int>> := [NumberToken("1", 1), NumberToken("2", 2), End]

  /** Parsing stops after one expression: the token after it is never read. */
  lemma TrailingIgnored()
    ensures Parser.Parse(TrailingTokens) == Ok(Literal(Num(1)))
  {
    assert ValidTokens(TrailingTokens);
    assert Grammar.Spans(TrailingTokens, 0, Literal(Num(1)));
    Parser.ParseCharacterization(TrailingTokens, Literal(Num(1)));
  }

  /** A rendering of literal values for printing: numbers in decimal. */
  function Render(v: Value<int>): string {
    match v
    case Nil => "nil"
    case Bool(b) => if b then "true" else "false"
    case Num(n) => Decimal(n)
    case Str(t) => t
  }

  /** As written, the printer shows a number literal as `undefined`: `-1` prints as `(- undefined)`. */
  lemma NegationPrintsAsWritten()
    ensures AstPrinter.Print(Unary(MinusToken, Literal(Num(1))), AstPrinter.AsWrittenRender) == "(- undefined)"
  {
    AstPrinter.Spaced1(MinusToken.lexeme, AstPrinter.Undefined);
  }

  /** With numbers rendered in decimal, the sum prints in prefix form with the product nested inside. */
  lemma SumPrints()
    ensures AstPrinter.Print(SumTree, Render) == "(+ 2 (* 5 8))"
  {
    assert Decimal(2) == "2" && Decimal(5) == "5" && Decimal(8) == "8";
    AstPrinter.PrintForms(SumTree.right, Render);
    assert AstPrinter.Print(SumTree.right, Render) == "(* 5 8)";
    AstPrinter.PrintForms(SumTree, Render);
  }
}

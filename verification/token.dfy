/** The immutable token record the scanner produces and the parser consumes (src/token.ts). */
module Tokens {
  import opened Wrappers

  /**
   * The closed set of token kinds: every kind the scanner can emit or the
   * parser tests for, plus end of input. Like the members of a TypeScript
   * enumeration they are distinct constants; keyword kinds carry a `Kw` suffix.
   */
  newtype TokenType = k: int | 0 <= k < 39

  const LeftParen: TokenType := 0
  const RightParen: TokenType := 1
  const LeftBrace: TokenType := 2
  const RightBrace: TokenType := 3
  const Comma: TokenType := 4
  const Dot: TokenType := 5
  const Minus: TokenType := 6
  const Plus: TokenType := 7
  const Semicolon: TokenType := 8
  const Slash: TokenType := 9
  const Star: TokenType := 10
  const Bang: TokenType := 11
  const BangEqual: TokenType := 12
  const Equal: TokenType := 13
  const EqualEqual: TokenType := 14
  const Greater: TokenType := 15
  const GreaterEqual: TokenType := 16
  const Less: TokenType := 17
  const LessEqual: TokenType := 18
  const Identifier: TokenType := 19
  const StringTok: TokenType := 20
  const NumberTok: TokenType := 21
  const AndKw: TokenType := 22
  const ClassKw: TokenType := 23
  const ElseKw: TokenType := 24
  const FalseKw: TokenType := 25
  const ForKw: TokenType := 26
  const FunKw: TokenType := 27
  const IfKw: TokenType := 28
  const NilKw: TokenType := 29
  const OrKw: TokenType := 30
  const PrintKw: TokenType := 31
  const ReturnKw: TokenType := 32
  const SuperKw: TokenType := 33
  const ThisKw: TokenType := 34
  const TrueKw: TokenType := 35
  const VarKw: TokenType := 36
  const WhileKw: TokenType := 37
  const Eof: TokenType := 38

  /** A token's decoded payload. `EmptyObject` is the `{}` the end-of-input token carries. */
  datatype Literal<N> = NumLit(num: N) | StrLit(str: string) | EmptyObject

  /**
   * A token: kind, exact source text, the line the scanner had reached when it
   * emitted the token, and the optional payload. The constructor takes its
   * arguments in the source's order (kind, lexeme, line, literal); being a
   * datatype value, a token never changes once built.
   */
  datatype Token<N> = Token(kind: TokenType, lexeme: string, line: nat, literal: Option<Literal<N>>)

  /** A STRING or NUMBER token carries a number or string payload, which the parser turns into a literal value. */
  predicate CarriesValue<N>(t: Token<N>) {
    t.kind == StringTok || t.kind == NumberTok ==> t.literal.Some? && !t.literal.value.EmptyObject?
  }

  /** What the parser may be built on: a token list that ends with end of input and whose literal tokens carry payloads. */
  predicate ValidTokens<N>(tokens: seq<Token<N>>) {
    && |tokens| > 0
    && tokens[|tokens| - 1].kind == Eof
    && forall i :: 0 <= i < |tokens| ==> CarriesValue(tokens[i])
  }

  /** The member names of the enumeration, in the order of the constants above. */
  const KindNames: seq<string> := [
    "LEFT_PAREN", "RIGHT_PAREN", "LEFT_BRACE", "RIGHT_BRACE", "COMMA", "DOT",
    "MINUS", "PLUS", "SEMICOLON", "SLASH", "STAR", "BANG",
    "BANG_EQUAL", "EQUAL", "EQUAL_EQUAL", "GREATER", "GREATER_EQUAL", "LESS",
    "LESS_EQUAL", "IDENTIFIER", "STRING", "NUMBER", "AND", "CLASS",
    "ELSE", "FALSE", "FOR", "FUN", "IF", "NIL",
    "OR", "PRINT", "RETURN", "SUPER", "THIS", "TRUE",
    "VAR", "WHILE", "EOF"]

  /** The rendering of a token kind inside `toString`: the enumeration member's name. */
  function KindName(k: TokenType): (name: string)
    ensures |name| > 0
    ensures forall i :: 0 <= i < |name| ==> name[i] != ' '
  {
    assert |KindNames| == 39;
    KindNames[k]
  }

  /** JavaScript's template rendering of the optional payload: absent is `undefined`, `{}` is `[object Object]`. */
  function LiteralText<N>(lit: Option<Literal<N>>, show: N -> string): string {
    match lit
    case None => "undefined"
    case Some(NumLit(n)) => show(n)
    case Some(StrLit(s)) => s
    case Some(EmptyObject) => "[object Object]"
  }

  /** `Token.toString`: kind, lexeme and payload joined by single spaces. */
  function TokenString<N>(t: Token<N>, show: N -> string): string {
    KindName(t.kind) + " " + (t.lexeme + " " + LiteralText(t.literal, show))
  }

  /** Index of the first space in `s`, or `|s|` when there is none. */
  function SpaceIndex(s: string): (i: nat)
    ensures i <= |s|
  {
    if |s| == 0 || s[0] == ' ' then 0 else 1 + SpaceIndex(s[1..])
  }

  /** In a space-free word followed by a space, the first space is the one after the word. */
  lemma {:induction false} SpaceIndexAfterWord(a: string, u: string)
    requires forall i :: 0 <= i < |a| ==> a[i] != ' '
    ensures SpaceIndex(a + " " + u) == |a|
  {
    if |a| > 0 {
      assert (a + " " + u)[1..] == a[1..] + " " + u;
      SpaceIndexAfterWord(a[1..], u);
    }
  }

  /**
   * `toString` text can be split back at its first space: what precedes it is
   * the kind's name, what follows is the lexeme, a space and the payload text.
   * So two tokens with the same text have kinds of the same name.
   */
  lemma TokenStringSplits<N>(t1: Token<N>, t2: Token<N>, show: N -> string)
    requires TokenString(t1, show) == TokenString(t2, show)
    ensures var text := TokenString(t1, show);
      && text[..SpaceIndex(text)] == KindName(t1.kind) == KindName(t2.kind)
      && text[SpaceIndex(text) + 1..] == t1.lexeme + " " + LiteralText(t1.literal, show)
  {
    var text := TokenString(t1, show);
    var a, b := KindName(t1.kind), KindName(t2.kind);
    SpaceIndexAfterWord(a, t1.lexeme + " " + LiteralText(t1.literal, show));
    SpaceIndexAfterWord(b, t2.lexeme + " " + LiteralText(t2.literal, show));
    assert a == text[..|a|] && b == text[..|b|];
  }
}

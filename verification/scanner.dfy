/**
 * The scanner (src/scanner.ts): one left-to-right pass over the source text
 * that turns it into a token list ending in a single end-of-input token, and
 * a list of diagnostics. The mutable cursor of the source becomes explicit
 * positions: `ScanToken` is one call of `scanToken` starting at `start`, and
 * `ScanFrom` is the `scanTokens` loop.
 */
module Scanner {
  import opened Wrappers
  import opened Tokens

  /** A reported lexical error: the line counter at the time and the message. */
  datatype Diagnostic = Diagnostic(line: nat, message: string)

  /** The effect of one `scanToken` call: where the cursor stopped, the line counter afterwards, what was emitted and reported. */
  datatype Step<N> = Step(next: nat, line: nat, token: Option<Token<N>>, error: Option<Diagnostic>)

  datatype Scanned<N> = Scanned(tokens: seq<Token<N>>, errors: seq<Diagnostic>)

  /** The fixed keyword table. */
  const Keywords: map<string, TokenType> := map[
    "and" := AndKw, "class" := ClassKw, "else" := ElseKw, "false" := FalseKw,
    "for" := ForKw, "fun" := FunKw, "if" := IfKw, "nil" := NilKw,
    "or" := OrKw, "print" := PrintKw, "return" := ReturnKw, "super" := SuperKw,
    "this" := ThisKw, "true" := TrueKw, "var" := VarKw, "while" := WhileKw]

  /** The lexeme of the end-of-input token is this sentinel, not source text. */
  const EofLexeme := "EOF"

  function EofToken<N>(line: nat): Token<N> {
    Token(Eof, EofLexeme, line, Some(EmptyObject))
  }

  predicate IsDigit(c: char) {
    '0' <= c <= '9'
  }

  predicate IsAlpha(c: char) {
    'a' <= c <= 'z' || 'A' <= c <= 'Z' || c == '_'
  }

  predicate IsAlphaNumeric(c: char) {
    IsAlpha(c) || IsDigit(c)
  }

  /** Characters that start a token, a comment or blank space; anything else is unexpected. */
  predicate Recognized(c: char) {
    || c in {'(', ')', '{', '}', ',', '.', '-', '+', ';', '*', '/', '!', '=', '<', '>', '"', ' ', '\r', '\t', '\n'}
    || IsDigit(c) || IsAlpha(c)
  }

  /** Number of line breaks in `s[i..j]`. */
  function Breaks(s: string, i: nat, j: nat): nat
    requires i <= j <= |s|
    decreases j - i
  {
    if i == j then 0 else (if s[i] == '\n' then 1 else 0) + Breaks(s, i + 1, j)
  }

  lemma {:induction false} BreaksNone(s: string, i: nat, j: nat)
    requires i <= j <= |s|
    requires forall k :: i <= k < j ==> s[k] != '\n'
    ensures Breaks(s, i, j) == 0
    decreases j - i
  {
    if i < j {
      BreaksNone(s, i + 1, j);
    }
  }

  lemma {:induction false} BreaksSplit(s: string, i: nat, j: nat, k: nat)
    requires i <= j <= k <= |s|
    ensures Breaks(s, i, k) == Breaks(s, i, j) + Breaks(s, j, k)
    decreases j - i
  {
    if i < j {
      BreaksSplit(s, i + 1, j, k);
    }
  }

  // ---------------------------------------------------------------------
  // What each kind of token looks like, independently of how it is scanned.
  // ---------------------------------------------------------------------

  predicate IsKeywordKind(k: TokenType) {
    AndKw <= k <= WhileKw
  }

  /** The spellings of the punctuation and operator kinds, which come first among the kinds. */
  const Spellings: seq<string> := [
    "(", ")", "{", "}", ",", ".", "-", "+", ";", "/", "*",
    "!", "!=", "=", "==", ">", ">=", "<", "<="]

  /** The only spelling of a punctuation or operator kind. */
  function Spelling(k: TokenType): Option<string> {
    if k <= LessEqual then Some(Spellings[k]) else None
  }

  predicate AllDigits(s: string) {
    |s| > 0 && forall k :: 0 <= k < |s| ==> IsDigit(s[k])
  }

  /** Digits, optionally followed by a dot and at least one digit. */
  predicate IsNumeral(s: string) {
    AllDigits(s) || exists i :: 0 < i < |s| - 1 && s[i] == '.' && AllDigits(s[..i]) && AllDigits(s[i + 1..])
  }

  /** A letter or underscore followed by letters, digits and underscores. */
  predicate IsWord(s: string) {
    |s| > 0 && IsAlpha(s[0]) && forall k :: 0 <= k < |s| ==> IsAlphaNumeric(s[k])
  }

  predicate NoQuote(s: string) {
    forall k :: 0 <= k < |s| ==> s[k] != '"'
  }

  /** A string lexeme closed by a second quote, with no quote in between. */
  predicate Terminated(s: string) {
    |s| >= 2 && s[0] == '"' && s[|s| - 1] == '"' && NoQuote(s[1..|s| - 1])
  }

  /** An opening quote followed either by a closed payload or by the rest of the source. */
  predicate IsStringLexeme(s: string) {
    |s| >= 1 && s[0] == '"' && (Terminated(s) || NoQuote(s[1..]))
  }

  /** The text strictly between the quotes, or everything after the opening quote when unterminated. */
  function Payload(s: string): string
    requires |s| >= 1
  {
    if Terminated(s) then s[1..|s| - 1] else s[1..]
  }

  /** The kind a word scans to: its keyword kind when it is in the table, IDENTIFIER otherwise. */
  function WordKind(w: string): TokenType {
    if w in Keywords then Keywords[w] else Identifier
  }

  /** The keyword table maps only to keyword kinds. */
  lemma KeywordKinds(w: string)
    requires w in Keywords
    ensures IsKeywordKind(Keywords[w])
  {
  }

  /** What a token made by one scanning step looks like, kind by kind. */
  ghost predicate WellFormed<N>(t: Token<N>, decode: string -> N) {
    if t.kind == StringTok then IsStringLexeme(t.lexeme) && t.literal == Some(StrLit(Payload(t.lexeme)))
    else if t.kind == NumberTok then IsNumeral(t.lexeme) && t.literal == Some(NumLit(decode(t.lexeme)))
    else if t.kind == Identifier || IsKeywordKind(t.kind) then IsWord(t.lexeme) && WordKind(t.lexeme) == t.kind && t.literal.None?
    else if t.kind == Eof then false
    else Spelling(t.kind) == Some(t.lexeme) && t.literal.None?
  }

  // ---------------------------------------------------------------------
  // The scanning loops.
  // ---------------------------------------------------------------------

  /** `match`: the cursor moves past `src[i]` only when it is exactly `expected`. */
  predicate Matches(src: string, i: nat, expected: char) {
    i < |src| && src[i] == expected
  }

  /** The `number()` digit loop: the end of the run of digits starting at `i`. */
  function DigitsEnd(src: string, i: nat): (j: nat)
    requires i <= |src|
    ensures i <= j <= |src|
    ensures forall k :: i <= k < j ==> IsDigit(src[k])
    ensures j == |src| || !IsDigit(src[j])
    decreases |src| - i
  {
    if i < |src| && IsDigit(src[i]) then DigitsEnd(src, i + 1) else i
  }

  /** The `identifier()` loop: the end of the run of letters, digits and underscores starting at `i`. */
  function WordEnd(src: string, i: nat): (j: nat)
    requires i <= |src|
    ensures i <= j <= |src|
    ensures forall k :: i <= k < j ==> IsAlphaNumeric(src[k])
    ensures j == |src| || !IsAlphaNumeric(src[j])
    decreases |src| - i
  {
    if i < |src| && IsAlphaNumeric(src[i]) then WordEnd(src, i + 1) else i
  }

  /**
   * The comment loop (`stop` a line break) and the `string()` loop (`stop` a
   * quote): the position of the next `stop`, or the end of the source.
   */
  function SkipUntil(src: string, i: nat, stop: char): (j: nat)
    requires i <= |src|
    ensures i <= j <= |src|
    ensures forall k :: i <= k < j ==> src[k] != stop
    ensures j == |src| || src[j] == stop
    decreases |src| - i
  {
    if i < |src| && src[i] != stop then SkipUntil(src, i + 1, stop) else i
  }

  /**
   * What every token-emitting step guarantees: it consumes at least one
   * character, counts exactly the line breaks it consumes, and emits a token
   * whose lexeme is the consumed text and whose line is the line reached.
   */
  predicate EmitsToken<N>(src: string, start: nat, line: nat, s: Step<N>) {
    && start < s.next <= |src|
    && s.line == line + Breaks(src, start, s.next)
    && s.token.Some?
    && s.token.value.lexeme == src[start..s.next]
    && s.token.value.line == s.line
  }

  /** The characters that alone make a token. */
  function SingleCharKind(c: char): (k: Option<TokenType>)
    ensures k.Some? ==> k.value <= Star && k.value != Slash
  {
    match c
    case '(' => Some(LeftParen)
    case ')' => Some(RightParen)
    case '{' => Some(LeftBrace)
    case '}' => Some(RightBrace)
    case ',' => Some(Comma)
    case '.' => Some(Dot)
    case '-' => Some(Minus)
    case '+' => Some(Plus)
    case ';' => Some(Semicolon)
    case '*' => Some(Star)
    case _ => None
  }

  /** A one-character kind is spelled by exactly the character that makes it. */
  lemma SingleCharSpelling(c: char)
    requires SingleCharKind(c).Some?
    ensures Spelling(SingleCharKind(c).value) == Some([c])
  {
  }

  /** `addToken` for a token without payload: its lexeme is the text from `start` to the cursor. */
  function Emit<N>(src: string, start: nat, cur: nat, line: nat, kind: TokenType): Step<N>
    requires start < cur <= |src|
  {
    Step(cur, line, Some(Token(kind, src[start..cur], line, None)), None)
  }

  /** A one-character token. */
  function ScanSingle<N>(src: string, start: nat, line: nat): (s: Step<N>)
    requires start < |src| && SingleCharKind(src[start]).Some?
    ensures EmitsToken(src, start, line, s) && s.error.None? && s.next == start + 1
    ensures s.token.value == Token(SingleCharKind(src[start]).value, [src[start]], line, None)
  {
    assert src[start..start + 1] == [src[start]];
    Emit(src, start, start + 1, line, SingleCharKind(src[start]).value)
  }

  /** The one- and two-character kinds an operator character starts. */
  function OperatorKinds(c: char): (kinds: (TokenType, TokenType))
    requires c in "=!<>"
    ensures kinds.0 in {Equal, Bang, Less, Greater} && kinds.1 == kinds.0 + 1
  {
    match c
    case '=' => (Equal, EqualEqual)
    case '!' => (Bang, BangEqual)
    case '<' => (Less, LessEqual)
    case '>' => (Greater, GreaterEqual)
  }

  /** An operator character alone spells the first of its kinds, and followed by `=` the second. */
  lemma OperatorSpelling(c: char)
    requires c in "=!<>"
    ensures Spelling(OperatorKinds(c).0) == Some([c]) && Spelling(OperatorKinds(c).1) == Some([c, '='])
  {
  }

  /** `=`, `!`, `<`, `>`: the two-character kind when `=` follows, which `match` then consumes; the one-character kind otherwise. */
  function ScanOperator<N>(src: string, start: nat, line: nat): (s: Step<N>)
    requires start < |src| && src[start] in "=!<>"
    ensures EmitsToken(src, start, line, s) && s.error.None? && s.token.value.literal.None?
    ensures Matches(src, start + 1, '=') ==>
      s.next == start + 2 && s.token.value.kind == OperatorKinds(src[start]).1 && s.token.value.lexeme == [src[start], '=']
    ensures !Matches(src, start + 1, '=') ==>
      s.next == start + 1 && s.token.value.kind == OperatorKinds(src[start]).0 && s.token.value.lexeme == [src[start]]
  {
    var c := src[start];
    if Matches(src, start + 1, '=') then
      assert src[start..start + 2] == [c, '='];
      BreaksNone(src, start, start + 2);
      Emit(src, start, start + 2, line, OperatorKinds(c).1)
    else
      assert src[start..start + 1] == [c];
      BreaksNone(src, start, start + 1);
      Emit(src, start, start + 1, line, OperatorKinds(c).0)
  }

  /** `/`: a comment running up to the next line break when a second `/` follows, the SLASH token otherwise. */
  function ScanSlash<N>(src: string, start: nat, line: nat): (s: Step<N>)
    requires start < |src| && src[start] == '/'
    ensures Matches(src, start + 1, '/') ==>
      && s == Step(s.next, line, None, None)
      && start + 2 <= s.next <= |src|
      && (forall k :: start <= k < s.next ==> src[k] != '\n')
      && (s.next == |src| || src[s.next] == '\n')
    ensures !Matches(src, start + 1, '/') ==>
      && EmitsToken(src, start, line, s) && s.error.None? && s.next == start + 1
      && s.token.value == Token(Slash, "/", line, None)
  {
    if Matches(src, start + 1, '/') then
      Step(SkipUntil(src, start + 2, '\n'), line, None, None)
    else
      assert src[start..start + 1] == "/";
      Emit(src, start, start + 1, line, Slash)
  }

  /** A string literal: the payload runs to the next quote, or to the end of the source, which is reported. */
  function ScanString<N>(src: string, start: nat, line: nat): (s: Step<N>)
    requires start < |src| && src[start] == '"'
    ensures EmitsToken(src, start, line, s) && s.token.value.kind == StringTok
    ensures IsStringLexeme(s.token.value.lexeme) && s.token.value.literal == Some(StrLit(Payload(s.token.value.lexeme)))
    ensures !Terminated(s.token.value.lexeme) <==> s.error.Some?
    ensures s.error.Some? ==> s.next == |src| && s.error == Some(Diagnostic(s.line, ""))
  {
    var close := SkipUntil(src, start + 1, '"');
    var reached := line + Breaks(src, start + 1, close);
    BreaksSplit(src, start, start + 1, close);
    if close == |src| then
      // Reported, then the cursor steps past the end; `substring` clamps to the source.
      var lexeme := src[start..];
      assert lexeme[1..] == src[start + 1..];
      assert |lexeme| >= 2 ==> lexeme[|lexeme| - 1] == src[|src| - 1];
      Step(|src|, reached, Some(Token(StringTok, lexeme, reached, Some(StrLit(src[start + 1..])))),
           Some(Diagnostic(reached, "")))
    else
      var lexeme := src[start..close + 1];
      assert |lexeme| == close + 1 - start;
      assert lexeme[1..|lexeme| - 1] == src[start + 1..close];
      BreaksSplit(src, start, close, close + 1);
      Step(close + 1, reached, Some(Token(StringTok, lexeme, reached, Some(StrLit(src[start + 1..close])))), None)
  }

  /** A number: a maximal digit run, then a dot and a second digit run only when a digit follows the dot. */
  function ScanNumber<N>(src: string, start: nat, line: nat, decode: string -> N): (s: Step<N>)
    requires start < |src| && IsDigit(src[start])
    ensures EmitsToken(src, start, line, s) && s.error.None? && s.token.value.kind == NumberTok
    ensures IsNumeral(s.token.value.lexeme) && s.token.value.literal == Some(NumLit(decode(s.token.value.lexeme)))
    ensures s.next == |src| || !IsDigit(src[s.next])
    ensures '.' !in s.token.value.lexeme ==> !(Matches(src, s.next, '.') && s.next + 1 < |src| && IsDigit(src[s.next + 1]))
  {
    var whole := DigitsEnd(src, start + 1);
    if whole + 1 < |src| && src[whole] == '.' && IsDigit(src[whole + 1]) then
      var end := DigitsEnd(src, whole + 1);
      FractionNumeral(src, start, whole, end);
      BreaksNone(src, start, end);
      Step(end, line, Some(Token(NumberTok, src[start..end], line, Some(NumLit(decode(src[start..end]))))), None)
    else
      WholeNumeral(src, start, whole);
      BreaksNone(src, start, whole);
      Step(whole, line, Some(Token(NumberTok, src[start..whole], line, Some(NumLit(decode(src[start..whole]))))), None)
  }

  /** A run of digits is a numeral without a dot. */
  lemma WholeNumeral(src: string, start: nat, whole: nat)
    requires start < whole <= |src|
    requires forall k :: start <= k < whole ==> IsDigit(src[k])
    ensures IsNumeral(src[start..whole]) && '.' !in src[start..whole]
  {
    var text := src[start..whole];
    assert forall k :: 0 <= k < |text| ==> text[k] == src[start + k];
  }

  /** A run of digits, a dot and a second run of digits form a numeral with a dot. */
  lemma FractionNumeral(src: string, start: nat, whole: nat, end: nat)
    requires start < whole && whole + 1 < end <= |src|
    requires forall k :: start <= k < whole ==> IsDigit(src[k])
    requires src[whole] == '.'
    requires forall k :: whole + 1 <= k < end ==> IsDigit(src[k])
    ensures IsNumeral(src[start..end]) && '.' in src[start..end]
  {
    var text := src[start..end];
    var i := whole - start;
    var head, frac := text[..i], text[i + 1..];
    assert forall k :: 0 <= k < |head| ==> head[k] == src[start + k];
    assert forall k :: 0 <= k < |frac| ==> frac[k] == src[whole + 1 + k];
    assert AllDigits(head) && AllDigits(frac);
    assert text[i] == '.';
  }

  /** An identifier or keyword: a maximal word, looked up in the keyword table. */
  function ScanIdentifier<N>(src: string, start: nat, line: nat): (s: Step<N>)
    requires start < |src| && IsAlpha(src[start])
    ensures EmitsToken(src, start, line, s) && s.error.None? && s.token.value.literal.None?
    ensures IsWord(s.token.value.lexeme) && s.token.value.kind == WordKind(s.token.value.lexeme)
    ensures s.next == |src| || !IsAlphaNumeric(src[s.next])
  {
    var end := WordEnd(src, start + 1);
    var text := src[start..end];
    BreaksNone(src, start, end);
    Step(end, line, Some(Token(WordKind(text), text, line, None)), None)
  }

  /** One call of `scanToken` with the cursor at `start` and the line counter at `line`. */
  function ScanToken<N>(src: string, start: nat, line: nat, decode: string -> N): (s: Step<N>)
    requires start < |src|
    // every step consumes at least one character, and counts exactly the line breaks it consumes
    ensures start < s.next <= |src|
    ensures s.line == line + Breaks(src, start, s.next)
    // an emitted token is the consumed text and carries the line reached
    ensures s.token.Some? ==> EmitsToken(src, start, line, s)
    ensures s.error.Some? ==> line <= s.error.value.line <= s.line
  {
    var c := src[start];
    if SingleCharKind(c).Some? then ScanSingle(src, start, line)
    else if c == '\n' then
      Step(start + 1, line + 1, None, None)
    else if c in " \r\t" then
      Step(start + 1, line, None, None)
    else if c in "=!<>" then ScanOperator(src, start, line)
    else if c == '/' then
      var s := ScanSlash(src, start, line);
      BreaksNone(src, start, s.next);
      s
    else if c == '"' then ScanString(src, start, line)
    else if IsDigit(c) then ScanNumber(src, start, line, decode)
    else if IsAlpha(c) then ScanIdentifier(src, start, line)
    else
      Step(start + 1, line, None, Some(Diagnostic(line, "Unexpected character: " + [c])))
  }

  /** The branch of `scanToken` that the first character selects. */
  datatype Branch = SingleBranch | BlankBranch | OperatorBranch | SlashBranch | StringBranch | NumberBranch | WordBranch | UnexpectedBranch

  function BranchOf(c: char): Branch {
    if SingleCharKind(c).Some? then SingleBranch
    else if c in " \r\t\n" then BlankBranch
    else if c in "=!<>" then OperatorBranch
    else if c == '/' then SlashBranch
    else if c == '"' then StringBranch
    else if IsDigit(c) then NumberBranch
    else if IsAlpha(c) then WordBranch
    else UnexpectedBranch
  }

  /**
   * The character classes of the default branch: no digit is a letter, so
   * testing `isCharNumber` before `isAlpha` decides nothing, and no letter,
   * digit or underscore has a case of its own in the switch.
   */
  lemma CharClasses(c: char)
    ensures !(IsDigit(c) && IsAlpha(c))
    ensures IsAlphaNumeric(c) <==> IsDigit(c) || IsAlpha(c)
    ensures IsDigit(c) ==> BranchOf(c) == NumberBranch
    ensures IsAlpha(c) ==> BranchOf(c) == WordBranch
  {
  }

  /** Every token a step emits is well formed for its kind, which is never end-of-input. */
  lemma ScanTokenWellFormed<N>(src: string, start: nat, line: nat, decode: string -> N)
    requires start < |src|
    ensures var s := ScanToken(src, start, line, decode);
      s.token.Some? ==> s.token.value.kind != Eof && WellFormed(s.token.value, decode)
  {
    var c := src[start];
    var s := ScanToken(src, start, line, decode);
    match BranchOf(c)
    case SingleBranch =>
      assert s == ScanSingle(src, start, line);
      SingleCharSpelling(c);
    case OperatorBranch =>
      assert s == ScanOperator(src, start, line);
      OperatorSpelling(c);
    case SlashBranch =>
      assert s == ScanSlash(src, start, line);
    case StringBranch =>
      assert s == ScanString(src, start, line);
    case NumberBranch =>
      assert s == ScanNumber(src, start, line, decode);
    case WordBranch =>
      var t := ScanIdentifier<N>(src, start, line).token.value;
      assert s.token.value == t;
      if t.lexeme in Keywords { KeywordKinds(t.lexeme); }
    case _ =>
  }

  /**
   * Blanks, line breaks, comments and unexpected characters emit no token;
   * every other character starts one. A comment stops before the line break
   * that ends it, so the break is counted by the next step.
   */
  lemma SilentSteps<N>(src: string, start: nat, line: nat, decode: string -> N)
    requires start < |src|
    ensures var s := ScanToken(src, start, line, decode);
      && (s.token.None? <==>
            src[start] in " \r\t\n" || (src[start] == '/' && Matches(src, start + 1, '/')) || !Recognized(src[start]))
      && (src[start] == '/' && Matches(src, start + 1, '/') ==> s.next == |src| || src[s.next] == '\n')
  {
    var c := src[start];
    var s := ScanToken(src, start, line, decode);
    match BranchOf(c)
    case SingleBranch =>
      assert s == ScanSingle(src, start, line);
    case BlankBranch =>
    case OperatorBranch =>
      assert s == ScanOperator(src, start, line);
    case SlashBranch =>
      assert s == ScanSlash(src, start, line);
    case StringBranch =>
      assert s == ScanString(src, start, line);
    case NumberBranch =>
      assert s == ScanNumber(src, start, line, decode);
    case WordBranch =>
      assert s == ScanIdentifier(src, start, line);
    case UnexpectedBranch =>
  }

  /**
   * Only an unexpected character and an unterminated string are reported. The
   * former is consumed alone, names the character, and scanning goes on; the
   * latter runs to the end of the source, so scanning stops after it.
   */
  lemma ReportedSteps<N>(src: string, start: nat, line: nat, decode: string -> N)
    requires start < |src|
    ensures var s := ScanToken(src, start, line, decode);
      && (s.error.Some? <==>
            !Recognized(src[start]) || (s.token.Some? && s.token.value.kind == StringTok && !Terminated(s.token.value.lexeme)))
      && (!Recognized(src[start]) ==>
            s.next == start + 1 && s.error == Some(Diagnostic(line, "Unexpected character: " + [src[start]])))
      && (s.token.Some? && s.token.value.kind == StringTok && !Terminated(s.token.value.lexeme) ==>
            s.next == |src| && s.error == Some(Diagnostic(s.line, "")))
  {
    var c := src[start];
    var s := ScanToken(src, start, line, decode);
    match BranchOf(c)
    case SingleBranch =>
      assert s == ScanSingle(src, start, line);
    case BlankBranch =>
    case OperatorBranch =>
      assert s == ScanOperator(src, start, line);
    case SlashBranch =>
      assert s == ScanSlash(src, start, line);
    case StringBranch =>
      assert s == ScanString(src, start, line);
    case NumberBranch =>
      assert s == ScanNumber(src, start, line, decode);
    case WordBranch =>
      assert s == ScanIdentifier(src, start, line);
    case UnexpectedBranch =>
  }

  /** Longest match for operators: `=`, `!`, `<`, `>` and `/` are never followed by the character that would have extended them. */
  lemma OperatorLongestMatch<N>(src: string, start: nat, line: nat, decode: string -> N)
    requires start < |src|
    ensures var s := ScanToken(src, start, line, decode);
      && (s.token.Some? && s.token.value.kind in {Equal, Bang, Less, Greater} ==> !Matches(src, s.next, '='))
      && (s.token.Some? && s.token.value.kind == Slash ==> !Matches(src, s.next, '/'))
  {
    var c := src[start];
    var s := ScanToken(src, start, line, decode);
    match BranchOf(c)
    case SingleBranch =>
      assert s == ScanSingle(src, start, line);
    case OperatorBranch =>
      assert s == ScanOperator(src, start, line);
    case SlashBranch =>
      assert s == ScanSlash(src, start, line);
    case StringBranch =>
      assert s == ScanString(src, start, line);
    case NumberBranch =>
      assert s == ScanNumber(src, start, line, decode);
    case WordBranch =>
      assert s == ScanIdentifier(src, start, line);
    case _ =>
  }

  /** Longest match for numbers: a maximal digit run, and a dot after a whole number is left alone only when no digit follows it. */
  lemma NumberLongestMatch<N>(src: string, start: nat, line: nat, decode: string -> N)
    requires start < |src|
    ensures var s := ScanToken(src, start, line, decode);
      s.token.Some? && s.token.value.kind == NumberTok ==>
        && (s.next == |src| || !IsDigit(src[s.next]))
        && ('.' !in s.token.value.lexeme ==> !(Matches(src, s.next, '.') && s.next + 1 < |src| && IsDigit(src[s.next + 1])))
  {
    var c := src[start];
    var s := ScanToken(src, start, line, decode);
    match BranchOf(c)
    case SingleBranch =>
      assert s == ScanSingle(src, start, line);
    case OperatorBranch =>
      assert s == ScanOperator(src, start, line);
    case SlashBranch =>
      assert s == ScanSlash(src, start, line);
    case StringBranch =>
      assert s == ScanString(src, start, line);
    case NumberBranch =>
      assert s == ScanNumber(src, start, line, decode);
    case WordBranch =>
      var t := ScanIdentifier<N>(src, start, line).token.value;
      assert s.token.value == t;
      if t.lexeme in Keywords { KeywordKinds(t.lexeme); }
    case _ =>
  }

  /** Longest match for words: an identifier or keyword is a maximal run of letters, digits and underscores. */
  lemma WordLongestMatch<N>(src: string, start: nat, line: nat, decode: string -> N)
    requires start < |src|
    ensures var s := ScanToken(src, start, line, decode);
      s.token.Some? && (s.token.value.kind == Identifier || IsKeywordKind(s.token.value.kind)) ==>
        s.next == |src| || !IsAlphaNumeric(src[s.next])
  {
    var c := src[start];
    var s := ScanToken(src, start, line, decode);
    match BranchOf(c)
    case SingleBranch =>
      assert s == ScanSingle(src, start, line);
    case OperatorBranch =>
      assert s == ScanOperator(src, start, line);
    case SlashBranch =>
      assert s == ScanSlash(src, start, line);
    case StringBranch =>
      assert s == ScanString(src, start, line);
    case NumberBranch =>
      assert s == ScanNumber(src, start, line, decode);
    case WordBranch =>
      assert s == ScanIdentifier(src, start, line);
    case _ =>
  }

  // ---------------------------------------------------------------------
  // The `scanTokens` loop. It is written over any step function with the
  // contract below, so that the loop's own facts are proved once from that
  // contract; `ScanTokens` runs it with `scanToken`.
  // ---------------------------------------------------------------------

  /** What the loop relies on about its step: from any position before the end it consumes at least one character, counts exactly the line breaks it consumes, and stamps tokens and reports with lines in that range. */
  ghost predicate Advances<N>(src: string, step: (nat, nat) --> Step<N>) {
    forall p: nat, l: nat {:trigger step.requires(p, l)} :: p < |src| ==>
      && step.requires(p, l)
      && p < step(p, l).next <= |src|
      && step(p, l).line == l + Breaks(src, p, step(p, l).next)
      && (step(p, l).token.Some? ==> step(p, l).token.value.line == step(p, l).line)
      && (step(p, l).error.Some? ==> l <= step(p, l).error.value.line <= step(p, l).line)
  }

  /** Every token the step emits is well formed for its kind, which is never end-of-input. */
  ghost predicate EmitsWellFormed<N>(src: string, step: (nat, nat) --> Step<N>, decode: string -> N)
    requires Advances(src, step)
  {
    forall p: nat, l: nat {:trigger step(p, l)} :: p < |src| && step(p, l).token.Some? ==>
      step(p, l).token.value.kind != Eof && WellFormed(step(p, l).token.value, decode)
  }

  /** `scanToken` on a fixed source, as the step of the loop. */
  function Stepper<N>(src: string, decode: string -> N): (nat, nat) --> Step<N> {
    (p: nat, l: nat) requires p < |src| => ScanToken(src, p, l, decode)
  }

  lemma StepperAdvances<N>(src: string, decode: string -> N)
    ensures Advances(src, Stepper(src, decode))
  {
  }

  lemma StepperWellFormed<N>(src: string, decode: string -> N)
    ensures Advances(src, Stepper(src, decode))
    ensures EmitsWellFormed(src, Stepper(src, decode), decode)
  {
    StepperAdvances(src, decode);
    forall p: nat, l: nat | p < |src|
      ensures var s := Stepper(src, decode)(p, l); s.token.Some? ==> s.token.value.kind != Eof && WellFormed(s.token.value, decode)
    {
      ScanTokenWellFormed(src, p, l, decode);
    }
  }

  /**
   * The `scanTokens` loop from cursor `pos` with the line counter at `line`:
   * the tokens of every step in order, then the end-of-input token.
   */
  function ScanFrom<N>(src: string, pos: nat, line: nat, step: (nat, nat) --> Step<N>): (r: Scanned<N>)
    requires pos <= |src| && Advances(src, step)
    // the end-of-input token comes last
    ensures |r.tokens| >= 1 && r.tokens[|r.tokens| - 1] == EofToken(r.tokens[|r.tokens| - 1].line)
    decreases |src| - pos
  {
    if pos == |src| then
      Scanned([EofToken(line)], [])
    else
      var s := step(pos, line);
      Record(s, ScanFrom(src, s.next, s.line, step))
  }

  /** Put what one step emitted and reported in front of what the rest of the loop produces. */
  function Record<N>(s: Step<N>, rest: Scanned<N>): Scanned<N> {
    Scanned(if s.token.Some? then [s.token.value] + rest.tokens else rest.tokens,
            if s.error.Some? then [s.error.value] + rest.errors else rest.errors)
  }

  /** Scanning starts at the first character, with the line counter at 1. */
  const SourceStart: nat := 0
  const FirstLine: nat := 1

  /** The line counter at the end of the source: one more than the number of line breaks. */
  function LastLine(src: string): nat {
    FirstLine + Breaks(src, SourceStart, |src|)
  }

  /** `scanTokens`: scan the whole source from line 1. */
  function ScanTokens<N>(src: string, decode: string -> N): (r: Scanned<N>)
    ensures |r.tokens| >= 1 && r.tokens[|r.tokens| - 1] == EofToken(r.tokens[|r.tokens| - 1].line)
    ensures r.tokens[|r.tokens| - 1].line == LastLine(src)
  {
    StepperAdvances(src, decode);
    ScanFromEndLine(src, SourceStart, FirstLine, Stepper(src, decode));
    ScanFrom(src, SourceStart, FirstLine, Stepper(src, decode))
  }

  /** Every token `scanTokens` emits before the end-of-input token is well formed, so the list is one the parser accepts as input. */
  lemma ScanTokensWellFormed<N>(src: string, decode: string -> N)
    ensures ScannedWellFormed(ScanTokens(src, decode).tokens, decode)
    ensures ValidTokens(ScanTokens(src, decode).tokens)
  {
    StepperWellFormed(src, decode);
    LoopWellFormed(src, Stepper(src, decode), decode);
  }

  /** For any step with the contract, the loop run from the start of the source emits well-formed tokens and a valid list. */
  lemma LoopWellFormed<N>(src: string, step: (nat, nat) --> Step<N>, decode: string -> N)
    requires Advances(src, step) && EmitsWellFormed(src, step, decode)
    ensures ScannedWellFormed(ScanFrom(src, SourceStart, FirstLine, step).tokens, decode)
    ensures ValidTokens(ScanFrom(src, SourceStart, FirstLine, step).tokens)
  {
    ScanFromWellFormed(src, SourceStart, FirstLine, step, decode);
    WellFormedTokensValid(ScanFrom(src, SourceStart, FirstLine, step).tokens, decode);
  }

  /** The end-of-input token carries the line counter reached after the last line break of the source. */
  lemma {:induction false} ScanFromEndLine<N>(src: string, pos: nat, line: nat, step: (nat, nat) --> Step<N>)
    requires pos <= |src| && Advances(src, step)
    ensures var r := ScanFrom(src, pos, line, step);
      r.tokens[|r.tokens| - 1].line == line + Breaks(src, pos, |src|)
    decreases |src| - pos
  {
    if pos < |src| {
      var s := step(pos, line);
      ScanFromEndLine(src, s.next, s.line, step);
      BreaksSplit(src, pos, s.next, |src|);
    }
  }

  /** Every token before the last is a well-formed token of some kind other than end-of-input. */
  ghost predicate ScannedWellFormed<N>(tokens: seq<Token<N>>, decode: string -> N) {
    forall i :: 0 <= i < |tokens| - 1 ==> tokens[i].kind != Eof && WellFormed(tokens[i], decode)
  }

  /** Every token the loop emits before the end-of-input token is well formed for its kind. */
  lemma {:induction false} ScanFromWellFormed<N>(src: string, pos: nat, line: nat, step: (nat, nat) --> Step<N>, decode: string -> N)
    requires pos <= |src| && Advances(src, step) && EmitsWellFormed(src, step, decode)
    ensures ScannedWellFormed(ScanFrom(src, pos, line, step).tokens, decode)
    decreases |src| - pos
  {
    if pos < |src| {
      var s := step(pos, line);
      var rest := ScanFrom(src, s.next, s.line, step);
      ScanFromWellFormed(src, s.next, s.line, step, decode);
      var r := ScanFrom(src, pos, line, step);
      if s.token.Some? {
        forall i | 0 < i < |r.tokens| - 1
          ensures r.tokens[i].kind != Eof && WellFormed(r.tokens[i], decode)
        {
          assert r.tokens[i] == rest.tokens[i - 1];
        }
      }
    }
  }

  /** Scanner output meets what the parser asks of its input. */
  lemma WellFormedTokensValid<N>(tokens: seq<Token<N>>, decode: string -> N)
    requires |tokens| >= 1 && tokens[|tokens| - 1] == EofToken(tokens[|tokens| - 1].line)
    requires ScannedWellFormed(tokens, decode)
    ensures ValidTokens(tokens)
  {
    forall i | 0 <= i < |tokens| - 1
      ensures CarriesValue(tokens[i])
    {
      WellFormedCarriesValue(tokens[i], decode);
    }
  }

  lemma WellFormedCarriesValue<N>(t: Token<N>, decode: string -> N)
    requires WellFormed(t, decode)
    ensures CarriesValue(t)
  {
  }

  predicate LinesWithin<N>(tokens: seq<Token<N>>, first: nat, last: nat) {
    forall i :: 0 <= i < |tokens| ==> first <= tokens[i].line <= last
  }

  /** Every token lies between the starting line and the line reached at the end of the source. */
  lemma {:induction false} ScanTokenLinesBounded<N>(src: string, pos: nat, line: nat, step: (nat, nat) --> Step<N>)
    requires pos <= |src| && Advances(src, step)
    ensures LinesWithin(ScanFrom(src, pos, line, step).tokens, line, line + Breaks(src, pos, |src|))
    decreases |src| - pos
  {
    if pos < |src| {
      var s := step(pos, line);
      ScanTokenLinesBounded(src, s.next, s.line, step);
      BreaksSplit(src, pos, s.next, |src|);
      var r, rest := ScanFrom(src, pos, line, step), ScanFrom(src, s.next, s.line, step);
      if s.token.Some? {
        forall i | 0 < i < |r.tokens|
          ensures line <= r.tokens[i].line <= line + Breaks(src, pos, |src|)
        {
          assert r.tokens[i] == rest.tokens[i - 1];
        }
      }
    }
  }

  predicate LinesNondecreasing<N>(tokens: seq<Token<N>>) {
    forall i :: 0 < i < |tokens| ==> tokens[i - 1].line <= tokens[i].line
  }

  /** Token lines never decrease along the token list. */
  lemma {:induction false} ScanTokenLinesOrdered<N>(src: string, pos: nat, line: nat, step: (nat, nat) --> Step<N>)
    requires pos <= |src| && Advances(src, step)
    ensures LinesNondecreasing(ScanFrom(src, pos, line, step).tokens)
    decreases |src| - pos
  {
    if pos < |src| {
      var s := step(pos, line);
      var r, rest := ScanFrom(src, pos, line, step), ScanFrom(src, s.next, s.line, step);
      ScanTokenLinesOrdered(src, s.next, s.line, step);
      ScanTokenLinesBounded(src, s.next, s.line, step);
      if s.token.Some? {
        forall i | 1 < i < |r.tokens|
          ensures r.tokens[i - 1].line <= r.tokens[i].line
        {
          assert r.tokens[i - 1] == rest.tokens[i - 2] && r.tokens[i] == rest.tokens[i - 1];
        }
      }
    }
  }

  /** Every report lies between the starting line and the line reached at the end of the source. */
  lemma {:induction false} ScanErrorLinesBounded<N>(src: string, pos: nat, line: nat, step: (nat, nat) --> Step<N>)
    requires pos <= |src| && Advances(src, step)
    ensures forall d :: d in ScanFrom(src, pos, line, step).errors ==> line <= d.line <= line + Breaks(src, pos, |src|)
    decreases |src| - pos
  {
    if pos < |src| {
      var s := step(pos, line);
      ScanErrorLinesBounded(src, s.next, s.line, step);
      BreaksSplit(src, pos, s.next, |src|);
    }
  }

  /** From `pos` on, the step emits and reports nothing. */
  ghost predicate QuietFrom<N>(src: string, pos: nat, step: (nat, nat) --> Step<N>)
    requires Advances(src, step)
  {
    forall p: nat, l: nat {:trigger step(p, l)} :: pos <= p < |src| ==> step(p, l).token.None? && step(p, l).error.None?
  }

  /** A loop whose every remaining step emits and reports nothing yields the end-of-input token alone. */
  lemma {:induction false} QuietLoop<N>(src: string, pos: nat, line: nat, step: (nat, nat) --> Step<N>)
    requires pos <= |src| && Advances(src, step) && QuietFrom(src, pos, step)
    ensures ScanFrom(src, pos, line, step) == Scanned([EofToken(line + Breaks(src, pos, |src|))], [])
    decreases |src| - pos
  {
    if pos < |src| {
      var s := step(pos, line);
      QuietLoop(src, s.next, s.line, step);
      BreaksSplit(src, pos, s.next, |src|);
    }
  }

  // ---------------------------------------------------------------------
  // Whole-source facts.
  // ---------------------------------------------------------------------

  /** Lines of tokens never decrease, run from 1 to the last line, and every report lies in that range too. */
  lemma ScanTokensLines<N>(src: string, decode: string -> N)
    ensures var r := ScanTokens(src, decode);
      && LinesNondecreasing(r.tokens)
      && LinesWithin(r.tokens, FirstLine, LastLine(src))
      && (forall d :: d in r.errors ==> FirstLine <= d.line <= LastLine(src))
  {
    StepperAdvances(src, decode);
    ScanTokenLinesOrdered(src, SourceStart, FirstLine, Stepper(src, decode));
    ScanTokenLinesBounded(src, SourceStart, FirstLine, Stepper(src, decode));
    ScanErrorLinesBounded(src, SourceStart, FirstLine, Stepper(src, decode));
  }

  predicate IsBlank(c: char) {
    c in {' ', '\r', '\t', '\n'}
  }

  /** A source of blanks and line breaks scans to the end-of-input token alone, on the line after the last break, with nothing reported. */
  lemma BlankSourceScansToEof<N>(src: string, decode: string -> N)
    requires forall k :: 0 <= k < |src| ==> IsBlank(src[k])
    ensures ScanTokens(src, decode) == Scanned([EofToken(LastLine(src))], [])
  {
    BlankSourceIsQuiet(src, decode);
    QuietSource(src, Stepper(src, decode));
  }

  /** A loop whose every step emits and reports nothing yields, from the start of the source, the end-of-input token alone. */
  lemma QuietSource<N>(src: string, step: (nat, nat) --> Step<N>)
    requires Advances(src, step) && QuietFrom(src, 0, step)
    ensures ScanFrom(src, SourceStart, FirstLine, step) == Scanned([EofToken(LastLine(src))], [])
  {
    QuietLoop(src, SourceStart, FirstLine, step);
  }

  lemma BlankSourceIsQuiet<N>(src: string, decode: string -> N)
    requires forall k :: 0 <= k < |src| ==> IsBlank(src[k])
    ensures Advances(src, Stepper(src, decode)) && QuietFrom(src, 0, Stepper(src, decode))
  {
    StepperAdvances(src, decode);
    forall p: nat, l: nat | 0 <= p < |src|
      ensures ScanToken(src, p, l, decode).token.None? && ScanToken(src, p, l, decode).error.None?
    {
      SilentSteps(src, p, l, decode);
      ReportedSteps(src, p, l, decode);
    }
  }
}

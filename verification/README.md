# Typescript-lox expression evaluator, modelled in Dafny

This project models the core of a Lox expression evaluator written in TypeScript. One
source text goes through three stages:

- the **scanner** turns it into tokens ending in a single end-of-input token, plus lexical
  diagnostics;
- the **recursive-descent parser** builds one expression tree: equality, comparison, term,
  factor, unary, primary;
- the **tree-walking interpreter** evaluates that tree to a value or a runtime error.

The diagnostic **AST printer** renders a tree in parenthesised prefix form.

The model is a set of pure functions. Mutable cursors become explicit positions. Thrown
errors become the `Err` side of a `Result`. The visitor double dispatch becomes a `match`.
The language's numbers stay abstract: every module is generic in a number type `N`. The
number operations (decoding a numeral, negation, arithmetic, comparison, `===`, rendering)
come in as a `NumOps<N>` record of functions. `IntNumbers.IntArith` is one instance, on whole
numbers, and the worked examples use it.

Modules, one per source file:

| module | file | models |
|---|---|---|
| `Tokens` | token.dfy | `Token`, the token kinds, `toString` |
| `Ast` | ast.dfy | the expression tree and literal values |
| `Scanner` | scanner.dfy | `Scanner` |
| `Grammar` | grammar.dfy | the parser's grammar, stated independently of parsing |
| `Parser` | parser.dfy | `Parser` |
| `Interpreter` | interpreter.dfy | `Interpreter` (expressions), with a static type discipline as its partner |
| `AstPrinter` | ast_printer.dfy | `AstPrinter` |
| `Lox` | lox.dfy | `run` in main.ts |
| `Numbers`, `IntNumbers` | numbers.dfy | the number parameter and its whole-number instance |
| `WorkedExamples` | worked_examples.dfy | concrete token lists through parser, evaluator and printer |

These are the main results:

- **Scanner.** Each token is well formed for its kind. Lexemes obey longest match. Line
  numbers never decrease and lie between 1 and the last line. Only two things are reported:
  an unexpected character and an unterminated string.
- **Parser.** `Parser.ParseCharacterization` is an exact characterisation of `parse`: it
  succeeds with `e` if and only if the tokens begin with `e` written out as a tree of the
  grammar, and the next token is not a binary operator.
- **Interpreter.** Evaluation is sound with respect to a static type discipline. For
  ternary-free trees (the only trees the parser builds) it is also complete: a tree evaluates
  without error exactly when it is well typed.
- **Printer.** When no operator lexeme or literal rendering contains a parenthesis, the
  printed parentheses balance.
- **Pipeline.** `Lox.RunTyped` ties the three stages together.

## Model

| member | source | states |
|---|---|---|
| Tokens.KindName | src/token.ts:16-18 | a kind's printed name is non-empty and contains no space |
| Tokens.TokenStringSplits | src/token.ts:16-18 | the `toString` text splits at its first space into the kind's name and the lexeme-plus-payload text; two tokens with the same text have kinds of the same name |
| Ast.LiteralValue | src/parser.ts:88-91 | the literal built from a STRING or NUMBER token holds that token's payload: the number it decoded to, or the string it carries |
| Scanner.KeywordKinds | src/scanner.ts:16-31 | the keyword table maps words only to keyword kinds |
| Scanner.CharClasses | src/scanner.ts:78-85 | no digit is a letter, `isAlphaNumeric` is exactly a letter, underscore or digit, a digit starts a number and a letter or underscore starts a word |
| Scanner.DigitsEnd | src/scanner.ts:128 | the digit loop stops at the end of the maximal digit run |
| Scanner.WordEnd | src/scanner.ts:141 | the identifier loop stops at the end of the maximal run of letters, digits and underscores |
| Scanner.SkipUntil | src/scanner.ts:69-71 | the comment loop, and likewise the string loop at lines 113-116, stops at the first occurrence of its stop character, a line break or a quote, or at the end of the source |
| Scanner.SingleCharKind | src/scanner.ts:47-56 | the ten one-character tokens are punctuation or arithmetic kinds other than `/` |
| Scanner.SingleCharSpelling | src/scanner.ts:47-56 | each one-character kind is spelled by exactly the character that makes it |
| Scanner.ScanSingle | src/scanner.ts:47-56 | a one-character token consumes its character and is spelled by it |
| Scanner.OperatorKinds | src/scanner.ts:63-66 | each of `= ! < >` starts one one-character kind and its `=`-suffixed two-character kind |
| Scanner.OperatorSpelling | src/scanner.ts:63-66 | an operator character alone spells the first kind, and followed by `=` the second |
| Scanner.ScanOperator | src/scanner.ts:63-66 | `= ! < >` make the two-character token exactly when `=` follows, which is consumed; otherwise the one-character token |
| Scanner.ScanSlash | src/scanner.ts:67-75 | `//` starts a comment that emits nothing and stops before the line break; a lone `/` is the SLASH token |
| Scanner.ScanString | src/scanner.ts:112-125 | a string token carries the text between its quotes and counts the line breaks inside; it is reported, with the cursor at the end of the source, exactly when no closing quote exists |
| Scanner.ScanNumber | src/scanner.ts:127-138 | a number lexeme is a numeral (digits, optionally a dot and digits) carrying its decoded value, and is maximal: no digit follows, and a dot is left alone only when no digit follows it |
| Scanner.WholeNumeral | src/scanner.ts:127-128 | a non-empty run of digits is a numeral without a dot |
| Scanner.FractionNumeral | src/scanner.ts:127-133 | digits, a dot and a non-empty run of digits make a numeral with a dot |
| Scanner.ScanIdentifier | src/scanner.ts:140-148 | a word lexeme is maximal and gets its keyword kind when it is in the table, IDENTIFIER otherwise |
| Scanner.ScanToken | src/scanner.ts:44-89 | one scanning step consumes at least one character and counts exactly the line breaks it consumes; an emitted token's lexeme is the consumed text |
| Scanner.ScanTokenWellFormed | src/scanner.ts:44-89 | every token one step emits is well formed for its kind, and never end-of-input |
| Scanner.SilentSteps | src/scanner.ts:57-75 | blanks, line breaks, comments and unexpected characters emit no token; every other character starts one |
| Scanner.ReportedSteps | src/scanner.ts:76-125 | only an unexpected character, which is consumed alone and named in the message, and an unterminated string, which runs to the end of the source, are reported |
| Scanner.OperatorLongestMatch | src/scanner.ts:62-75 | an emitted `=`, `!`, `<`, `>` or `/` is never followed by the character that would have extended it |
| Scanner.NumberLongestMatch | src/scanner.ts:127-133 | a number token is never followed by a digit, nor by a dot and a digit when it has no fraction |
| Scanner.WordLongestMatch | src/scanner.ts:140-141 | an identifier or keyword token is never followed by a letter, digit or underscore |
| Scanner.StepperAdvances | src/scanner.ts:34-38 | `scanToken` is a step the `scanTokens` loop can rely on: it always advances and stamps lines within the breaks it consumes |
| Scanner.ScanFrom | src/scanner.ts:34-42 | the loop's token list always ends with the end-of-input token |
| Scanner.ScanTokens | src/scanner.ts:34-42 | the token list ends with exactly the end-of-input token, on the line after the last line break of the source |
| Scanner.ScanTokensWellFormed | src/scanner.ts:34-42 | every token before the end-of-input token is well formed for its kind, so the list is valid parser input |
| Scanner.ScanFromEndLine | src/scanner.ts:40 | the end-of-input token carries the starting line plus the number of line breaks left in the source |
| Scanner.ScanFromWellFormed | src/scanner.ts:35-38 | for any step that emits well-formed tokens, everything the loop emits before end-of-input is well formed |
| Scanner.ScanTokenLinesBounded | src/scanner.ts:57 | every token's line lies between the starting line and the line at the end of the source |
| Scanner.ScanTokenLinesOrdered | src/scanner.ts:171 | token lines never decrease along the list |
| Scanner.ScanErrorLinesBounded | src/scanner.ts:84 | every report's line lies between the starting line and the line at the end of the source |
| Scanner.ScanTokensLines | src/scanner.ts:34-42 | over the whole source, token lines never decrease and run from 1 to the last line, and reports lie in that range |
| Scanner.QuietLoop | src/scanner.ts:35-40 | when no remaining step emits or reports anything, the loop yields the end-of-input token alone |
| Scanner.BlankSourceScansToEof | src/scanner.ts:57-60 | a source of blanks and line breaks scans to the end-of-input token alone, on the last line, with nothing reported |
| Grammar.OperatorLevel | src/parser.ts:26-69 | every binary operator belongs to a binary level whose loop matches it |
| Grammar.LevelOpsPartition | src/parser.ts:26-69 | the four binary levels' operator lists are disjoint and together hold exactly the ten binary operators |
| Grammar.GroupHolds | src/parser.ts:92-96 | `(`, an expression written out, and `)` hold a group, which is a primary |
| Grammar.GrammaticalTernaryFree | src/parser.ts:22-99 | no tree of the grammar contains a ternary |
| Parser.Advance | src/parser.ts:126-130 | `advance` moves one token forward except at end of input, so the cursor never passes the last token |
| Parser.CheckSkipsEnd | src/parser.ts:115-121 | `check` fails at end of input for every kind, end-of-input included; before the end it succeeds exactly on the current token's kind |
| Parser.MatchHit | src/parser.ts:103-116 | `match` hits exactly when `check` succeeds on one of the listed kinds |
| Parser.Consume | src/parser.ts:144-147 | `consume` steps past the expected kind, or reports the message at the current token; nothing else |
| Parser.ParsePrimary | src/parser.ts:80-99 | a primary consumes at least one token and stays before the end; its failures carry one of the two parser messages |
| Parser.ParseUnary | src/parser.ts:71-78 | a unary consumes at least one token and stays before the end; failures carry a parser message |
| Parser.ParseAt | src/parser.ts:26-69 | each level consumes at least one token and stays before the end; failures carry a parser message |
| Parser.BinaryLoop | src/parser.ts:29-33 | a binary level's loop never moves the cursor back nor past the end; failures carry a parser message |
| Parser.ParseExpression | src/parser.ts:22-24 | an expression consumes at least one token and stays before the end |
| Parser.Parse | src/parser.ts:14-20 | a successful parse is a tree of the grammar written out from the first token and followed by a token that ends it; a failure is one of the two reported errors |
| Parser.ParseTernaryFree | src/parser.ts:22-24 | no parse builds a ternary node |
| Parser.PrimaryErrors | src/parser.ts:80-99 | outside a group, `primary` fails exactly when the token starts no literal, and reports "Expect expression." there; a group whose inner expression parses fails exactly when no `)` follows, and reports at the token found instead |
| Parser.PrimarySound | src/parser.ts:80-99 | whatever `primary` returns is a primary tree written out from the cursor |
| Parser.LiteralSound | src/parser.ts:81-91 | a primary that is not a group is one literal token with that value |
| Parser.GroupSound | src/parser.ts:92-96 | a parsed group is `(`, an expression written out, and `)` |
| Parser.UnarySound | src/parser.ts:71-78 | whatever `unary` returns is a unary-level tree written out from the cursor |
| Parser.ParseAtSound | src/parser.ts:26-78 | whatever a level returns is a tree of that level written out from the cursor and followed by a token that level stops at |
| Parser.LoopSound | src/parser.ts:26-69 | started on a tree the loop may hold, a binary loop returns a tree of its level written out from the same place |
| Parser.ParseAtComplete | src/parser.ts:26-99 | a tree of a level, written out and followed by a token that level stops at, is parsed back exactly, with the cursor after it |
| Parser.LoopComplete | src/parser.ts:26-69 | from any tree on a left-associative chain, the loop folds in the remaining operators and operands and stops at the chain's end |
| Parser.ParseCharacterization | src/parser.ts:14-99 | `parse` yields `e` if and only if the tokens begin with `e` written out as a tree of the grammar followed by a token that is not a binary operator |
| Interpreter.Falsy | src/interpreter.ts:92-98 | exactly nil and `false` are falsy; 0 and the empty string are truthy |
| Interpreter.IsEqual | src/interpreter.ts:99-105 | equal values have the same type, and nil equals only nil |
| Interpreter.IsEqualIsStrict | src/interpreter.ts:99-105 | `isEqual` coincides with strict equality `===` |
| Interpreter.Stringify | src/interpreter.ts:116-122 | `stringify` turns nil into the text "nil" and hands every other value on unchanged |
| Interpreter.CheckNumberOperand | src/interpreter.ts:106-110 | succeeds exactly on a number, yielding it; otherwise "Operand must be a number." at the operator |
| Interpreter.CheckNumberOperands | src/interpreter.ts:111-115 | succeeds exactly when both operands are numbers, yielding them; otherwise "Operands must be numbers." at the operator |
| Interpreter.EvalUnary | src/interpreter.ts:22-33 | `-` fails exactly on a non-number and otherwise negates; `!` never fails and negates truthiness |
| Interpreter.EvalPlus | src/interpreter.ts:64-71 | `+` succeeds exactly on two numbers, giving their sum, or when either side is a string, in which case it concatenates both texts; otherwise it reports the two-numbers-or-strings message |
| Interpreter.StringsConcatenate | src/interpreter.ts:67-69 | a string on the left of `+` is followed by the right operand's `String` text: a string itself, nil as "null", a boolean as "true" or "false", a number as rendered; likewise with the number on the left |
| Interpreter.EvalBinary | src/interpreter.ts:34-75 | comparison and arithmetic fail exactly when an operand is not a number, and on two numbers each applies its own number operation (`>` compares greater, `-` subtracts, `/` divides, and so on); `==` and `!=` are `isEqual` and its negation; `+` is as above; any other operator kind gives nil |
| Interpreter.Evaluate | src/interpreter.ts:16-91 | a runtime error carries one of the three messages and is reported at an operator token of the tree; node values are stated by LeafValues, NodeValues and UntakenBranch |
| Interpreter.LeafValues | src/interpreter.ts:16-21 | a literal evaluates to the value it holds, a group to its inner expression's value |
| Interpreter.NodeValues | src/interpreter.ts:22-37 | a unary node is its operator applied to its operand's value, and a binary node its operator applied to the left operand's value and then the right's, in that order; an operand's error is the node's |
| Interpreter.GroupingTransparent | src/interpreter.ts:19-21 | removing every group from a tree changes neither its value nor its error |
| Interpreter.LeftErrorWins | src/interpreter.ts:34-36 | an error in a binary node's left operand is the node's error, whatever its right operand is |
| Interpreter.OperandsFirst | src/interpreter.ts:34-37 | an error in the right operand wins over anything the operator would report |
| Interpreter.UntakenBranch | src/interpreter.ts:76-86 | replacing the branch a ternary does not take changes nothing |
| Interpreter.EqualityOperators | src/interpreter.ts:39-42 | `==` and `!=` never fail and always give opposite booleans; equal values have the same type |
| Interpreter.UnaryTyped | src/interpreter.ts:22-33 | a unary operator succeeds exactly when its type rule gives a type, and the value has that type |
| Interpreter.BinaryTyped | src/interpreter.ts:34-75 | a binary operator succeeds exactly when its type rule gives a type, and the value has that type |
| Interpreter.TypeSound | src/interpreter.ts:16-91 | a well-typed tree evaluates without error to a value of its static type |
| Interpreter.TypeComplete | src/interpreter.ts:16-75 | a ternary-free tree evaluates without error exactly when it is well typed |
| AstPrinter.Spaced1 | src/astPrinter.ts:24-32 | `parenthesize` with one child text is `(`, the name, a space, the child, `)` |
| AstPrinter.Spaced2 | src/astPrinter.ts:24-32 | with two child texts, each follows one space |
| AstPrinter.Spaced3 | src/astPrinter.ts:24-32 | with three child texts, each follows one space |
| AstPrinter.ParenthesizeShape | src/astPrinter.ts:24-32 | `parenthesize` opens with `(` and the name and closes with `)` |
| AstPrinter.PrintForms | src/astPrinter.ts:9-23 | each node kind prints as its name or operator lexeme followed by its children, each after one space, inside parentheses; a literal prints as its rendering |
| AstPrinter.PrintShape | src/astPrinter.ts:9-32 | every node other than a literal prints inside a pair of parentheses headed by its lexeme or name |
| AstPrinter.PrintBalanced | src/astPrinter.ts:24-32 | when no lexeme or literal rendering holds a parenthesis, the printed parentheses balance |
| AstPrinter.PrintOpenings | src/astPrinter.ts:24-32 | under the same condition, the printed text has exactly one `(` per non-literal node |
| Lox.RunTokens | src/main.ts:49-53 | the tokens `run` hands the parser are valid parser input |
| Lox.Run | src/main.ts:48-61 | evaluation is reached only when scanning reported nothing and parsing succeeded; a halted run holds exactly the scanner's reports, and the parser's error exactly when parsing failed |
| Lox.RunEvaluates | src/main.ts:48-61 | with no scan reports, a source whose tokens begin with a tree of the grammar evaluates exactly that tree |
| Lox.RunTyped | src/main.ts:48-61 | whatever is evaluated is a ternary-free tree the tokens begin with, and evaluation fails exactly when it is ill typed |
| WorkedExamples.SumParses | src/ast.test.ts:8-10 | the tokens of `2 + 5*8` parse with the product as the sum's right operand |
| WorkedExamples.SumEvaluates | src/ast.test.ts:8-10 | that tree evaluates to 42 |
| WorkedExamples.DifferenceParses | src/parser.ts:50-59 | `8 - 5 - 1` parses left-associatively, as `(8 - 5) - 1` |
| WorkedExamples.DifferenceEvaluates | src/interpreter.ts:22-57 | operand order is kept: `8 - 5` is 3, `8 - 5 - 1` is 2, and `-2` negates its operand |
| WorkedExamples.SecondUnaryFails | src/parser.ts:71-78 | two unary operators in a row fail at the second with "Expect expression.", since a unary operator takes a primary |
| WorkedExamples.DoubleUnaryFails | src/parser.ts:71-78 | `--1` and `!!true` are both rejected at their second operator |
| WorkedExamples.TrailingIgnored | src/parser.ts:14-24 | `1 2` parses as `1`: tokens after a complete expression are never read |
| WorkedExamples.NegationPrintsAsWritten | src/astPrinter.ts:15-19 | with literals rendered as `visitLiteral` does (`undefined`), `-1` prints as `(- undefined)` |
| WorkedExamples.SumPrints | src/astPrinter.ts:9-12 | with numbers rendered in decimal (the evidently intended rendering, not the source's), the tree of `2 + 5*8` prints as `(+ 2 (* 5 8))` |

## Left out

- I/O in src/main.ts is not modelled: reading files, the REPL loop, command-line arguments, console output and the `report` text format. `Lox.Run` returns the diagnostics instead of printing them and raising the `HAD_ERROR` flag.
- `run` hands the parsed expression to `interpret(stmts)`, which iterates over it as a statement list. `Lox.Run` models the evident intent, evaluating the tree, rather than that call.
- Statements are not modelled: src/stmt.ts, `visitPrint`, `visitExpression`, `interpret` and `execute`. The entry point never builds a statement.
- The parser's `synchronize` is not modelled. Nothing calls it.
- Floating point is not modelled: `parseFloat`, JavaScript arithmetic and comparison, and number-to-string conversion are the `NumOps` parameter. No claim is made about NaN, infinities or division by zero.
- tokenType.ts and runTimeError.ts are not part of this model. Token kinds are taken to print as their enumeration member names. A runtime error is its token and message.
- Scanner.ReportedSteps: the scanner calls the shared `error(token, message)` with a line number and an empty string. As written, that would print neither the line nor the message. The model records the line and the message the scanner passes, and the unterminated-string report carries the empty message it passes.
- Scanner.ScanString: an unterminated string moves the source's cursor one past the end. The model stops it at the end. The lexeme and payload are the same, because `substring` clamps.
- The keyword table is refilled by every `Scanner` constructor. The model keeps one constant table, with the same contents.
- Parser.Parse: the parser requires its input to end with the end-of-input token and its STRING and NUMBER tokens to carry payloads. Scanner output always does (`Scanner.ScanTokensWellFormed`). Other token lists are out of scope.
- Parser.ParsePrimary: the missing-`)` message keeps the source's spelling, "Expect ')' after expresion".
- The parser has no rule for the ternary, and `unary` takes a primary, so `--1` is rejected. Both are modelled as the code has them. The Ternary node is still evaluated and printed.
- Interpreter.TypeComplete: holds only for ternary-free trees. The untaken branch of a ternary may be ill typed without causing an error. `Interpreter.TypeSound` covers every tree.
- AstPrinter.PrintForms: how a literal renders is a parameter. The source's `visitLiteral` reads `e.value.value`, a field no number, boolean or string has, so as written each of those prints as `undefined` (`AstPrinter.AsWrittenRender`, `WorkedExamples.NegationPrintsAsWritten`).
- AstPrinter.AsWrittenRender: a nil literal makes `visitLiteral` read a field of `null`, which throws a TypeError; `Print` is total and does not model that thrown error.
- WorkedExamples.SumPrints: states the output with numbers rendered in decimal, which is what the printer evidently intends; as written the source prints `(+ undefined (* undefined undefined))`.
- Source text is a sequence of Unicode scalar values in the model, while the source indexes UTF-16 code units. A character outside the Basic Multilingual Plane, outside a string, is reported once by the model and once per code unit (twice) by the source; lone surrogates cannot be represented.
- The test in src/ast.test.ts that evaluates `true ? 1 : 0` is not modelled, because the parser builds no ternary. `run` returns nothing, so the tests compare against the evidently intended values, which `WorkedExamples` states.
- Scanning of concrete source strings is not among the worked examples. They start from token lists.

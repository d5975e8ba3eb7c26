/**
 * One source text through the whole pipeline, as `run` in src/main.ts
 * arranges it: scan, parse, and evaluate only when nothing was reported.
 * The source's globals `HAD_ERROR`/`HAD_RUNTIME_ERROR` become the returned
 * diagnostics; what the source does with the tree afterwards is described in
 * the README.
 */
module Lox {
  import opened Wrappers
  import opened Tokens
  import opened Ast
  import opened Numbers
  import Scanner
  import Grammar
  import Parser
  import Interpreter

  /** Either the reports that stopped the run before evaluation, or what evaluation gave. */
  datatype Outcome<N> =
    | Halted(diagnostics: seq<Scanner.Diagnostic>, parseError: Option<Parser.ParseError<N>>)
    | Evaluated(result: Result<Value<N>, Interpreter.RuntimeError<N>>)

  /** The tokens `run` hands the parser. */
  function RunTokens<N>(ops: NumOps<N>, src: string): (tokens: seq<Token<N>>)
    ensures ValidTokens(tokens)
  {
    Scanner.ScanTokensWellFormed(src, ops.parse);
    Scanner.ScanTokens(src, ops.parse).tokens
  }

  /**
   * `run`: the parser always runs on the scanner's tokens, and any report from
   * either stops the run before evaluation.
   */
  function Run<N>(ops: NumOps<N>, src: string): (r: Outcome<N>)
    ensures r.Halted? ==> |r.diagnostics| > 0 || r.parseError.Some?
    ensures r.Halted? ==> r.diagnostics == Scanner.ScanTokens(src, ops.parse).errors
    ensures r.Evaluated? ==> |Scanner.ScanTokens(src, ops.parse).errors| == 0
    ensures r.Evaluated? ==> Parser.Parse(RunTokens(ops, src)).Ok?
    ensures r.Halted? ==> (r.parseError.Some? <==> Parser.Parse(RunTokens(ops, src)).Err?)
    ensures r.Halted? && r.parseError.Some? ==> Parser.Parse(RunTokens(ops, src)) == Err(r.parseError.value)
  {
    var errors := Scanner.ScanTokens(src, ops.parse).errors;
    var parsed := Parser.Parse(RunTokens(ops, src));
    if |errors| > 0 || parsed.Err? then
      Halted(errors, if parsed.Err? then Some(parsed.error) else None)
    else
      Evaluated(Interpreter.Evaluate(ops, parsed.value))
  }

  /** The tokens of `src` begin with `e` written out as an expression. */
  ghost predicate Begins<N>(ops: NumOps<N>, src: string, e: Expr<N>) {
    Grammar.WrittenAt(RunTokens(ops, src), Parser.InitialCursor, Grammar.EqualityLevel, e)
  }

  /**
   * A run reaches evaluation exactly when scanning reported nothing and the
   * tokens begin with a tree of the grammar, and it then evaluates that tree.
   */
  lemma RunEvaluates<N>(ops: NumOps<N>, src: string, e: Expr<N>)
    ensures |Scanner.ScanTokens(src, ops.parse).errors| == 0 && Begins(ops, src, e) ==>
      Run(ops, src) == Evaluated(Interpreter.Evaluate(ops, e))
    ensures Run(ops, src).Evaluated? && Begins(ops, src, e) ==> Run(ops, src).result == Interpreter.Evaluate(ops, e)
  {
    Parser.ParseCharacterization(RunTokens(ops, src), e);
  }

  /**
   * Whatever reaches evaluation is a tree the tokens begin with and has no
   * ternary, and its evaluation fails exactly when it is ill typed.
   */
  lemma RunTyped<N>(ops: NumOps<N>, src: string)
    ensures Run(ops, src).Evaluated? ==> exists e ::
      && Begins(ops, src, e)
      && TernaryFree(e)
      && Run(ops, src).result == Interpreter.Evaluate(ops, e)
      && (Run(ops, src).result.Ok? <==> Interpreter.TypeOf(e).Some?)
  {
    var tokens := RunTokens(ops, src);
    if Run(ops, src).Evaluated? {
      var e := Parser.Parse(tokens).value;
      Parser.ParseTernaryFree(tokens);
      Interpreter.TypeComplete(ops, e);
      assert Begins(ops, src, e);
    }
  }
}

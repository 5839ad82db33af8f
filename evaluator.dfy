/** Evaluator.Evaluate: tokenize, split the token list at its primary operator, reduce the
    resulting expression and evaluate it. */
module Evaluator {
  import opened Outcomes
  import opened Tokens
  import opened Tokenizer
  import opened Expressions
  import opened ScanInvariants

  /** Everything Evaluate does after tokenizing. A list without an operator token fails;
      on a list without sub-trees (all the tokenizer produces) the only failures are a
      missing operator, an operator token left as an operand, and division by zero. */
  function EvaluateTokens(tokens: seq<Token>): (r: Result<real>)
    ensures (forall i :: 0 <= i < |tokens| ==> !tokens[i].OpToken?) ==> r == Err(NoOperator)
    ensures (forall i :: 0 <= i < |tokens| ==> WithoutSubtrees(tokens[i])) && r.Err? ==>
      r.error in {NoOperator, UnreducedToken, DivisionByZero}
  {
    var root :- Split(tokens);
    SplitKeepsFlatness(tokens, root);
    var reduced :- Reduce(root);
    Expressions.Evaluate(reduced)
  }

  /** The whole pipeline on a string. Its failures are the tokenizer's, a missing operator,
      an operator token left as an operand, or division by zero: the unknown-token error of
      EvaluateCore is unreachable from it. */
  function EvaluateString(expression: string): (r: Result<real>)
    ensures r.Err? ==> IsTokenizeError(r.error) || r.error in {NoOperator, UnreducedToken, DivisionByZero}
    ensures TokenizeSpec(expression).Err? ==> r == Err(TokenizeSpec(expression).error)
  {
    TokenizeErrors(expression);
    var tokens :- TokenizeSpec(expression);
    TokenizedTokensAreSound(expression);
    EvaluateTokens(tokens)
  }

  /** Evaluator.Evaluate. */
  method Evaluate(expression: string) returns (r: Result<real>)
    ensures r == EvaluateString(expression)
  {
    var tokens := Tokenize(expression);
    if tokens.Err? {
      return Err(tokens.error);
    }
    r := EvaluateTokens(tokens.value);
  }
}

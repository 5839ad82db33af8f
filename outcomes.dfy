/** Failure-carrying results. Every exception the C# evaluator can throw on its way from a
    string to a number becomes one constructor of Error. */
module Outcomes {

  datatype Option<+T> = None | Some(value: T)

  datatype Error =
    | InvalidNumber(literal: string)  // Double.Parse rejects a literal (ValueToken.CreateFromString)
    | InvalidToken(raw: string)       // Operator.Get finds no operator with that symbol
    | StackEmpty                      // Stack.Pop on an empty stack: a '(' with no ')' to its right
    | NoOperator                      // First() on a token sequence that holds no operator token
    | UnreducedToken                  // EvaluateCore meets an operator token in operand position
    | UnknownTokenType                // EvaluateCore meets a token it has no case for
    | DivisionByZero                  // stands in for the IEEE-754 infinity or NaN of x / 0

  datatype Result<+T> = Ok(value: T) | Err(error: Error) {

    predicate IsFailure() {
      Err?
    }

    function PropagateFailure<U>(): Result<U>
      requires Err?
    {
      Err(error)
    }

    function Extract(): T
      requires Ok?
    {
      value
    }
  }
}

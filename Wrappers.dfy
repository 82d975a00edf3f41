/** Failure-compatible wrappers shared by the formula engine, and the failures it raises. */
module Wrappers {

  datatype Option<+T> = None | Some(value: T)

  /** What the engine found where it expected something else. */
  datatype Found =
    | EndOfInput
    | FoundNumber(number: real)
    | FoundSymbol(symbol: string)

  /** Every failure the engine throws. The source throws an `Error` with a message; the
      model keeps one constructor per distinct message. */
  datatype Error =
    // tokenizer: the content is neither a formula nor a number
    | NotFormulaNorNumber
    // parser: `expect`, `expectNumber`, `expectReserved` met the wrong token
    | Unexpected(expected: string, found: Found)
    // parser: the chain of cell references is deeper than the model's bound (the
    // source instead exhausts the JavaScript call stack)
    | DepthExceeded
    // evaluator
    | DivisionByZero
    | LiteralWithoutValue
    | FuncWithoutName
    | RoundNeedsTwoArguments
    // evaluator: `reduce` without an initial value on an empty array (a TypeError)
    | EmptyReduce

  datatype Result<+T> = Ok(value: T) | Err(error: Error) {
    predicate IsFailure() { Err? }

    function PropagateFailure<U>(): Result<U>
      requires Err?
    {
      Err(error)
    }

    function Extract(): T
      requires Ok?
    {
      value
    }
  }

  /** A result that carries no value: the outcome of `expect` and `init`. */
  datatype Outcome = Pass | Fail(error: Error) {
    predicate IsFailure() { Fail? }

    function PropagateFailure<U>(): Result<U>
      requires Fail?
    {
      Err(error)
    }
  }
}

/** Option and Result, the two wrappers the model uses for Python's `None` and for raised exceptions. */
module Wrappers {

  datatype Option<+T> = None | Some(value: T)

  /** `Err` stands for an exception the source raises; `Ok` for a normal return. */
  datatype Result<+T, +E> = Ok(value: T) | Err(error: E) {
    predicate IsFailure() { Err? }

    function PropagateFailure<U>(): Result<U, E>
      requires Err?
    {
      Err(error)
    }

    function Extract(): T
      requires Ok?
    {
      value
    }
  }
}

/** The exceptions the scorecard code can raise, one constructor per cause. */
module Errors {

  datatype Error =
    | NoCompetition                    // `competitions[0]` on an empty list (IndexError)
    | NoBattingLinescore(period: int)  // subscripting the `None` the linescore search returned (TypeError)
    | PeriodOutOfRange(period: int)    // `innings[period - 1]` outside the list (IndexError)
    | NotAnInteger                     // `int(x)` on a batted/bowled flag that is not a number (ValueError)
    | NonStringStatName                // "args to this function must be strings" (TypeError)
    | InvalidField(field: string)      // pydantic's ValidationError, naming the first bad field
}

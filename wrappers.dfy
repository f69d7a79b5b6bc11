/** Failure-compatible result types shared by the reader (lexer, parser, value model). */
module Wrappers {

  datatype Option<+T> = None | Some(value: T)

  /** `Ok` carries a value; `Err` carries the reason an operation threw. */
  datatype Result<+T, +E> = Ok(value: T) | Err(error: E) {
    predicate IsFailure() {
      Err?
    }

    function PropagateFailure<U>(): Result<U, E>
      requires Err?
    {
      Err(error)
    }

    function Extract(): T
      requires Ok?
    {
      value
    }
  }

  /** `Pass` for an operation that returns nothing, `Fail` when it threw. */
  datatype Outcome<+E> = Pass | Fail(error: E)
}

/** Failure-compatible result types shared by the whole model. */
module Outcomes {

  datatype Option<+T> = None | Some(value: T)

  /** The source's (value, error) returns: either a value or the error that was returned. */
  datatype Outcome<+T, +E> = Ok(value: T) | Fail(error: E) {
    predicate IsFailure() { Fail? }
    function PropagateFailure<U>(): Outcome<U, E>
      requires Fail?
    {
      Fail(error)
    }
    function Extract(): T
      requires Ok?
    {
      value
    }
  }
}

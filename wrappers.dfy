/** Failure-compatible result types shared by every module of the model. */
module Wrappers {

  /** A value that may be absent: `null` in C#, `undefined`/`NaN` in JavaScript. */
  datatype Option<+T> = None | Some(value: T)

  /** A value or the exception the source would throw instead of returning it. */
  datatype Result<+T, +E> = Success(value: T) | Failure(error: E) {
    predicate IsFailure() {
      Failure?
    }

    function PropagateFailure<U>(): Result<U, E>
      requires Failure?
    {
      Failure(error)
    }

    function Extract(): T
      requires Success?
    {
      value
    }
  }

  /** Completion of an operation that returns nothing (`Task` in C#) or throws. */
  datatype Outcome<+E> = Pass | Fail(error: E)
}

/** Option and Result, the stand-ins for JavaScript's `null` and for thrown errors. */
module Wrappers {

  /** `None` is a missing reference (`null` or `undefined`). */
  datatype Option<+T> = None | Some(value: T)

  /** `Failure(e)` is an `Error` thrown with message `e`. */
  datatype Result<+T, +E> = Success(value: T) | Failure(error: E) {

    predicate IsFailure() {
      Failure?
    }

    function PropagateFailure<U>(): Result<U, E>
      requires Failure?
    {
      Failure(error)
    }

    function Extract(): T
      requires Success?
    {
      value
    }
  }
}

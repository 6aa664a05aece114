/** Failure-compatible result types shared by the models. */
module Wrappers {
  datatype Option<+T> = None | Some(value: T)

  /** The error codes a StoreError carries (400, 403, 404, 409, 501 and 503). */
  datatype StoreError = Invalid | Forbidden | NotFound | Conflict | Unsupported | Unavailable

  datatype Result<+T, +E> = Success(value: T) | Failure(error: E) {
    predicate IsFailure() {
      Failure?
    }

    function PropagateFailure<U>(): Result<U, E>
      requires Failure?
    {
      Failure(error)
    }

    function Extract(): T
      requires Success?
    {
      value
    }
  }
}

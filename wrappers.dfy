/** Failure-carrying results used by the driver model. */
module Wrappers {

  /** An argument that the caller may leave out (JavaScript `undefined`). */
  datatype Option<+T> = None | Some(value: T)

  datatype Result<+R, +E> = Success(value: R) | Failure(error: E)

  /** The outcome of an operation that either completes or throws. */
  datatype Outcome<+E> = Pass | Fail(error: E)
}

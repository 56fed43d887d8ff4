/** Option and Result, the failure-carrying datatypes used throughout the model. */
module Wrappers {

  /** A value that may be absent (`null` / `undefined` in the source). */
  datatype Option<+T> = None | Some(value: T)

  /** The outcome of a step that may throw: either a value or the error it raised. */
  datatype Result<+R, +E> = Success(value: R) | Failure(error: E)
}

/** Failure-carrying values shared by every module of the model. */
module Wrappers {

  /** A value that may be missing: JavaScript's `undefined` for an optional field. */
  datatype Option<+T> = None | Some(value: T)

  /** The outcome of a call that can throw: the value, or the error message it throws. */
  datatype Result<+T, +E> = Success(value: T) | Failure(error: E)
}

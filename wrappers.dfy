/** Option and Result, the failure-carrying values used throughout the model. */
module Wrappers {

  datatype Option<+T> = None | Some(value: T)

  /** The outcome of a step that either produces a value or raises. */
  datatype Result<+T, +E> = Success(value: T) | Failure(error: E)
}

/** Option and Result, the two failure-carrying shapes used across the model. */
module Wrappers {

  datatype Option<+T> = None | Some(value: T)

  /** A call that either yields a value or raises an error (a thrown exception in the source). */
  datatype Result<+T, +E> = Success(value: T) | Failure(error: E)
}

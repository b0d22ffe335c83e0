/** Option and Result, the two failure-carrying shapes the model uses. */
module Wrappers {

  datatype Option<+T> = None | Some(value: T)

  /** The outcome of an operation that may raise: a value, or the error raised. */
  datatype Result<+T, +E> = Success(value: T) | Failure(error: E)
}

/** Optional values and error returns used throughout the model. */
module Wrappers {

  /** A value that may be absent, like a `nil` data point of a series. */
  datatype Option<+T> = None | Some(value: T)

  /** The outcome of an operation that can fail with an error. */
  datatype Result<+R, +E> = Success(value: R) | Failure(error: E)
}

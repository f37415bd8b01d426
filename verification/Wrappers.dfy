/** The failure-carrying values used throughout the model. */
module Wrappers {

  /** A Go pointer that may be nil, when only the value behind it matters. */
  datatype Option<+T> = None | Some(value: T)

  /** A Go `(value, error)` return. */
  datatype Result<+T, +E> = Success(value: T) | Failure(error: E)
}

/** Failure-carrying datatypes shared by the server and client models. */
module Wrappers {

  /** A value that may be absent: a failed parse, a missing body. */
  datatype Option<+T> = None | Some(value: T)

  /** A Go `(T, error)` pair: either a value or an error, never both. */
  datatype Result<+T, +E> = Success(value: T) | Failure(error: E)

  /** A Go `error` return on its own: `nil` is Pass. */
  datatype Outcome<+E> = Pass | Fail(error: E)
}

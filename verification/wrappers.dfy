/** Option and Result, the error-carrying values the Go code returns as `(T, error)` pairs. */
module Wrappers {

  datatype Option<+T> = None | Some(value: T)

  /** A Go `(value, error)` result: `Failure` carries the error's message. */
  datatype Result<+T> = Success(value: T) | Failure(error: string)
}

/** Stock failure-carrying datatypes, and the model of a Go `error` value. */
module Wrappers {

  datatype Option<+T> = None | Some(value: T)

  datatype Result<+T, +E> = Success(value: T) | Failure(error: E)

  /** A Go `error`, known to the model only by its message. */
  datatype Error = Error(message: string)
}

/** Value-level stand-ins for Go's `error` and for the `(value, error)` result pairs of the source. */
module Wrappers {

  /** Go's `error`: `nil` or an error carrying its `Error()` text. */
  datatype Error = NoError | Error(text: string)

  datatype Option<+T> = None | Some(value: T)

  /** A Go `(T, error)` pair where the value is meaningless once the error is set. */
  datatype Result<+T> = Success(value: T) | Failure(error: string)
}

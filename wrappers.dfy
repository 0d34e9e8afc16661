/** Option and Result: Go's nil-able values and (value, error) pairs. */
module Wrappers {

  datatype Option<+T> = None | Some(value: T)

  /** A Go function returning `(T, error)`: either a value or an error, never both. */
  datatype Result<+T, +E> = Success(value: T) | Failure(error: E)
}

/** Optional values, results and error messages shared by every module. */
module Wrappers {

  /** A Go value that may be nil. */
  datatype Option<+T> = None | Some(value: T)

  /** A Go `(value, error)` pair where exactly one side is meaningful. */
  datatype Result<+T, +E> = Success(value: T) | Failure(error: E)

  /** A Go `error`, represented by its message. */
  type ErrorMsg = string
}

/** Optional values (Go pointers that may be nil) and fallible results (Go's value/error pairs). */
module Wrappers {
  datatype Option<+T> = None | Some(value: T)

  datatype Result<+T, +E> = Success(value: T) | Failure(error: E)
}

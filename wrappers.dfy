/** Optional values and results with an error, shared by the other modules. */
module Wrappers {

  /** A value that may be missing (a nullable column, a lookup that finds nothing). */
  datatype Option<+T> = None | Some(value: T)

  /** The outcome of an operation that either succeeds with a value or fails with an error. */
  datatype Result<+R, +E> = Success(value: R) | Failure(error: E)
}

/** Optional values and results with an error, shared by the other modules. */
module Wrappers {

  /** A value that may be absent (Java's null). */
  datatype Option<+T> = None | Some(value: T)

  /** A value or the reason it could not be produced (a Java exception). */
  datatype Result<+R, +E> = Success(value: R) | Failure(error: E)
}

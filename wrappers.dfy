/** Optional values and error results, standing in for Java's null / Optional and for thrown exceptions. */
module Wrappers {

  /** A value that may be absent: Java's Optional, or a nullable reference. */
  datatype Option<+T> = None | Some(value: T)

  /** The outcome of an operation that can throw: its value, or the exception it raised. */
  datatype Result<+T, +E> = Success(value: T) | Failure(error: E)
}

/** Optional values (Java's nullable references) and results (a value or the exception thrown). */
module Wrappers {

  /** A value that may be absent; None stands for Java's null. */
  datatype Option<+T> = None | Some(value: T)

  /** The outcome of an operation that may throw: Success carries the returned value,
      Failure the error it threw. */
  datatype Result<+R, +E> = Success(value: R) | Failure(error: E)
}

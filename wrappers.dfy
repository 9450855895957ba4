/** Failure-carrying results, standing in for Java's Optional, null returns and exceptions. */
module Wrappers {

  /** An optional value: `Optional.empty()` or a `null` return is `None`. */
  datatype Option<+T> = None | Some(value: T)

  /** A value or the error that a Java method would have thrown instead of returning it. */
  datatype Result<+R, +E> = Success(value: R) | Failure(error: E)

  /** The outcome of a `void` Java method that may throw. */
  datatype Outcome<+E> = Pass | Fail(error: E)
}

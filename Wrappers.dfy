/** Optional values, results and pass/fail outcomes used in place of Java's
    null references and thrown exceptions. */
module Wrappers {

  /** A value that may be absent (Java `null`). */
  datatype Option<+T> = None | Some(value: T)

  /** A value or the error that stopped its computation (a thrown exception). */
  datatype Result<+R, +E> = Success(value: R) | Failure(error: E)

  /** A check that either passes or fails with an error (a `void` method that may throw). */
  datatype Outcome<+E> = Pass | Fail(error: E)
}

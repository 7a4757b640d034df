/** Option and Result values used for Java's nullable references and thrown exceptions. */
module Wrappers {

  /** A nullable reference: `None` is Java's `null`. */
  datatype Option<+T> = None | Some(value: T)

  /** The value a Java method returns, or the exception it throws. */
  datatype Result<+R, +E> = Success(value: R) | Failure(error: E)

  /** Completion of a `void` Java method: normal return, or the exception it throws. */
  datatype Outcome<+E> = Pass | Fail(error: E)
}

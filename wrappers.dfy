/** Failure-carrying wrappers: the Java code signals absence with `null`
    and failure with an exception; the model spells both out as values. */
module Wrappers {

  /** `None` plays the part of Java's `null`. */
  datatype Option<+T> = None | Some(value: T)

  /** A value, or the exception that would have been thrown instead. */
  datatype Result<+T, +E> = Ok(value: T) | Err(error: E)

  /** A step that returns nothing useful, or the exception it throws. */
  datatype Outcome<+E> = Pass | Fail(error: E)
}

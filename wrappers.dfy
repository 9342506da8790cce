/** Option and Result, standing for Java's nullable references and thrown exceptions. */
module Wrappers {

  /** A Java reference that may be null. */
  datatype Option<+T> = None | Some(value: T)

  /** A computation that either succeeds or throws (the error carries the exception message). */
  datatype Result<+T, +E> = Ok(value: T) | Err(error: E)
}

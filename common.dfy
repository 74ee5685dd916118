/**
 * Option and Result: Java's nullable references and thrown exceptions, made explicit.
 */
module Common {

  /** A value that may be absent (a Java reference that may be null). */
  datatype Option<+T> = None | Some(value: T)

  /** The value of an operation, or the exception it raised. */
  datatype Result<+T, +E> = Ok(value: T) | Err(error: E)
}

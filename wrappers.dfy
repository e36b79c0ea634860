/** Optional values and results with an error, as the Java code uses null and exceptions. */
module Wrappers {

  /** A value that may be absent (a Java reference that may be null, an empty Optional). */
  datatype Option<+T> = None | Some(value: T)

  /** A value, or the error that a Java method throws instead of returning one. */
  datatype Result<+T, +E> = Ok(value: T) | Err(error: E)
}

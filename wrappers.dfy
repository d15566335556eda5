/** Option and Result values used where the Java code returns null or throws. */
module Wrappers {

  /** None stands for a Java null (or, where documented, for an exception thrown). */
  datatype Option<+T> = None | Some(value: T)

  /** Err carries which exception the Java code throws. */
  datatype Result<+T, +E> = Ok(value: T) | Err(error: E)
}

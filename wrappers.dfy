/** Option and Result, used for Java's null and for exceptions. */
module Wrappers {

  /** `None` stands for Java's `null`. */
  datatype Option<+T> = None | Some(value: T)

  /** `Err` stands for an exception that leaves the operation. */
  datatype Result<+T, +E> = Ok(value: T) | Err(error: E)
}

/** Plain `Option` and `Result` datatypes shared by the other modules. */
module Wrappers {

  /** A value that may be absent (Python's `None`). */
  datatype Option<+T> = None | Some(value: T)

  /** The outcome of a block that may raise: a value, or the exception raised. */
  datatype Result<+R, +E> = Ok(value: R) | Err(error: E)
}

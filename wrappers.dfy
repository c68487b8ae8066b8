/** Option and Result values used for Python's `None` and for error returns. */
module Wrappers {

  /** A value that may be absent (Python's `None`). */
  datatype Option<+T> = None | Some(value: T)

  /** Either a value or the reason it could not be produced. */
  datatype Result<+R, +E> = Ok(value: R) | Err(error: E)
}

/** Failure-carrying values used where the modelled code either returns `None` or raises. */
module Wrappers {

  /** A value that may be absent (Python's `None`). */
  datatype Option<+T> = None | Some(value: T)

  /** A computed value, or the error the computation raised. */
  datatype Result<+T, +E> = Ok(value: T) | Err(error: E)
}

/** Option and Result, the two ways the modelled Python code reports absence and failure. */
module Wrappers {
  /** A value that may be missing: Python's `None` versus a value. */
  datatype Option<T> = None | Some(value: T)

  /** A computation that either returns a value or raises an exception with a message. */
  datatype Result<T> = Ok(value: T) | Err(error: string)
}

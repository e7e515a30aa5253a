/** Failure-compatible wrappers shared by the model. */
module Wrappers {

  /** A value that may be absent (Python's `None`). */
  datatype Option<+T> = None | Some(value: T)

  /** The outcome of an HTTP call: a value, or the status code that `raise_for_status` raised for. */
  datatype Result<+T> = Ok(value: T) | Err(status: int)
}

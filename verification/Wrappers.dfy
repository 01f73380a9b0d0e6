/** Absent values, used wherever the Python code returns None or a missing-key marker. */
module Wrappers {

  datatype Option<+T> = None | Some(value: T)

  /** A result or the reason there is none. */
  datatype Result<+T, +E> = Ok(value: T) | Err(error: E)
}

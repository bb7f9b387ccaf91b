module Wrappers {

  datatype Option<+T> = None | Some(value: T)

  /** A computed value, or the exception that the source raises instead. */
  datatype Result<+T, +E> = Ok(value: T) | Err(error: E)
}

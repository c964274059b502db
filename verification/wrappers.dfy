/** Option and Result, used wherever the source returns `None` or raises. */
module Wrappers {

  datatype Option<T> = None | Some(value: T)

  /** A value, or the message of the exception the source raises instead. */
  datatype Result<T, E> = Ok(value: T) | Err(error: E)
}

/** Option and Result, the two failure-carrying types the model uses. */
module Wrappers {

  /** `None` stands for Python's `None`, or for "nothing was found". */
  datatype Option<+T> = None | Some(value: T)

  /** `Err` stands for an exception the source raises. */
  datatype Result<+T, +E> = Ok(value: T) | Err(error: E)
}

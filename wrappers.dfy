/** Failure-carrying wrappers used by the model of the command-line front end. */
module Wrappers {
  /** A value that may be absent, e.g. the groups of a regular expression that did not match. */
  datatype Option<T> = None | Some(value: T)

  /** Either a computed value or the error that stopped the computation. */
  datatype Result<T, E> = Ok(value: T) | Err(error: E)
}

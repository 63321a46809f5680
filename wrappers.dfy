/** Optional values and results with an error, as used by every module of the model. */
module Wrappers {

  /** A value that may be absent: JavaScript's `undefined`, a failed lookup, a date that does not parse. */
  datatype Option<T> = None | Some(value: T)

  /** The outcome of an operation that either produces a value or reports why it could not. */
  datatype Result<T, E> = Ok(value: T) | Err(error: E)
}

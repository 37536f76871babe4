/** Optional values and success-or-error results, used for the optional
    fields of a room and for the outcome of each endpoint. */
module Wrappers {

  /** A value that may be unset (Python's `Optional[...] = None`). */
  datatype Option<+T> = None | Some(value: T)

  /** The outcome of an endpoint: a value, or the error it raises. */
  datatype Result<+T, +E> = Ok(value: T) | Err(error: E)
}

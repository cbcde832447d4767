/** Option and Result values standing in for Python's None and for the
    exceptions (KeyError, ValueError, FileNotFoundError) the repository code
    lets propagate to its caller. */
module Wrappers {

  datatype Option<+T> = None | Some(value: T)

  datatype Result<+R, +E> = Success(value: R) | Failure(error: E)

  /** The outcome of a Python call that returns None or raises. */
  datatype Outcome<+E> = Pass | Fail(error: E)

  /** Python's KeyError raised by `d[key]` on a dict without `key`. */
  datatype KeyError<+K> = KeyError(key: K)
}

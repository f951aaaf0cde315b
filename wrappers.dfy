/** Option and Result values, used for Python's `None` and for raised exceptions. */
module Wrappers {

  datatype Option<T> = None | Some(value: T) {
    /** The wrapped value, or `default` for None (Python's `x or default` on optional values). */
    function GetOr(default: T): T {
      match this
      case Some(v) => v
      case None => default
    }
  }

  /** A computation that either returns a value or raises an error. */
  datatype Result<T, E> = Ok(value: T) | Err(error: E)
}

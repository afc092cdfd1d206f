/** Optional values and success-or-failure results, used where the Python code
    returns None or raises an exception. */
module Results {

  /** A value that may be absent (Python's `Optional[...]`). */
  datatype Option<+T> = None | Some(value: T) {

    /** The value, or `default` when absent (Python's `x if x is not None else default`). */
    function GetOr(default: T): T {
      match this
      case Some(v) => v
      case None => default
    }
  }

  /** Either a value or the reason an operation was refused. */
  datatype Result<+T, +E> = Ok(value: T) | Err(error: E)
}

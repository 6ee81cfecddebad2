/** Optional values and error-carrying results, used wherever the modelled
    program returns "nothing" or raises an exception. */
module Results {

  /** A value that may be missing (the source's `None`). */
  datatype Option<+T> = None | Some(value: T) {

    /** The value, or `default` when there is none. */
    function GetOr(default: T): T {
      match this
      case Some(v) => v
      case None => default
    }
  }

  /** Either a computed value or the error the source would raise. */
  datatype Result<+T, +E> = Ok(value: T) | Err(error: E)
}

/** Optional values and failure-carrying results, used for Python's `None`
    and for exceptions that a caller either handles or lets escape. */
module Options {

  /** A value that may be absent (Python's `Optional[T]`). */
  datatype Option<+T> = None | Some(value: T) {

    /** The value, or `default` when absent (Python's `x or default` for a
        value that is either `None` or present). */
    function GetOr(default: T): T {
      match this
      case Some(v) => v
      case None => default
    }
  }

  /** Either a value or an error description. */
  datatype Result<+T, +E> = Success(value: T) | Failure(error: E)
}

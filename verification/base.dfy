/** Optional values and error-or-value results shared by every module of the model. */
module Base {

  /** A value that may be absent: JavaScript's `null`/`undefined` for a field or a lookup. */
  datatype Option<+T> = None | Some(value: T) {

    /** The value if present, otherwise `default` (the `x || default` idiom). */
    function GetOr(default: T): T {
      match this
      case Some(v) => v
      case None => default
    }
  }

  /** Either the value an operation produced or the error it reported. */
  datatype Result<+T, +E> = Ok(value: T) | Err(error: E)
}

/** Optional values and error-carrying results used across the model. */
module Common {

  /** A value that may be absent: JavaScript's `undefined`/`null`, or NaN where a number is stored. */
  datatype Option<T> = None | Some(value: T) {
    function GetOr(default: T): T {
      if Some? then value else default
    }
  }

  /** The outcome of a step that may throw: `Err` carries the error message. */
  datatype Result<T> = Ok(value: T) | Err(error: string)
}

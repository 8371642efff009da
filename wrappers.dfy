/** Optional values and success-or-error results, standing in for the
    `undefined`/`null` and thrown-error cases of the TypeScript code. */
module Wrappers {

  /** A value that may be absent (`undefined` or `null`). */
  datatype Option<+T> = None | Some(value: T) {
    function GetOr(default: T): T {
      match this
      case Some(v) => v
      case None => default
    }
  }

  /** The outcome of an operation that may fail with an error message. */
  datatype Result<+R, +E> = Ok(value: R) | Err(error: E)
}

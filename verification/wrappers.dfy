/** Optional values and results with an error, used wherever the source
    returns `undefined`/`null` or throws. */
module Wrappers {

  /** `undefined` (None) or a present value (Some). */
  datatype Option<+T> = None | Some(value: T) {
    function GetOr(default: T): T {
      match this
      case Some(v) => v
      case None => default
    }
  }

  /** A returned value (Ok) or a thrown error (Err). */
  datatype Result<+T, +E> = Ok(value: T) | Err(error: E)
}

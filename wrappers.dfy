/** Optional values and call outcomes shared by the whole model. */
module Wrappers {

  /** A value that may be missing (`undefined`/`null` in the application). */
  datatype Option<+T> = None | Some(value: T) {

    /** The value, or `default` when there is none (`x || default` on an object). */
    function GetOr(default: T): T {
      match this
      case Some(v) => v
      case None => default
    }
  }

  /** The outcome of a call that may throw. */
  datatype Result<+R, +E> = Success(value: R) | Failure(error: E)
}

/** Option and Result: Kotlin's nullable values and `kotlin.Result`. */
module Wrappers {

  /** A nullable value: `null` is None. */
  datatype Option<+T> = None | Some(value: T) {

    /** The elvis operator `this ?: default`. */
    function GetOr(default: T): T {
      match this
      case Some(v) => v
      case None => default
    }
  }

  /** `kotlin.Result`: a success value or the exception that caused the failure. */
  datatype Result<+R, +E> = Success(value: R) | Failure(error: E)
}

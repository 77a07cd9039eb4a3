/** Option and outcome types shared by the modules of the curator model. */
module Wrappers {

  /** A value that may be absent (JavaScript's null / undefined). */
  datatype Option<+T> = None | Some(value: T) {
    function GetOr(default: T): T {
      match this
      case Some(v) => v
      case None => default
    }
  }

  /** A computation that either returns a value or throws an error with a message. */
  datatype Result<+T> = Success(value: T) | Failure(message: string)

  /** A computation with no result that either completes or throws. */
  datatype Outcome = Pass | Fail(message: string)
}

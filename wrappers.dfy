/** Failure-carrying values shared by every module: a result that may be
    missing, and the outcome of a call into an external service that may raise. */
module Wrappers {

  datatype Option<+T> = None | Some(value: T) {
    function GetOr(default: T): T {
      match this
      case Some(v) => v
      case None => default
    }
  }

  /** The outcome of a call that either returns `value` or raises. */
  datatype Result<+T> = Success(value: T) | Raised(message: string)
}

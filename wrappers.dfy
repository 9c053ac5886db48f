/** Failure-carrying values for the pipeline's remote calls and optional fields. */
module Wrappers {

  /** A value that may be absent (a null column entry, a missing key). */
  datatype Option<+T> = None | Some(value: T) {
    function GetOr(default: T): T {
      match this
      case Some(v) => v
      case None => default
    }
  }

  /** The outcome of a call that may raise: its value, or the reason it failed. */
  datatype Result<+R> = Success(value: R) | Failure(error: string) {
    function GetOr(default: R): R {
      match this
      case Success(v) => v
      case Failure(_) => default
    }
  }
}

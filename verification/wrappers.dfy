/** Failure-carrying values shared by every module of the model. */
module Wrappers {

  /** A value that may be absent: JavaScript's `undefined`/`null` fields and
      `parseInt` results that are `NaN`. */
  datatype Option<+T> = None | Some(value: T) {
    function GetOr(default: T): T {
      match this
      case Some(v) => v
      case None => default
    }
  }

  /** The outcome of an operation that can throw: `Err` carries the message
      of the JavaScript `Error` it throws. */
  datatype Result<+T> = Ok(value: T) | Err(msg: string)
}

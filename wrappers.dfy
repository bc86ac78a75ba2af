/** Failure-carrying values shared by every module of the model. */
module Wrappers {

  /** A value that may be absent: JavaScript `null`/`undefined`, PHP `null`. */
  datatype Option<+T> = None | Some(value: T) {

    /** The encapsulated value, or `default` when there is none. */
    function GetOr(default: T): T {
      if Some? then value else default
    }
  }

  /** The outcome of an operation that either completes or throws `error`. */
  datatype Outcome<+E> = Pass | Fail(error: E)

  /** A value computed by an operation that may throw `error` instead. */
  datatype Result<+T, +E> = Success(value: T) | Failure(error: E)
}

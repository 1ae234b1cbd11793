/** Failure-carrying datatypes shared by every part of the model. */
module Wrappers {

  /** `None` models JavaScript's `undefined`: a key the body lacks, a missing event body, or an array hole. */
  datatype Option<+T> = None | Some(value: T) {

    /** The held value, or `fallback` when there is none. */
    function GetOr(fallback: T): T {
      if Some? then value else fallback
    }
  }

  /** The outcome of an operation that either produces a value or signals an error. */
  datatype Result<+T, +E> = Ok(value: T) | Err(error: E)
}

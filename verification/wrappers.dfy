/** Failure-carrying values used throughout the model: the source reports
    "not found", "null" and `{ success: false, message }` as values, and the
    model keeps them as values too. */
module Wrappers {

  /** A value that may be absent (JavaScript `null` / `undefined`). */
  datatype Option<+T> = None | Some(value: T) {

    /** The carried value, or `default` when absent (JavaScript `x || default`
        for values that are never falsy). */
    function GetOr(default: T): T {
      match this
      case Some(v) => v
      case None => default
    }
  }

  /** Either a computed value or an error message (a thrown `Error`). */
  datatype Result<+R, +E> = Success(value: R) | Failure(error: E)
}

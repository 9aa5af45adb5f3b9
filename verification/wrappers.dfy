/** Option and Result, the two shapes the stores use for "may be missing"
    (an undefined field, a document that does not exist, a logged-out user)
    and "may throw" (an operation that rejects with an Error message). */
module Wrappers {

  datatype Option<+T> = None | Some(value: T) {

    /** The value, or `default` when missing: JavaScript's `x || default`
        for values whose falsy cases the model keeps apart. */
    function GetOr(default: T): T {
      match this
      case Some(v) => v
      case None => default
    }
  }

  /** The outcome of an operation that either returns a value or throws
      `new Error(message)`. */
  datatype Result<+T> = Ok(value: T) | Err(message: string)
}

/** Failure-compatible wrappers used across the model: an optional value
    (TypeScript's `T | undefined`) and a success-or-error result. */
module Wrappers {

  /** `Some(v)` for a defined value, `None` for `undefined` or `null`. */
  datatype Option<+T> = None | Some(value: T) {

    /** The wrapped value, or `default` when there is none. */
    function GetOr(default: T): T {
      match this
      case Some(v) => v
      case None => default
    }
  }

  /** Either a value or an error message from a collaborator that can fail. */
  datatype Result<+R, +E> = Success(value: R) | Failure(error: E)
}

/** Failure-carrying values used across the model: an optional value, and the
    outcome of an operation that the source lets raise. */
module Wrappers {

  datatype Option<+T> = None | Some(value: T) {
    function GetOr(default: T): T {
      match this
      case Some(v) => v
      case None => default
    }
  }

  /** `Err` stands for a Python exception that the modelled code lets escape. */
  datatype Result<+T, +E> = Ok(value: T) | Err(error: E)
}

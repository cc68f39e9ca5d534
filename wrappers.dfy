/** Failure-carrying values used across the model: an optional value (a
    `std::map` lookup that misses, a `null` in Java, a parse that throws) and
    a result with an error reason. */
module Wrappers {

  datatype Option<+T> = None | Some(value: T) {
    /** The value, or `default` when there is none. */
    function GetOr(default: T): T {
      match this
      case Some(v) => v
      case None => default
    }
  }

  datatype Result<+T, +E> = Ok(value: T) | Err(error: E)
}

/** Option and Result values: the model's stand-ins for Rust's Option<T> and Result<T, E>. */
module Outcomes {

  datatype Option<+T> = None | Some(value: T) {
    /** Rust's unwrap_or */
    function GetOr(default: T): T {
      match this
      case Some(v) => v
      case None => default
    }
  }

  datatype Result<+T, +E> = Ok(value: T) | Err(error: E) {
    /** Rust's unwrap_or / unwrap_or_default */
    function GetOr(default: T): T {
      match this
      case Ok(v) => v
      case Err(_) => default
    }
  }
}

/** Option and Result values used for the services' "not found" answers and raised errors. */
module Wrappers {

  datatype Option<T> = None | Some(value: T) {
    /** The value, or `default` when absent (Python's `dict.get(key, default)`). */
    function GetOr(default: T): T {
      match this
      case Some(v) => v
      case None => default
    }
  }

  /** `Err` stands for a raised exception; `Ok` for a normal return. */
  datatype Result<T, E> = Ok(value: T) | Err(error: E)
}

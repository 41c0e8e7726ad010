/** Optional values and results, as returned by the operations of the model. */
module Wrappers {

  /** `std::optional`: a value or nothing. */
  datatype Option<+T> = None | Some(value: T) {

    /** `value_or`: the value, or `default` when there is none. */
    function GetOr(default: T): T {
      match this
      case Some(v) => v
      case None => default
    }
  }

  /** A value, or the error that prevented computing it. */
  datatype Result<+T, +E> = Ok(value: T) | Err(error: E)
}

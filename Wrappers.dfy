/** Option and Result values shared by the modules of the model. */
module Wrappers {

  /** A value that may be absent: a missing JSON key, `null`/`undefined`, a failed call. */
  datatype Option<T> = None | Some(value: T) {

    /** The value, or `default` when there is none (Python's `dict.get(k, default)`). */
    function GetOr(default: T): T {
      match this
      case Some(v) => v
      case None => default
    }
  }

  /** The outcome of an operation that can fail with an error value. */
  datatype Result<T, E> = Ok(value: T) | Err(error: E)
}

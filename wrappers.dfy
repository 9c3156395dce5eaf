/** Option, Result and Outcome: the error paths of the Python code made explicit. */
module Wrappers {
  datatype Option<T> = None | Some(value: T) {
    /** `d.get(key, default)`: the stored value, or the default when absent. */
    function GetOr(default: T): T {
      match this
      case None => default
      case Some(v) => v
    }
  }

  datatype Result<T, E> = Success(value: T) | Failure(error: E)

  /** The result of an operation run for its effect only: it returned, or it raised. */
  datatype Outcome<E> = Pass | Fail(error: E)
}

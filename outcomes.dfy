/** Option and Result values used wherever the source returns None/null or raises. */
module Outcomes {

  /** A value that may be absent: Python's None, JavaScript's null/undefined. */
  datatype Option<T> = None | Some(value: T) {
    function GetOr(default: T): T {
      match this
      case Some(v) => v
      case None => default
    }
  }

  /** The outcome of an operation that can fail with an error of type E
      (a raised exception, a rejected promise). */
  datatype Result<T, E> = Ok(value: T) | Err(error: E)
}

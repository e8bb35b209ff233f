/** Option and Result: the nullable values and the error-or-value results of the service layer. */
module Wrappers {

  /** A value that may be absent (`null`/`undefined` in the service code). */
  datatype Option<+T> = None | Some(value: T) {

    /** The carried value, or `default` when absent (the `x || default` idiom). */
    function GetOr(default: T): T {
      match this
      case Some(v) => v
      case None => default
    }
  }

  /** Either a value or an error: the `ok(...)` / `err(...)` results of the services. */
  datatype Result<+T, +E> = Ok(value: T) | Err(error: E) {

    predicate IsFailure() {
      Err?
    }

    function PropagateFailure<U>(): Result<U, E>
      requires Err?
    {
      Err(error)
    }

    function Extract(): T
      requires Ok?
    {
      value
    }
  }
}

/** Option and Result, the failure-carrying values used throughout the model
    in place of NULL pointers and of diagnostics that end the process. */
module Wrappers {

  datatype Option<+T> = None | Some(value: T)

  /** A Result also serves the `:-` operator: an `Err` ends the enclosing
      function or method with the same error, as the C++ diagnostics end
      the process. */
  datatype Result<+T, +E> = Ok(value: T) | Err(error: E) {
    predicate IsFailure() {
      Err?
    }

    function PropagateFailure<U>(): (r: Result<U, E>)
      requires Err?
    {
      Err(error)
    }

    function Extract(): (r: T)
      requires Ok?
    {
      value
    }
  }
}

/** Option and Result, the failure-compatible wrappers used by the rest of the model. */
module Wrappers {

  datatype Option<T> = None | Some(value: T)

  /** Either a value or the error that aborted the computation producing it. */
  datatype Result<T, E> = Ok(value: T) | Err(error: E) {

    predicate IsFailure() {
      Err?
    }

    function PropagateFailure<U>(): Result<U, E>
      requires Err?
    {
      Err(error)
    }

    function Extract(): T
      requires Ok?
    {
      value
    }
  }
}

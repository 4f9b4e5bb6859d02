/** Option and Result, the failure-compatible wrappers the other modules use. */
module Wrappers {

  datatype Option<+T> = None | Some(value: T)

  /** A Success/Failure datatype usable with `:-`. */
  datatype Result<+T, +E> = Ok(value: T) | Err(error: E) {
    predicate IsFailure() {
      Err?
    }

    function PropagateFailure<U>(): Result<U, E>
      requires Err?
    {
      Err(error)
    }

    function Extract(): T
      requires Ok?
    {
      value
    }
  }
}

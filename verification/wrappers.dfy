/** Failure-carrying result types shared by every module of the model. */
module Wrappers {

  /** An optional value: JavaScript's `undefined` / `null` on one side, a value on the other. */
  datatype Option<+T> = None | Some(value: T) {

    /** Returns the held value, or `default` when there is none (the `?? default` idiom). */
    function GetOr(default: T): T {
      match this
      case Some(v) => v
      case None => default
    }
  }

  /** The outcome of an operation that can reject: a value, or the error it rejects with. */
  datatype Result<+R, +E> = Ok(value: R) | Err(error: E) {

    predicate IsFailure() {
      Err?
    }

    function PropagateFailure<U>(): Result<U, E>
      requires Err?
    {
      Err(error)
    }

    function Extract(): R
      requires Ok?
    {
      value
    }
  }
}

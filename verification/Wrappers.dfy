/** The two failure-carrying datatypes the model uses for absent values and thrown errors. */
module Wrappers {

  datatype Option<+T> = None | Some(value: T) {
    /** The value, or the given default when there is none: the source's `??` and SQL's COALESCE. */
    function GetOr(default: T): T {
      match this
      case Some(v) => v
      case None => default
    }
  }

  datatype Result<+T, +E> = Ok(value: T) | Err(error: E) {
    predicate IsFailure() {
      Err?
    }

    function PropagateFailure<U>(): Result<U, E>
      requires Err?
    {
      Err(error)
    }

    function Extract(): T
      requires Ok?
    {
      value
    }
  }

  /** `COALESCE(left, right)` where both may be NULL. */
  function Coalesce<T>(left: Option<T>, right: Option<T>): Option<T> {
    if left.Some? then left else right
  }
}

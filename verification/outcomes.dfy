/**
 * Optional values and results with an error message: the shapes the services use
 * for "key may be missing" (`dict.get`) and "this call raised".
 */
module Outcomes {

  /** A value that may be absent (a missing dictionary key, a Python `None`). */
  datatype Option<+T> = None | Some(value: T) {

    predicate IsFailure() {
      None?
    }

    function PropagateFailure<U>(): Option<U>
      requires None?
    {
      None
    }

    function Extract(): T
      requires Some?
    {
      value
    }

    /** `d.get(key, default)`: the value if present, else the default. */
    function GetOr(default: T): T {
      if Some? then value else default
    }
  }

  /** The outcome of a step that may raise; `error` carries the exception's message. */
  datatype Result<+T> = Success(value: T) | Failure(error: string) {

    predicate IsFailure() {
      Failure?
    }

    function PropagateFailure<U>(): Result<U>
      requires Failure?
    {
      Failure(error)
    }

    function Extract(): T
      requires Success?
    {
      value
    }
  }
}

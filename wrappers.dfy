/** Optional values and error returns shared by the other modules. */
module Wrappers {

  /** A value that may be absent: Go's nil, a missing map key, a failed decode. */
  datatype Option<+T> = None | Some(value: T) {

    predicate IsFailure() {
      None?
    }

    function PropagateFailure<U>(): Option<U>
      requires None?
    {
      None
    }

    function Extract(): T
      requires Some?
    {
      value
    }

    /** The value, or `default` when there is none. */
    function GetOr(default: T): T {
      match this
      case Some(v) => v
      case None => default
    }
  }

  /** A result or the error Go would return beside it. */
  datatype Result<+T, +E> = Success(value: T) | Failure(error: E)
}

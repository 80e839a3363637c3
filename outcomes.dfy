/** Optional values and the outcome of a .NET call that either returns or throws. */
module Outcomes {

  /** A value that may be absent (a C# null reference). */
  datatype Option<+T> = None | Some(value: T)

  /** What a call produces: a returned value, or the exception it throws.
      Failure-compatible, so `:-` propagates a thrown exception as C# does. */
  datatype Outcome<+T, +E> = Value(value: T) | Throws(error: E) {

    predicate IsFailure() {
      Throws?
    }

    function PropagateFailure<U>(): Outcome<U, E>
      requires Throws?
    {
      Throws(error)
    }

    function Extract(): T
      requires Value?
    {
      value
    }
  }
}

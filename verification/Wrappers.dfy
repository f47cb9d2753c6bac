/** Values that may be absent and calls that may raise. */
module Wrappers {

  datatype Option<+T> = None | Some(value: T)

  /** The outcome of a call that either returns or raises. */
  datatype Result<+T, +E> = Success(value: T) | Failure(error: E) {
    predicate IsFailure() {
      Failure?
    }

    function PropagateFailure<U>(): Result<U, E>
      requires Failure?
    {
      Failure(error)
    }

    function Extract(): T
      requires Success?
    {
      value
    }
  }

  /** The smallest integer that is not below the given instant. */
  function Ceil(t: real): (c: int)
    ensures c as real - 1.0 < t <= c as real
  {
    -(-t).Floor
  }
}

// Small failure-compatible types shared by the other modules.
module Wrappers {

  datatype Option<+T> = None | Some(value: T)

  // The source reports a malformed input by throwing; a parser here returns Failure instead.
  datatype Result<+T, +E> = Success(value: T) | Failure(error: E) {
    predicate IsFailure() {
      Failure?
    }

    function PropagateFailure<U>(): Result<U, E>
      requires Failure?
    {
      Failure(error)
    }

    function Extract(): T
      requires Success?
    {
      value
    }
  }
}

/** Failure-compatible wrappers shared by every module of the model. */
module Wrappers {

  /** A Go pointer or optional value: nil is None. */
  datatype Option<+T> = None | Some(value: T)

  /** A Go `(value, error)` pair where exactly one side is meaningful. */
  datatype Result<+T, +E> = Success(value: T) | Failure(error: E) {
    predicate IsFailure() { Failure? }

    function PropagateFailure<U>(): Result<U, E>
      requires Failure?
    {
      Failure(error)
    }

    function Extract(): T
      requires Success?
    {
      value
    }
  }

  /** What a Go call that may panic produces: the value it returned, or a
      panic that unwinds every caller up the stack. */
  datatype Outcome<+T> = Returned(value: T) | Panicked {
    predicate IsFailure() { Panicked? }

    function PropagateFailure<U>(): Outcome<U>
      requires Panicked?
    {
      Panicked
    }

    function Extract(): T
      requires Returned?
    {
      value
    }
  }
}

// Option and Result, and the exceptions raised by Lena and by Python builtins.

module Wrappers {

  datatype Option<T> = None | Some(value: T)
  {
    predicate IsSome() { Some? }
  }

  /** The exception classes the modelled code raises. Messages are not modelled. */
  datatype Error =
    | LenaTypeError
    | LenaValueError
    | LenaKeyError
    | LenaIndexError
    | LenaRuntimeError
    | LenaAttributeError
    | LenaNotImplementedError
    | LenaStopFill
    // Python builtins that escape from the modelled code
    | PyTypeError
    | PyKeyError
    | PyIndexError
    | PyAttributeError
    | PyNameError
    | PyAssertionError
    | PyValueError
    | PyRecursionError

  datatype Result<T> = Success(value: T) | Failure(error: Error)
  {
    predicate IsFailure() { Failure? }

    function PropagateFailure<U>(): Result<U>
      requires Failure?
    {
      Failure(this.error)
    }

    function Extract(): T
      requires Success?
    {
      value
    }
  }
}

/** Results for the C++ operations that can throw. */
module Wrappers {

  /** The standard exception classes the renderer throws. */
  datatype Error =
    | OutOfRange(what: string)
    | InvalidArgument(what: string)
    | RuntimeError(what: string)

  datatype Result<T> = Ok(value: T) | Err(error: Error)
  {
    predicate IsFailure() { Err? }

    function PropagateFailure<U>(): Result<U>
      requires Err?
    {
      Err(error)
    }

    function Extract(): T
      requires Ok?
    {
      value
    }
  }

  /** A call that returns nothing but may throw. */
  datatype Outcome = Pass | Fail(error: Error)
  {
    predicate IsFailure() { Fail? }

    function PropagateFailure(): Outcome
      requires Fail?
    {
      this
    }
  }

  datatype Option<T> = None | Some(value: T)
}

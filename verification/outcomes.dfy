/** Failure-carrying results. Python exceptions of the modelled code become
    `Err` values tagged with the exception class that would have been raised. */
module Outcomes {

  datatype Option<+T> = None | Some(value: T) {
    function GetOr(default: T): T {
      match this
      case Some(v) => v
      case None => default
    }
  }

  /** The Python exception classes the modelled code raises or lets through. */
  datatype Error =
    | ValueError(message: string)
    | TypeError(message: string)
    | KeyError(message: string)
    | IndexError(message: string)
    | AttributeError(message: string)
    | JSONDecodeError(message: string)

  datatype Result<+T> = Ok(value: T) | Err(error: Error) {
    predicate IsFailure() {
      Err?
    }

    function PropagateFailure<U>(): Result<U>
      requires Err?
    {
      Err(error)
    }

    function Extract(): T
      requires Ok?
    {
      value
    }
  }
}

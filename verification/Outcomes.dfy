/** Results of message handlers. A handler that fails leaves no trace, because
    the transaction it runs in is rolled back. */
module Outcomes {

  /** The kinds of error a handler reports. */
  datatype Error =
    | InvalidAddress
    | InvalidRequest
    | Unauthorized
    | KeyNotFound
    | InsufficientFunds
    | StoreMiss // a store read that the handler expected to succeed

  datatype Result<+T> = Ok(value: T) | Err(error: Error) {
    predicate IsFailure() {
      Err?
    }

    function PropagateFailure<U>(): Result<U>
      requires Err?
    {
      Err(error)
    }

    function Extract(): T
      requires Ok?
    {
      value
    }
  }

  /** A check with nothing to return. */
  datatype Check = Pass | Fail(error: Error) {
    predicate IsFailure() {
      Fail?
    }

    function PropagateFailure<U>(): Result<U>
      requires Fail?
    {
      Err(error)
    }
  }

  function Need(condition: bool, error: Error): Check {
    if condition then Pass else Fail(error)
  }

  datatype Option<+T> = None | Some(value: T)
}

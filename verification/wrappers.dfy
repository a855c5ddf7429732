/** The three small sum types the gateway and the views share: an optional
    value, a call that was made or refused with an error (the source's
    thrown `Error`), and the verdict of a validator. */
module Wrappers {

  datatype Option<+T> = None | Some(value: T)

  /** A gateway call: the request it sends, or the error it throws first. */
  datatype Result<+R, +E> = Success(value: R) | Failure(error: E)

  /** A validator either lets the data through or names the first rule it
      breaks; `:- Validate(d);` stops a gateway call at that rule. */
  datatype Outcome<+E> = Pass | Fail(error: E) {
    predicate IsFailure() { Fail? }

    function PropagateFailure<U>(): Result<U, E>
      requires Fail?
    {
      Failure(error)
    }
  }
}

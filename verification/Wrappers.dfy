/** The two failure-carrying results used throughout: an optional value, and a value or a refusal.

    Messages are not part of the model, so a refusal carries nothing. Where a caller can tell two
    refusals apart the model has a datatype of its own. */
module Wrappers {

  datatype Option<+T> = None | Some(value: T)

  datatype Result<+T> = Ok(value: T) | Err {

    predicate IsFailure() {
      Err?
    }

    function PropagateFailure<U>(): Result<U>
      requires Err?
    {
      Err
    }

    function Extract(): T
      requires Ok?
    {
      value
    }
  }
}

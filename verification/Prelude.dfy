/** The two failure-style datatypes the other modules share. */
module Prelude {

  datatype Option<+T> = None | Some(value: T)

  /** The outcome of an operation that the original reports by throwing. */
  datatype Result<+T> = Ok(value: T) | Err {
    predicate IsFailure() { Err? }

    function PropagateFailure<U>(): Result<U>
      requires Err?
    {
      Err
    }

    function Extract(): T
      requires Ok?
    {
      value
    }
  }
}

/** The usual optional value, and a result for operations whose original may throw. */
module Wrappers {
  datatype Option<+T> = None | Some(value: T)

  /** `Thrown` stands for any exception that leaves the operation. */
  datatype Result<+T> = Ok(value: T) | Thrown
  {
    predicate IsFailure() {
      Thrown?
    }

    function PropagateFailure<U>(): Result<U>
      requires Thrown?
    {
      Thrown
    }

    function Extract(): T
      requires Ok?
    {
      value
    }
  }
}

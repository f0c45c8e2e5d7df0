/** Small data types shared by the models. */
module Prelude {
  datatype Option<+T> = None | Some(value: T)

  /** How a Python call can end badly in the code that is modelled. */
  datatype Failure = AssertionError | KeyError | IndexError | ValueError | ZeroDivisionError | ReloadError | TypeError | RuntimeError

  datatype Result<+T> = Ok(value: T) | Failed(why: Failure) {
    predicate IsFailure() { Failed? }

    function PropagateFailure<U>(): Result<U>
      requires Failed?
    {
      Failed(why)
    }

    function Extract(): T
      requires Ok?
    {
      value
    }
  }
}

/** Optional values and results with an error, used for pandas' NaN/NaT and for the loader's exceptions. */
module Wrappers {

  /** `None` stands for a missing value (NaN in a text column, NaT in a date column). */
  datatype Option<+T> = None | Some(value: T)

  /** A computation that either produced a value or raised an error. */
  datatype Result<+T, +E> = Success(value: T) | Failure(error: E) {
    predicate IsFailure() { Failure? }

    function PropagateFailure<U>(): Result<U, E>
      requires Failure?
    {
      Failure(error)
    }

    function Extract(): T
      requires Success?
    {
      value
    }
  }
}

/** Optional values and the outcome of Python code that may raise. */
module Outcomes {

  datatype Option<+T> = None | Some(value: T)

  /**
   * The outcome of a piece of Python code: a value, or an exception that
   * propagates to the caller.  The exception class is not recorded; where the
   * program turns an exception into data, the model does so explicitly.
   */
  datatype Result<+T> = Ok(value: T) | Raise
  {
    predicate IsFailure() { Raise? }

    function PropagateFailure<U>(): Result<U>
      requires Raise?
    {
      Raise
    }

    function Extract(): T
      requires Ok?
    {
      value
    }
  }
}

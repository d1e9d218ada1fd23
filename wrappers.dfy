/** Option and Result, and the kinds of exception the library raises. */
module Wrappers {

  datatype Option<+T> = None | Some(value: T)

  /**
   * The Python exception classes the modelled code raises (messages are not
   * modelled), and NotFinite: no exception, but numpy would produce an
   * infinity or a NaN here (a division by zero), which the real-number
   * model does not represent.
   */
  datatype Error = ValueError | TypeError | ZeroDivisionError | IndexError | NotFinite

  datatype Result<+T> = Ok(value: T) | Err(error: Error) {
    predicate IsFailure() {
      Err?
    }

    function PropagateFailure<U>(): Result<U>
      requires Err?
    {
      Err(error)
    }

    function Extract(): T
      requires Ok?
    {
      value
    }
  }
}

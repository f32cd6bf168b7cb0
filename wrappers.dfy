/**
 * Failure-carrying results for the operations of the vector-search add-on.
 * Java exceptions the core throws are modelled as `Err` values whose `Error`
 * names the exception class.
 */
module Wrappers {

  /** The exceptions the core raises or lets escape. */
  datatype Error =
    | IllegalArgument     // IllegalArgumentException (also InvalidAccessExpressionException)
    | IllegalState        // IllegalStateException
    | EndOfStream         // EOFException from DataInput
    | NegativeArraySize   // NegativeArraySizeException from `new T[n]` with n < 0
    | IndexOutOfBounds    // IndexOutOfBoundsException from `List.get`, an array read or `System.arraycopy`

  datatype Option<+T> = None | Some(value: T)

  datatype Result<+T> = Ok(value: T) | Err(error: Error) {
    predicate IsFailure() { Err? }

    function PropagateFailure<U>(): Result<U>
      requires Err?
    {
      Err(error)
    }

    function Extract(): T
      requires Ok?
    {
      value
    }
  }
}

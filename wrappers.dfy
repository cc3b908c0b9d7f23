/** Option and Result types used for the operations of the model that can raise. */
module Wrappers {

  datatype Option<+T> = None | Some(value: T)

  /** Either a value or the error that stopped the computation; usable with `:-`. */
  datatype Result<+T, +E> = Success(value: T) | Failure(error: E) {

    predicate IsFailure() {
      Failure?
    }

    function PropagateFailure<U>(): Result<U, E>
      requires Failure?
    {
      Failure(error)
    }

    function Extract(): T
      requires Success?
    {
      value
    }
  }
}

/** The Python exception kinds that the modelled code can raise. */
module Errors {

  datatype Exception =
    | TypeError          // an operand or a subscripted value of the wrong kind
    | KeyError(key: string)  // a dictionary lookup of a missing key
    | ValueError         // float() of a string that is not a number
    | ZeroDivisionError  // division by a zero total energy use
}

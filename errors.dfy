/** The codec's failure conditions as tags, and the result types that carry them. */
module Errors {

  datatype Error =
    | Underrun          // fewer bytes remain than a read needs
    | NegativeLength    // an int16 length prefix below zero
    | DecodeLength      // errDecodeLength: the data ends inside the remaining-length field
    | TooLarge          // a remaining length above MaxRemaingLength
    | PayloadTooLarge   // a SEND payload above PayloadMaxSize
    | Unsupported       // no codec registered for the frame type

  /** A Go `(T, error)` pair: exactly one of the two is meaningful. */
  datatype Result<+T> = Ok(value: T) | Err(error: Error) {
    predicate IsFailure() { Err? }

    function PropagateFailure<U>(): Result<U>
      requires Err?
    {
      Err(error)
    }

    function Extract(): T
      requires Ok?
    {
      value
    }
  }

  /** A Go `error` return on its own: nil, or an error. */
  datatype Outcome = Pass | Fail(error: Error)
}

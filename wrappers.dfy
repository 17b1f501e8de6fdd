/** Failure-carrying values shared by the whole model: Java's `null` becomes
    `None`, and an exception thrown out of an operation becomes `Err`. */
module Wrappers {

  /** A value that may be Java's `null`. */
  datatype Option<+T> = None | Some(value: T)

  /** The outcome of an operation that may throw. */
  datatype Result<+T, +E> = Ok(value: T) | Err(error: E)

  /** The outcome of an operation without a result that may throw. */
  datatype Outcome<+E> = Pass | Fail(error: E)

  /** The Java exceptions that the modelled code can let escape. */
  datatype Exception =
    | IllegalArgument   // IllegalArgumentException
    | Arithmetic        // ArithmeticException (BigDecimal division by zero)
    | NullPointer       // NullPointerException
    | ClassCast         // ClassCastException while deserialising
    | EndOfStream       // EOFException while deserialising
    | InvalidObject     // InvalidObjectException (a stream with a null id)
}

/** Option and Result: `null` references and failure values of the Java code. */
module Wrappers {

  /** A possibly-absent value; `None` stands for a Java `null` reference. */
  datatype Option<+T> = None | Some(value: T)

  /** The outcome of a decoder: a value or the reason it was refused. */
  datatype Result<+T, +E> = Success(value: T) | Failure(error: E)
}

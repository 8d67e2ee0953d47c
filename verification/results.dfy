/** Option and Result values standing in for Java's null references and
    thrown exceptions. */
module Results {

  /** A value that may be absent; `None` plays the part of a Java `null`. */
  datatype Option<+T> = None | Some(value: T)

  /** The outcome of an operation that either returns a value or throws. */
  datatype Result<+T, +E> = Success(value: T) | Failure(error: E)

  /** The exceptions the board lets escape to its caller. */
  datatype Exception =
    | NoSuchElement   // java.util.NoSuchElementException
    | NullPointer     // java.lang.NullPointerException
}

/** Error kinds reported by the game, and which of them end the read-evaluate-print loop. */
module Errors {

  /** The kinds of failure. The `Error` wrapper struct of the program holds only a kind,
      so the model uses the kind itself; the payload of an I/O error is not modelled. */
  datatype ErrorKind = GuessTooShort | GuessTooLong | InvalidCommand | IoError

  /** Outcome of an operation that may fail. */
  datatype Result<+T> = Ok(value: T) | Err(error: ErrorKind)

  /** Whether the loop carries on after reporting `e`: only I/O failures are fatal. */
  predicate Retryable(e: ErrorKind)
    ensures Retryable(e) <==> !e.IoError?
  {
    match e
    case GuessTooShort => true
    case GuessTooLong => true
    case InvalidCommand => true
    case IoError => false
  }
}

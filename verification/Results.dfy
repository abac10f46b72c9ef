/** Outcomes of operations that may be absent or may raise. */
module Results {

  datatype Option<+T> = None | Some(value: T)

  /** The exception classes a caller of the codec can tell apart:
      `InvalidObjectError`, and every other exception that escapes. */
  datatype Error = InvalidObject | Uncaught

  datatype Result<+T> = Ok(value: T) | Err(error: Error) {
    predicate IsFailure() {
      Err?
    }

    function PropagateFailure<U>(): Result<U>
      requires Err?
    {
      Err(error)
    }

    function Extract(): T
      requires Ok?
    {
      value
    }
  }
}

/** Optional values, results, and the Python exceptions that can end a run
    of the extractor. */
module Wrappers {

  /** A value that may be absent: a dict key that may not be set. */
  datatype Option<+T> = None | Some(value: T) {

    /** The value if present, otherwise `default`. */
    function GetOr(default: T): T {
      match this
      case Some(v) => v
      case None => default
    }
  }

  /** The exceptions the script raises. None of them is caught: each one
      ends the run. */
  datatype Error =
    | InvalidUrl               // the entry point's URL check prints "Invalid url!" and exits with status 1
    | KeyError(key: string)    // a dict lookup on a missing key
    | IndexError               // a list index out of range
    | ValueError(text: string) // int() on text that is not an integer literal
    | ZeroDivisionError        // a gambling chance of zero
    | EOFError                 // input() after the input has run out

  /** Either the value a step computes or the exception it raises. */
  datatype Result<+T> = Ok(value: T) | Err(error: Error) {

    predicate IsFailure() {
      Err?
    }

    function PropagateFailure<U>(): Result<U>
      requires Err?
    {
      Err(error)
    }

    function Extract(): T
      requires Ok?
    {
      value
    }
  }
}

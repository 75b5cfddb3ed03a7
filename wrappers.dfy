/** Optional values and results with an error message: the shapes of Java's nullable
    references and thrown exceptions, and of JavaScript's null/undefined. */
module Wrappers {

  datatype Option<+T> = None | Some(value: T) {
    function GetOr(default: T): T {
      match this
      case Some(v) => v
      case None => default
    }
  }

  datatype Result<+T> = Ok(value: T) | Err(error: string) {
    predicate IsFailure() {
      Err?
    }

    function PropagateFailure<U>(): Result<U>
      requires Err?
    {
      Err(error)
    }

    function Extract(): T
      requires Ok?
    {
      value
    }
  }

  /** The outcome of a `void` operation: it completed, or it threw with a message. */
  datatype Outcome = Pass | Fail(error: string)
}

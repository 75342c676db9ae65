/** Optional values and exception-carrying results, standing for Python's `None` and `raise`. */
module Wrappers {

  datatype Option<T> = None | Some(value: T) {

    /** Python's `x or default` for an optional field. */
    function GetOr(default: T): T {
      match this
      case Some(v) => v
      case None => default
    }
  }

  /** An exception raised by a callee: its type name and its message. */
  datatype Raised = Raised(typeName: string, message: string)

  /** A value, or the exception raised while computing it. */
  datatype Result<T> = Ok(value: T) | Err(error: Raised) {

    predicate IsFailure() {
      Err?
    }

    function PropagateFailure<U>(): Result<U>
      requires Err?
    {
      Err(error)
    }

    function Extract(): T
      requires Ok?
    {
      value
    }
  }
}

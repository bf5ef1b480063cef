/** Option and Result types, and the errors the modelled Python code can raise. */
module Wrappers {

  datatype Option<+T> = None | Some(value: T) {
    function GetOr(default: T): T {
      match this
      case Some(v) => v
      case None => default
    }
  }

  /** The Python exceptions that abort a run of the pipeline. */
  datatype Error =
    | KeyError(key: string)          // a mapping lookup on a missing key
    | AttributeError(name: string)       // getattr on a missing attribute
    | TypeError(what: string)        // an operation on values of the wrong kind
    | ValueError(what: string)       // a malformed human duration
    | OverflowError                  // a timedelta outside Python's range
    | AssertionError(what: string)   // a failed `assert`
    | RegexError(what: string)       // `re` refused a pattern or a replacement template
    | ValidationError(field: string) // a pydantic field constraint failed
    | IllTyped(field: string)        // a SetAttr value the model does not store

  datatype Result<+T> = Ok(value: T) | Err(error: Error) {
    predicate IsFailure() {
      Err?
    }

    function PropagateFailure<U>(): Result<U>
      requires Err?
    {
      Err(error)
    }

    function Extract(): T
      requires Ok?
    {
      value
    }
  }
}

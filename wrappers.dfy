/** Failure-compatible wrappers shared by every module of the model: nullable values,
    the outcome of a call that may throw, and the exceptions the code raises. */
module Wrappers {

  /** A C# nullable reference or value: `None` stands for `null`. */
  datatype Option<+T> = None | Some(value: T) {
    function GetOr(default: T): T {
      match this
      case Some(v) => v
      case None => default
    }
  }

  /** A .NET exception, reduced to what the code inspects: its type and message, or
      the inner exceptions of an AggregateException. */
  datatype Exception =
    | Exception(typeName: string, message: string)
    | AggregateException(aggregateMessage: Option<string>, inner: seq<Exception>)

  /** The outcome of a call that either returns a value or throws. */
  datatype Result<+T> = Ok(value: T) | Err(error: Exception) {
    predicate IsFailure() { Err? }
    function PropagateFailure<U>(): Result<U>
      requires Err?
    {
      Err(error)
    }
    function Extract(): T
      requires Ok?
    {
      value
    }
  }
}

/** Failure-carrying results shared by every module of the model.
    A JavaScript `throw` becomes an `Err` whose `Error` records the kind of
    the thrown object and its exact message. */
module Wrappers {

  datatype Option<+T> = None | Some(value: T)

  /** The constructor of the thrown object (`PlainError` is JavaScript's
      `Error`). `Unmodelled` marks the few places where the model stops
      following JavaScript's implicit coercions or its number and string
      representation (see the README's "Left out" section); it is never
      caught. */
  datatype ErrorKind = PlainError | TypeError | URIError | SyntaxError | Unmodelled

  datatype Error = Error(kind: ErrorKind, message: string)

  datatype Result<+T> = Ok(value: T) | Err(error: Error) {
    predicate IsFailure() { Err? }

    function PropagateFailure<U>(): Result<U>
      requires Err?
    {
      Err(error)
    }

    function Extract(): T
      requires Ok?
    {
      value
    }
  }

  /** `throw new Error(message)` */
  function Fail<T>(message: string): Result<T> {
    Err(Error(ErrorKind.PlainError, message))
  }

  /** `throw new TypeError(message)` */
  function FailType<T>(message: string): Result<T> {
    Err(Error(ErrorKind.TypeError, message))
  }

  /** A `catch` clause catches whatever JavaScript throws; an `Unmodelled`
      failure is not a JavaScript exception and passes through. */
  predicate Catchable(e: Error) {
    e.kind != ErrorKind.Unmodelled
  }

  /** The message the JavaScript engine itself uses when a property of
      `null` or `undefined` is read or `Object.keys(null)` is called. */
  const NullObjectMessage: string := "Cannot convert undefined or null to object"
}

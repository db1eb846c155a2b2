/** Option and the exceptions the runtime raises, shared by every module. */
module Wrappers {

  datatype Option<T> = None | Some(value: T)

  /** The script-visible error categories (`ExceptionHelper.ThrowTypeError` and friends). */
  datatype JsErrorKind = TypeError | ReferenceError | SyntaxError | RangeError | GenericError(message: string)

  /**
   * The .NET exceptions that are not `JavaScriptException`s: `Step` lets them
   * escape to the host instead of turning them into a `Throw` completion.
   */
  datatype ClrErrorKind =
    | ArgumentError
    | ArgumentOutOfRange
    | InvalidOperation
    | IndexOutOfRange
    | InvalidCast
    | NullReference
    | NotImplemented
    | RecursionDepthOverflow
    | Generic(message: string)   // a plain System.Exception

  /** A node's source position (line and column of its start and end). */
  datatype Location = Location(startLine: int, startColumn: int, endLine: int, endColumn: int)

  /**
   * A thrown .NET exception. A `JavaScriptException` carries the error
   * category (standing for the error object it wraps) and the location, if
   * the thrower supplied one.
   */
  datatype Exception =
    | JavaScriptException(kind: JsErrorKind, location: Option<Location>)
    | ClrException(clr: ClrErrorKind)

  datatype Result<T> = Ok(value: T) | Err(error: Exception)
  {
    predicate IsFailure() { Err? }
  }

  /** A `JavaScriptException` without a location, as `ExceptionHelper` throws them. */
  function JsThrow<T>(kind: JsErrorKind): Result<T> {
    Err(JavaScriptException(kind, None))
  }

  function ClrThrow<T>(kind: ClrErrorKind): Result<T> {
    Err(ClrException(kind))
  }
}

/** Optional values and success-or-error results, used for the TypeScript
    `T | null`, optional properties and thrown values. */
module Wrappers {

  datatype Option<+T> = None | Some(value: T)

  datatype Result<+R, +E> = Success(value: R) | Failure(error: E)

  /** What a `catch` clause can receive: an `Error` instance with its
      message, or any other thrown value. */
  datatype Thrown = ErrorObject(message: string) | OtherValue

  /** `error instanceof Error ? error.message : fallback`. */
  function CaughtMessage(error: Thrown, fallback: string): (r: string)
    ensures error.ErrorObject? ==> r == error.message
    ensures error.OtherValue? ==> r == fallback
  {
    match error
    case ErrorObject(message) => message
    case OtherValue => fallback
  }
}

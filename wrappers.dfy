/** Option and Result, the two failure-carrying shapes the rest of the model uses. */
module Wrappers {

  /** Python's `None` or a value. */
  datatype Option<+T> = None | Some(value: T) {
    function GetOr(default: T): T {
      match this
      case Some(v) => v
      case None => default
    }
  }

  /** A value, or the exception that was raised instead. */
  datatype Result<+T, +E> = Success(value: T) | Failure(error: E)

  /** The exceptions a scrape or a store call can raise, as far as the model distinguishes them. */
  datatype Error =
    | KeyError(key: string)                 // a dict indexed with a missing key
    | FetchCrash(message: string)           // a fetch or parse failure that is not a RequestException
    | IntegrityError(message: string)       // an SQLite constraint violation
    | InterfaceError(message: string)       // a value SQLite cannot bind
    | JsonDecodeError(text: string)         // a stored column that is not JSON text
  {
    /** `str(e)` of the exception. */
    function Message(): string {
      match this
      case KeyError(k) => "'" + k + "'"
      case FetchCrash(m) => m
      case IntegrityError(m) => m
      case InterfaceError(m) => m
      case JsonDecodeError(_) => "Expecting value"
    }
  }
}

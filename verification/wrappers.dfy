/** Optional values and HTTP-style responses shared by the rest of the model. */
module Wrappers {

  /** A value that may be absent: `undefined`/`null` in the application's JSON. */
  datatype Option<+T> = None | Some(value: T) {

    /** The wrapped value, or `default` when absent (the `??` operator). */
    function GetOr(default: T): T {
      match this
      case Some(v) => v
      case None => default
    }
  }

  /** The outcome of a schema check: the accepted value, or the issue that rejected it. */
  datatype Result<+T> = Ok(value: T) | Fail(message: string)

  /** The body of a route-handler response: `{ data }` or `{ error }`. */
  datatype Body<+T> = Data(data: T) | Error(message: string)

  /** A route-handler response: an HTTP status and a body. */
  datatype Response<+T> = Response(status: int, body: Body<T>)
}

/**
  Values shared by every operation of the SDK: optional values, bytes,
  JavaScript exceptions, the outcome of one HTTP round trip, and the record
  of what an operation returned (or threw) together with the request it
  made, if any.
 */
module Common {

  /** `undefined` (None) or a present value. */
  datatype Option<+T> = None | Some(value: T) {
    /** The value, or `default` when absent: JavaScript's `{ x = default } = options`. */
    function GetOr(default: T): T {
      match this
      case Some(v) => v
      case None => default
    }
  }

  newtype byte = x: int | 0 <= x < 256

  /** A thrown JavaScript value.  `isError` says whether it is an instance of
      `Error`; `message` is its `message` property; `response` is the message
      field of a structured server error body when the failure carries one.
      No operation of the model reads `response`: it is there only for the
      shared error-message extractor, which is a given function of the whole
      value (see `Foreign.Env`). */
  datatype Exception = Exception(isError: bool, message: string, response: Option<string>)

  /** `new Error(message)`. */
  function NewError(message: string): Exception {
    Exception(true, message, None)
  }

  /** What the transport gives back for one request: a response body, or a
      rejection (network error, non-2xx status, timeout). */
  datatype Outcome<+T> = Ok(data: T) | Fail(error: Exception)

  /** How an operation that may throw ends: it returns a value or throws. */
  datatype Thrown<+T> = Returned(value: T) | Threw(error: Exception)

  datatype Verb = Get | Post

  /** One request handed to the transport: verb, path relative to the base
      URL, body or query, and the per-request timeout in milliseconds. */
  datatype HttpRequest<+P> = HttpRequest(verb: Verb, path: string, payload: P, timeout: int)

  /** The observable effect of one operation: what it returns to the caller,
      and the request it issued (None when it returned before issuing any request). */
  datatype Call<+R, +P> = Call(result: R, sent: Option<HttpRequest<P>>)

  /** JavaScript truthiness of an optional string: present and non-empty. */
  predicate Truthy(s: Option<string>) {
    s.Some? && s.value != ""
  }

  /** `s || fallback` for an optional string. */
  function OrElse(s: Option<string>, fallback: string): (r: string)
    // a non-empty fallback makes the result non-empty, whatever `s` is
    ensures fallback != "" ==> r != ""
  {
    if Truthy(s) then s.value else fallback
  }
}

/**
 * The vocabulary every handler of the front-end shares: request methods,
 * JSON-like payloads, multipart form data, the errors axios rejects with,
 * and the user-visible effects (toasts, page reloads, router navigation)
 * that a transition emits instead of performing.
 */
module Http {
  import opened Wrappers

  datatype Method = Get | Post

  /** A JSON-like value, as passed to axios as query parameters or a body. */
  datatype Json =
    | JUndefined
    | JBool(b: bool)
    | JStr(s: string)
    | JObj(fields: map<string, Json>)

  /** One value appended to a `FormData`: a text field or a selected file. */
  datatype FormValue = Text(text: string) | File(fileName: string)

  /** A `FormData` object: its entries in the order they were appended. */
  type FormData = seq<(string, FormValue)>

  datatype Body = NoBody | JsonBody(json: Json) | Multipart(form: FormData)

  /**
   * What axios rejects with. `NoResponse` is a network failure;
   * `Status` carries the HTTP status, the URL of the request that failed
   * (`response.config.url`) and the `message` field of the response body,
   * if it had one.
   */
  datatype ClientError =
    | NoResponse
    | Status(code: int, url: string, message: Option<string>)

  /** The settled outcome of one request. */
  datatype Reply<+T> = Ok(value: T) | Err(error: ClientError)

  /**
   * What the server did with one request: answered with a 2xx body, was
   * never reached, or answered with an error status and body message.
   */
  datatype ServerReply<+T> = Answered(body: T) | Unreachable | Refused(code: int, message: Option<string>)

  /**
   * The reply axios settles with for a request to `url`: a rejection
   * records the URL of the request that failed.
   */
  function Received<T>(url: string, s: ServerReply<T>): (r: Reply<T>)
    ensures r.Ok? <==> s.Answered?
    ensures s.Answered? ==> r.value == s.body
    ensures s.Unreachable? ==> r == Err(NoResponse)
    ensures s.Refused? ==> r == Err(Status(s.code, url, s.message))
  {
    match s
    case Answered(b) => Ok(b)
    case Unreachable => Err(NoResponse)
    case Refused(code, message) => Err(Status(code, url, message))
  }

  /** The server's JSON body, whose payload sits under `data`. */
  datatype Envelope<+T> = Envelope(data: T)

  /** What a handler does to the world besides changing its own state. */
  datatype Effect =
    | ToastSuccess(text: string)
    | ToastError(text: string)
    | Reload(path: string)     // `window.location.href = path`: a full page load
    | Navigate(path: string)   // a client-side router navigation
}

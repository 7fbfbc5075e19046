/** The values that flow through the proxy handler: the inbound request, the
    request it forwards, what upstream answers and the reply it sends. */
module Http {
  import opened Wrappers
  import opened Errors

  newtype byte = x: int | 0 <= x < 256

  type Bytes = seq<byte>

  /** One header name to one value, as `dict(request.headers)` yields them.
      The server hands the handler lower-case names; the map type does not
      insist on it, and the properties that depend on it say so. */
  type Headers = map<string, string>

  /** The HTTP methods the catch-all route accepts (app/main.py:230-232). */
  datatype Method = GET | POST | PUT | DELETE | HEAD | OPTIONS | PATCH

  /** An inbound request: the path after the leading '/', its headers and
      query parameters, and the body `request.body()` yields (None when
      reading it raises). */
  datatype Request = Request(
    verb: Method,
    path: string,
    headers: Headers,
    query: map<string, string>,
    body: Option<Bytes>)

  /** The arguments of `client.request(...)` (app/main.py:424-430). */
  datatype Outbound = Outbound(
    verb: Method,
    url: string,
    headers: Headers,
    body: Option<Bytes>,
    params: map<string, string>)

  /** What upstream does with the forwarded request.  httpx hands response
      header names over in lower case. */
  datatype Upstream =
    | Replied(status: nat, headers: Headers, body: Bytes)
    | Threw(error: Raised)

  /** The reply the handler sends. */
  datatype Reply =
    | Archive(body: Bytes, filename: string)                          // FileResponse, application/zip
    | Cached(body: Bytes)                                             // FileResponse of a cache entry, no media type
    | Fresh(status: nat, body: Bytes, headers: Headers)               // FileResponse of a just-written entry
    | Streamed(status: nat, body: Bytes, headers: Headers, contentType: Option<string>)
    | Failed(status: nat, detail: string)                             // HTTPException

  function StatusOf(r: Reply): nat {
    match r
    case Archive(_, _) => 200
    case Cached(_) => 200
    case Fresh(s, _, _) => s
    case Streamed(s, _, _, _) => s
    case Failed(s, _) => s
  }

  /** `response.headers.get("content-type")` */
  function ContentType(h: Headers): Option<string> {
    if "content-type" in h then Some(h["content-type"]) else None
  }

  /** The reply for an exception that reached the handler boundary. */
  function ErrorReply(e: Raised): (r: Reply)
    requires e.HttpError?
    ensures r.Failed? && StatusOf(r) == e.status
  {
    Failed(e.status, e.detail)
  }
}

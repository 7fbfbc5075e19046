/** How the handler turns a raised Python exception into an HTTP error.

    The handler nests three `try` blocks: one around the upstream call
    (app/main.py:417-445), one around response preparation (448-492) and an
    outer one around both (405-502).  Each guard below is one `except` list,
    applied to whatever escapes the block it protects.  `HttpError` is
    FastAPI's `HTTPException`, which is itself an `Exception`, so a plain
    `except Exception` clause catches it too. */
module Errors {

  datatype Raised =
    | RequestError(message: string)            // httpx.RequestError: network, DNS, TLS
    | HttpError(status: nat, detail: string)   // fastapi.HTTPException
    | OtherError(message: string)              // any other Exception

  /** The cause an exception carries.  The fixed prefixes the handler puts in
      front of it (and the "502: " that `str()` of an HTTPException adds) are
      not modelled. */
  function Cause(e: Raised): string {
    match e
    case RequestError(m) => m
    case HttpError(_, d) => d
    case OtherError(m) => m
  }

  /** Lines 435-445: a transport error becomes 502, anything else 500. */
  function SendGuard(e: Raised): (r: Raised)
    ensures r.HttpError? && r.detail == Cause(e)
    ensures r.status == 502 <==> e.RequestError?
    ensures r.status == 500 <==> !e.RequestError?
  {
    if e.RequestError? then HttpError(502, Cause(e)) else HttpError(500, Cause(e))
  }

  /** Lines 487-492 and 340-345: everything becomes 500. */
  function InternalGuard(e: Raised): (r: Raised)
    ensures r.HttpError? && r.status == 500 && r.detail == Cause(e)
  {
    HttpError(500, Cause(e))
  }

  /** Lines 494-502, as written: `except httpx.RequestError` then
      `except Exception`.  The second clause also catches the HTTPException
      raised by the inner guards and re-raises it as 500. */
  function OuterGuardAsWritten(e: Raised): (r: Raised)
    ensures r.HttpError? && r.detail == Cause(e)
    ensures r.status == (if e.RequestError? then 502 else 500)
  {
    if e.RequestError? then HttpError(502, Cause(e)) else HttpError(500, Cause(e))
  }

  /** Lines 494-502 as evidently intended: an HTTPException raised by an inner
      guard passes through with its own status. */
  function OuterGuard(e: Raised): (r: Raised)
    ensures e.HttpError? ==> r == e
    ensures !e.HttpError? ==> r == OuterGuardAsWritten(e)
  {
    if e.HttpError? then e else OuterGuardAsWritten(e)
  }

  /** As written, an upstream transport error reaches the caller as 500,
      never as the 502 its own guard chose. */
  lemma TransportErrorMaskedAsWritten(m: string)
    ensures SendGuard(RequestError(m)).status == 502
    ensures OuterGuardAsWritten(SendGuard(RequestError(m))) == HttpError(500, m)
  {
  }

  /** As written, every HTTPException an inner guard raises, whatever its
      status, reaches the caller as 500 with the same detail. */
  lemma InnerStatusMaskedAsWritten(e: Raised)
    requires e.HttpError?
    ensures OuterGuardAsWritten(e) == HttpError(500, e.detail)
  {
  }

  /** As written, whatever escapes the upstream call, the caller sees 500. */
  lemma UpstreamFailureStatusAsWritten(e: Raised)
    ensures OuterGuardAsWritten(SendGuard(e)).status == 500
  {
  }

  /** With the intended outer guard, every status an inner guard chooses is
      the status the caller sees: 502 exactly for transport errors. */
  lemma UpstreamFailureStatus(e: Raised)
    ensures OuterGuard(SendGuard(e)) == SendGuard(e)
    ensures OuterGuard(SendGuard(e)).status == (if e.RequestError? then 502 else 500)
  {
  }
}

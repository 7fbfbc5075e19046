# gh-proxy request routing and cache discipline, in Dafny

gh-proxy is a FastAPI forwarding proxy. Its catch-all handler `proxy_github`
takes the request path as a target URL, forwards the request with httpx and
relays the answer. Successful plain GETs are cached on disk under the MD5
digest of the URL. A GET of a URL ending in `.git` is answered with a zip
archive of a shallow clone, which is cached too.

This project models that handler as follows:

- The pure decisions are functions in `Routing`: URL normalisation,
  classification into clone / git-protocol / plain, header shaping, body
  selection and the download file name.
- The cache directory is the class `Cache.CacheStore`. Its field is a map
  from (digest, variant) to bytes; the variant is the plain body or the
  `.zip` archive.
- The temporary directory used by the clone branch is the class
  `Workspace.Scratch`. It tracks the live clone directories and the archive
  files beside them.
- The handler is the method `Proxy.Handle`. It updates both objects.
- The outside world is given as inputs in `Proxy.Env`. The upstream answer
  is a status, headers and body, or a raised exception. The clone subprocess
  and the archiver are given as their outcomes, and each cache write as how
  it ended.
- The MD5 digest is the constructor argument `digest` of `CacheStore`. It is
  an arbitrary deterministic function into 32-character hex strings, and no
  injectivity is assumed.

Each branch of the handler is specified by a relation on values:
`Proxy.CloneStep` for the clone branch and `Proxy.ProxiedStep` for
everything else. `Proxy.Handle` is proved to satisfy them. The lemmas in
`Proxy` state what those relations promise: the cache only grows, git
requests bypass it, writes happen only on a plain 200 GET, a second GET hits,
and errors map to the right status codes.

Python's exception flow is modelled explicitly in `Errors`. Each `except`
list is a function from the raised exception to the HTTPException it raises.

Where the code and the documented design disagree, the model follows the
code in these cases:

- A request for a URL ending in `.git` with no protocol marker, sent with any
  method other than GET, is not a clone request. The code then treats it as
  a git-protocol request (no caching, git headers added).
- If `make_archive` fails, the handler raises before `shutil.rmtree`.
  The clone directory is therefore left behind (`Workspace.Scratch.Package`,
  `Proxy.CloneFailureCleanup`). Only a failed clone is cleaned up.
- `open(path, "wb")` creates the cache file before writing. A write that
  fails part way therefore leaves a truncated entry, which later GETs serve
  as a hit (`Cache.Persisted`).

One disagreement is handled differently. As written, the outer guard turns
the 502 for an upstream transport error into a 500. The model keeps that
guard as written (`Errors.OuterGuardAsWritten`), but the handler
(`Proxy.Relay`, `Proxy.Handle`) uses the corrected guard on purpose. That
way the handler's lemmas state the behaviour the design intends. The bug
itself is recorded under Findings.

## Model

| member | source | states |
|---|---|---|
| `Routing.NormaliseUrl` | app/main.py:250-258 | the target is the path itself or "https://" plus the path; the scheme is added exactly when the path starts with "github.com"; the path is always a suffix of the target, so no path is rejected |
| `Routing.NormaliseIdempotent` | app/main.py:250-258 | normalising a normalised URL leaves it unchanged |
| `Routing.NormaliseUrlBranches` | app/main.py:250-258 | a path with an http(s) scheme is used unchanged; a github.com path gets "https://" in front; the target has a scheme iff the path had one or starts with "github.com" |
| `Routing.ClassifyCharacterised` | app/main.py:264-355 | every clone request is a git request; a request is plain iff it is not a git request; the git-protocol branch gets exactly URLs with a marker, or ending in ".git" with a method other than GET |
| `Routing.PrepareHeaders` | app/main.py:360-386 | the dictionary updated in place yields exactly the shaped headers of ShapedFrom |
| `Routing.ShapedFromProperties` | app/main.py:360-386 | "host" is never forwarded; on git requests "content-length" is dropped and a protocol version and user agent are always present case-insensitively; every other inbound header keeps its value; plain requests add nothing; with lower-case inbound names, no forwarded name is "host" in any case |
| `Routing.ShapedFromUnique` | app/main.py:360-386 | the shaped headers are determined by the inbound headers and the git flag |
| `Routing.ForwardedBody` | app/main.py:405-414 | a body is forwarded only for POST, PUT and PATCH, and only when reading it succeeded; it is then the inbound body |
| `Routing.DownloadNameOfRepository` | app/main.py:284 | for a URL ending in ".git" the download name ends in ".zip", contains no '/', contains no ".git", and is as long as the URL's basename |
| `Text.Basename` | app/main.py:284 | the basename is a slash-free suffix of the path, preceded by '/' when it is shorter than the path |
| `Text.ReplaceGitEndsWithZip` | app/main.py:337 | replacing every ".git" by ".zip" in a name ending in ".git" gives a name ending in ".zip" |
| `Text.NoGitSurvives` | app/main.py:337 | `replace(".git", ".zip")` leaves no occurrence of ".git" in any string |
| `Cache.FileNameInjective` | app/main.py:113-125 | distinct (digest, variant) pairs name distinct files, so the ".zip" entry never collides with the plain entry |
| `Cache.Persisted` | app/main.py:456-461 | a completed write keeps all the data, a failed mkdir keeps no file, and a failed write keeps a prefix of the data |
| `Cache.AfterWrite` | app/main.py:456-461 | a write attempt can add or set only its own entry, leaves every other entry unchanged, and stores the data when it completes |
| `Cache.CacheStore.Lookup` | app/main.py:390-400 | the lookup finds an entry iff the file exists, and returns its bytes |
| `Cache.CacheStore.Store` | app/main.py:452-462 | the entries after a write are as AfterWrite says; a cause is reported iff the write did not complete |
| `Workspace.Scratch.CloneRepo` | app/main.py:172-227 | a clone that exits 0 returns the fresh temporary directory; any other outcome returns the error output and removes the directory again |
| `Workspace.Scratch.Package` | app/main.py:292-321 | a successful archive removes the clone directory and leaves `<dir>.zip`; a failed make_archive leaves the directory; a missing archive is an error after the directory is removed |
| `Errors.SendGuard` | app/main.py:435-445 | a transport error becomes HTTPException 502 and anything else 500, both carrying the cause |
| `Errors.InternalGuard` | app/main.py:487-492 | any failure while preparing the response becomes HTTPException 500 with its cause |
| `Errors.OuterGuardAsWritten` | app/main.py:494-502 | the outer guard as written gives 502 for a transport error and 500 for everything else, an HTTPException included, carrying the same cause |
| `Errors.OuterGuard` | app/main.py:494-502 | the corrected outer guard passes an HTTPException through unchanged and guards the rest as written |
| `Errors.TransportErrorMaskedAsWritten` | app/main.py:435-502 | as written, the 502 chosen for a transport error reaches the caller as 500 |
| `Errors.InnerStatusMaskedAsWritten` | app/main.py:405-502 | as written, every HTTPException an inner guard raises reaches the caller as 500 with the same detail, whatever its status |
| `Errors.UpstreamFailureStatusAsWritten` | app/main.py:435-502 | as written, every failure of the upstream call reaches the caller as 500 |
| `Errors.UpstreamFailureStatus` | app/main.py:435-445 | with the corrected outer guard the caller sees the inner guard's status: 502 for transport errors, 500 otherwise |
| `Proxy.Relay` | app/main.py:471-486 | an uncached answer is relayed with its status, headers, body and content type; a raised error becomes 502 (transport) or 500 with its cause |
| `Proxy.ServeClone` | app/main.py:275-345 | the clone branch moves the cache and workspace as CloneStep relates them |
| `Proxy.ServeProxied` | app/main.py:347-502 | the cache branches and the forwarded request move the cache as ProxiedStep relates them |
| `Proxy.Handle` | app/main.py:233-502 | a missing client gives 503 and changes nothing; otherwise the clone branch satisfies CloneStep and sends nothing upstream, the others satisfy ProxiedStep; the cache only grows |
| `Proxy.CloneStepGrowsOnly` | app/main.py:323-331 | the clone branch changes no existing entry and can add only the ".zip" entry of its own URL |
| `Proxy.CloneStepOutcome` | app/main.py:278-339 | a stored archive is served without cloning; a successful clone, archive and copy stores the archive under the same digest and serves it; every roll-back is a 500 that leaves the cache unchanged unless a copy failed part way |
| `Proxy.CloneFailureCleanup` | app/main.py:215-227 | a failed clone is a 500 that leaves disk and cache as they were; a failed make_archive leaves the clone directory behind |
| `Proxy.ArchiveNameOfRepository` | app/main.py:335-339 | a served archive of a repository URL is offered under a slash-free name ending in ".zip" |
| `Proxy.ProxiedStepGrowsOnly` | app/main.py:452-462 | the forwarding branches change no existing entry and can add only the plain entry of their own URL |
| `Proxy.CacheWrittenOnlyOnPlain200` | app/main.py:452 | the cache changes only on a missed GET of a non-git URL answered with 200; nothing is sent upstream iff the request is a plain GET hit |
| `Proxy.GitRequestBypassesCache` | app/main.py:391 | for a git URL the cache is neither read nor written whatever the status; the request is forwarded with git headers and the answer relayed |
| `Proxy.MissStoresBody` | app/main.py:452-469 | a missed plain GET answered with 200 and written whole stores exactly the upstream body and replies with it |
| `Proxy.TransportErrorIs502` | app/main.py:435-439 | a forwarded request that hits a transport error gets 502 with the cause and writes no entry |
| `Proxy.SecondGetHitsCache` | app/main.py:390-400 | after a GET answered with 200 and stored, or served from the cache, the next GET of the same URL is served from the cache with the same bytes and sends nothing upstream |

## Left out

- The httpx client is left out: connection pool, redirects, 30-second timeout. Its answer is an input.
- Streaming through `aiter_bytes` is not modelled. A streamed reply carries the whole upstream body, and a failure in the middle of a stream is not modelled.
- The `lifespan` manager and the global `client` are reduced to the flag `clientReady`. Startup and shutdown are asynchronous resource management.
- MD5 itself is not modelled. The digest is a parameter; the model only knows it is deterministic and 32 hex digits long.
- `git clone`, `shutil.make_archive`, `run_in_executor`, `rmtree` and `copy2` are external processes and file I/O. They appear only as their outcomes and their effect on the directory and file sets.
- The contents of the cloned repository are not modelled. The archive bytes are an input.
- A partial zip left by a failing `make_archive` is not modelled.
- The `root` and `favicon` endpoints, static mounting, dotenv, logging and uvicorn startup are plumbing over file I/O. `is_valid_url` always returns True, so it is folded into `Routing.NormaliseUrl`.
- Concurrent requests for the same key are not modelled. The source has no locking and the model handles one request at a time.
- The order of headers is not modelled; a Python dict keeps insertion order, but headers are a map here.
- Repeated headers and query parameters are not modelled. `dict(...)` keeps one value per name, and the model starts from that one-value map.
- The headers FileResponse adds itself (content length, etag, disposition) are not part of the reply.
- Routing.PrepareHeaders: names are compared case-insensitively with ASCII lower-casing only. Python's `str.lower` also folds non-ASCII letters.
- Errors.Cause: an error's detail is only its underlying cause. The fixed message prefixes the guards add are dropped (for example "向目标 URL 发送请求时出错: " or "克隆仓库时出错: "). So is the "502: " that `str()` puts before the detail of an HTTPException. The fixed messages that are whole details or causes (503 at app/main.py:244, 313, 321, 213) use the source's own text.
- Routing.ShapedFromProperties: "host" is dropped only under that exact name. Inbound names are lower case because the server delivers them so, but `Http.Headers` does not enforce it. The lemma states the case-insensitive fact only for inbound maps with lower-case names.

## Findings

| source | as written | input that shows it | evidently intended | confidence | as-written member | corrected member |
|---|---|---|---|---|---|---|
| app/main.py:437 | the HTTPException(502) raised for an httpx.RequestError is inside the outer `try` (405), whose `except Exception` (497) catches it and raises HTTPException(500) instead | a target whose host does not resolve: httpx raises ConnectError, a RequestError, and the caller receives 500 | the caller receives 502 with the cause, as the inner guard chose; an `except HTTPException: raise` before line 497 gives that | not executed; high, because FastAPI's HTTPException is a subclass of Exception | `Errors.TransportErrorMaskedAsWritten` | `Errors.OuterGuard` |

The handler in the model (`Proxy.Relay`, used by `Proxy.Handle`) uses the
corrected guard.

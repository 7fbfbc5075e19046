/** The on-disk response cache: files in the cache directory named by the
    MD5 digest of the target URL, with a ".zip" variant for repository
    archives.  Entries are created and never removed. */
module Cache {
  import opened Wrappers
  import opened Http

  predicate IsHexDigit(c: char) {
    '0' <= c <= '9' || 'a' <= c <= 'f'
  }

  /** `hashlib.md5(url.encode()).hexdigest()`: 32 lower-case hex digits. */
  type Digest = s: string | |s| == 32 && forall i :: 0 <= i < |s| ==> IsHexDigit(s[i])
    witness "00000000000000000000000000000000"

  /** The plain body entry, or the archive entry `with_suffix(".zip")`. */
  datatype Variant = Body | Zip

  /** The file name of an entry inside the cache directory
      (app/main.py:124-125, 280, 324).  A hex digest has no '.', so
      `with_suffix(".zip")` appends the suffix rather than replacing one. */
  function FileName(key: Digest, v: Variant): string {
    if v == Zip then key + ".zip" else key
  }

  /** Distinct (digest, variant) pairs name distinct files: in particular the
      archive entry of a URL never shares a file with its plain entry, so the
      cache may be kept as a map on those pairs. */
  lemma FileNameInjective(k1: Digest, v1: Variant, k2: Digest, v2: Variant)
    requires FileName(k1, v1) == FileName(k2, v2)
    ensures k1 == k2 && v1 == v2
  {
    assert |FileName(k1, v1)| == if v1 == Zip then 36 else 32;
    assert |FileName(k2, v2)| == if v2 == Zip then 36 else 32;
    assert FileName(k1, v1)[..32] == k1;
    assert FileName(k2, v2)[..32] == k2;
  }

  /** How writing an entry ends: `mkdir` of the directory can fail before
      any file exists; `open(..., "wb")` creates the file, so a write that
      fails later leaves the bytes written so far. */
  datatype WriteOutcome =
    | Written
    | DirFailed(cause: string)
    | WriteFailed(written: nat, cause: string)

  /** What the entry holds after a write attempt, if it exists at all. */
  function Persisted(data: Bytes, w: WriteOutcome): (kept: Option<Bytes>)
    ensures w.Written? ==> kept == Some(data)
    ensures w.DirFailed? <==> kept.None?
    ensures kept.Some? ==> kept.value <= data
  {
    match w
    case Written => Some(data)
    case DirFailed(_) => None
    case WriteFailed(n, _) => Some(data[..if n < |data| then n else |data|])
  }

  /** The entries map after attempting to write `data` under `e`. */
  function AfterWrite(entries: map<(Digest, Variant), Bytes>, e: (Digest, Variant), data: Bytes, w: WriteOutcome)
    : (after: map<(Digest, Variant), Bytes>)
    ensures after.Keys <= entries.Keys + {e}
    ensures forall x :: x in entries && x != e ==> x in after && after[x] == entries[x]
    ensures w.Written? ==> e in after && after[e] == data
  {
    match Persisted(data, w)
    case None => entries
    case Some(kept) => entries[e := kept]
  }

  /** The cache directory.  `digest` is the URL hash, taken as given and
      deterministic; no injectivity is assumed. */
  class CacheStore {
    const digest: string -> Digest
    var entries: map<(Digest, Variant), Bytes>

    constructor (digest: string -> Digest)
      ensures this.digest == digest && entries == map[]
    {
      this.digest := digest;
      entries := map[];
    }

    /** `get_cache_path(url)` (app/main.py:113-125), as the digest part of
        the path. */
    function KeyOf(url: string): Digest {
      digest(url)
    }

    /** `path.exists()` followed by serving the file: the stored bytes, or
        None when there is no such entry. */
    method Lookup(key: Digest, v: Variant) returns (found: Option<Bytes>)
      ensures found.Some? <==> (key, v) in entries
      ensures found.Some? ==> found.value == entries[(key, v)]
    {
      if (key, v) in entries {
        found := Some(entries[(key, v)]);
      } else {
        found := None;
      }
    }

    /** Writing an entry: `open(...).write` (app/main.py:457-461) or
        `shutil.copy2` (328-331).  Returns the cause when the write failed. */
    method Store(key: Digest, v: Variant, data: Bytes, w: WriteOutcome) returns (failure: Option<string>)
      modifies this
      ensures entries == AfterWrite(old(entries), (key, v), data, w)
      ensures failure.None? <==> w.Written?
      ensures failure.Some? ==> failure.value == w.cause
    {
      match Persisted(data, w) {
        case None =>
        case Some(kept) => entries := entries[(key, v) := kept];
      }
      failure := if w.Written? then None else Some(w.cause);
    }
  }
}

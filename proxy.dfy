/** The catch-all handler `proxy_github` (app/main.py:233-502) over the
    cache store and the clone workspace.  The httpx client, the clone
    subprocess, the archiver and the file writes are replaced by their
    outcomes, given in `Env`.

    Each branch is specified by a relation between the disk before and
    after and the reply (CloneStep, ProxiedStep); the methods are proved to
    satisfy them and the lemmas below state what the relations promise. */
module Proxy {
  import opened Wrappers
  import opened Text
  import opened Errors
  import opened Http
  import opened Routing
  import opened Cache
  import opened Workspace

  /** Everything the outside world decides for one request. */
  datatype Env = Env(
    tempDir: string,       // the directory mkdtemp creates
    clone: CloneRun,       // how `git clone` ends
    pack: Packing,         // how make_archive ends
    write: WriteOutcome,   // how writing the cache entry ends
    upstream: Upstream)    // what `client.request(...)` returns or raises

  /** A snapshot of the state the clone branch touches. */
  datatype Disk = Disk(
    entries: map<(Digest, Variant), Bytes>,
    dirs: set<string>,
    archives: map<string, Bytes>)

  const NotReady := "服务暂时不可用，请稍后重试"

  /** The reply for an upstream answer that is not cached
      (app/main.py:435-445, 471-486, with the outer guard as intended). */
  function Relay(up: Upstream): (r: Reply)
    ensures up.Threw? ==> r == Failed(if up.error.RequestError? then 502 else 500, Cause(up.error))
    ensures up.Replied? ==> r == Streamed(up.status, up.body, up.headers, ContentType(up.headers))
  {
    match up
    case Threw(e) => ErrorReply(OuterGuard(SendGuard(e)))
    case Replied(status, headers, body) => Streamed(status, body, headers, ContentType(headers))
  }

  /** The cache only grows: no entry is ever changed or removed. */
  ghost predicate GrowsOnly(before: map<(Digest, Variant), Bytes>, after: map<(Digest, Variant), Bytes>) {
    forall e :: e in before ==> e in after && after[e] == before[e]
  }

  /** The clone branch (app/main.py:275-345) for a URL with digest `key`
      and download name `name`. */
  ghost predicate CloneStep(key: Digest, name: string, env: Env, before: Disk, after: Disk, reply: Reply) {
    var e := (key, Zip);
    if e in before.entries then
      reply == Archive(before.entries[e], name) && after == before
    else if !CloneSucceeded(env.clone) then
      reply == Failed(500, CloneFailureCause(env.clone)) && after == before
    else match env.pack
      case PackFailed =>
        reply == Failed(500, PackFailedCause) && after == before.(dirs := before.dirs + {env.tempDir})
      case PackVanished =>
        reply == Failed(500, MissingArchiveCause(env.tempDir)) && after == before
      case Packed(archive) =>
        && after == Disk(AfterWrite(before.entries, e, archive, env.write),
                         before.dirs,
                         before.archives[env.tempDir + ".zip" := archive])
        && reply == (if env.write.Written? then Archive(archive, name) else Failed(500, env.write.cause))
  }

  /** Every branch after the clone test (app/main.py:347-502) for a URL
      with digest `key`. */
  ghost predicate ProxiedStep(key: Digest, url: string, req: Request, env: Env,
                              before: map<(Digest, Variant), Bytes>, after: map<(Digest, Variant), Bytes>,
                              reply: Reply, sent: Option<Outbound>)
  {
    var e := (key, Body);
    var isGit := IsGitRequest(url);
    if req.verb == GET && !isGit && e in before then
      reply == Cached(before[e]) && sent == None && after == before
    else
      && sent.Some?
      && sent.value == Outbound(req.verb, url, sent.value.headers, ForwardedBody(req.verb, req.body), req.query)
      && ShapedFrom(req.headers, isGit, sent.value.headers)
      && if req.verb == GET && !isGit && env.upstream.Replied? && env.upstream.status == 200 then
           && after == AfterWrite(before, e, env.upstream.body, env.write)
           && reply == (if env.write.Written? then Fresh(200, env.upstream.body, env.upstream.headers)
                        else Failed(500, env.write.cause))
         else
           reply == Relay(env.upstream) && after == before
  }

  /** The clone branch. */
  method ServeClone(store: CacheStore, scratch: Scratch, url: string, env: Env) returns (reply: Reply)
    requires env.tempDir !in scratch.dirs
    modifies store, scratch
    ensures CloneStep(store.KeyOf(url), DownloadName(url), env,
                      Disk(old(store.entries), old(scratch.dirs), old(scratch.archives)),
                      Disk(store.entries, scratch.dirs, scratch.archives), reply)
  {
    var key := store.KeyOf(url);
    var cached := store.Lookup(key, Zip);
    if cached.Some? {
      reply := Archive(cached.value, DownloadName(url));
      return;
    }
    var repo := scratch.CloneRepo(env.tempDir, env.clone);
    if repo.Err? {
      reply := ErrorReply(InternalGuard(OtherError(repo.error)));
      return;
    }
    var zip := scratch.Package(repo.value, env.pack);
    if zip.Err? {
      reply := ErrorReply(InternalGuard(OtherError(zip.error)));
      return;
    }
    assert CloneSucceeded(env.clone) && env.pack.Packed? && (key, Zip) !in old(store.entries);
    assert scratch.dirs == old(scratch.dirs)
      && scratch.archives == old(scratch.archives)[env.tempDir + ".zip" := env.pack.archive];
    var failure := store.Store(key, Zip, zip.value, env.write);
    if failure.Some? {
      reply := ErrorReply(InternalGuard(OtherError(failure.value)));
      return;
    }
    reply := Archive(zip.value, DownloadName(url));
  }

  /** The plain cache lookup for GETs of non-git URLs, otherwise the
      forwarded request, whose 200 answers to such GETs are stored first. */
  method ServeProxied(store: CacheStore, url: string, req: Request, env: Env)
    returns (reply: Reply, sent: Option<Outbound>)
    modifies store
    ensures ProxiedStep(store.KeyOf(url), url, req, env, old(store.entries), store.entries, reply, sent)
  {
    sent := None;
    var isGit := IsGitRequest(url);
    var headers := PrepareHeaders(req.headers, isGit);
    var params := req.query;
    var key := store.KeyOf(url);
    if req.verb == GET && !isGit {
      var cached := store.Lookup(key, Body);
      if cached.Some? {
        reply := Cached(cached.value);
        return;
      }
    }
    var body := ForwardedBody(req.verb, req.body);
    sent := Some(Outbound(req.verb, url, headers, body, params));
    match env.upstream {
      case Threw(e) =>
        reply := Relay(env.upstream);
      case Replied(status, responseHeaders, content) =>
        if req.verb == GET && status == 200 && !isGit {
          var failure := store.Store(key, Body, content, env.write);
          if failure.Some? {
            reply := ErrorReply(OuterGuard(InternalGuard(OtherError(failure.value))));
          } else {
            reply := Fresh(status, content, responseHeaders);
          }
        } else {
          reply := Relay(env.upstream);
        }
    }
  }

  /** One request through the handler.  `clientReady` is whether the shared
      httpx client has been created; `sent` is the request forwarded
      upstream, if any. */
  method Handle(store: CacheStore, scratch: Scratch, clientReady: bool, req: Request, env: Env)
    returns (reply: Reply, sent: Option<Outbound>)
    requires env.tempDir !in scratch.dirs
    modifies store, scratch
    ensures GrowsOnly(old(store.entries), store.entries)
    ensures !clientReady ==>
              reply == Failed(503, NotReady) && sent == None
              && unchanged(store) && unchanged(scratch)
    ensures clientReady && IsGitCloneRequest(NormaliseUrl(req.path), req.verb) ==>
              var url := NormaliseUrl(req.path);
              sent == None
              && CloneStep(store.KeyOf(url), DownloadName(url), env,
                           Disk(old(store.entries), old(scratch.dirs), old(scratch.archives)),
                           Disk(store.entries, scratch.dirs, scratch.archives), reply)
    ensures clientReady && !IsGitCloneRequest(NormaliseUrl(req.path), req.verb) ==>
              var url := NormaliseUrl(req.path);
              unchanged(scratch)
              && ProxiedStep(store.KeyOf(url), url, req, env, old(store.entries), store.entries, reply, sent)
  {
    sent := None;
    if !clientReady {
      reply := Failed(503, NotReady);
      return;
    }
    var url := NormaliseUrl(req.path);
    ghost var before := Disk(store.entries, scratch.dirs, scratch.archives);
    if IsGitCloneRequest(url, req.verb) {
      reply := ServeClone(store, scratch, url, env);
      CloneStepGrowsOnly(store.KeyOf(url), DownloadName(url), env, before,
                         Disk(store.entries, scratch.dirs, scratch.archives), reply);
      return;
    }
    reply, sent := ServeProxied(store, url, req, env);
    ProxiedStepGrowsOnly(store.KeyOf(url), url, req, env, before.entries, store.entries, reply, sent);
  }

  // ---------------------------------------------------------------------
  // What the clone branch promises

  /** The clone branch only ever adds the archive entry of its own URL. */
  lemma CloneStepGrowsOnly(key: Digest, name: string, env: Env, before: Disk, after: Disk, reply: Reply)
    requires CloneStep(key, name, env, before, after, reply)
    ensures GrowsOnly(before.entries, after.entries)
    ensures after.entries.Keys <= before.entries.Keys + {(key, Zip)}
  {
  }

  /** A stored archive is served without cloning; otherwise a successful
      clone, archive and copy stores the archive under the same digest and
      serves it; every failure is a 500 that does not touch the cache,
      except a failed copy, which may leave a truncated archive entry. */
  lemma CloneStepOutcome(key: Digest, name: string, env: Env, before: Disk, after: Disk, reply: Reply)
    requires CloneStep(key, name, env, before, after, reply)
    ensures (key, Zip) in before.entries ==> reply == Archive(before.entries[(key, Zip)], name) && after == before
    ensures (key, Zip) !in before.entries && CloneSucceeded(env.clone) && env.pack.Packed? && env.write.Written? ==>
              reply == Archive(env.pack.archive, name)
              && after.entries == before.entries[(key, Zip) := env.pack.archive]
    ensures reply.Archive? || (reply.Failed? && StatusOf(reply) == 500)
    ensures reply.Failed? && !(env.pack.Packed? && env.write.WriteFailed?) ==> after.entries == before.entries
  {
    if (key, Zip) !in before.entries && CloneSucceeded(env.clone) && env.pack.Packed? && env.write.Written? {
      assert after.entries == before.entries[(key, Zip) := env.pack.archive];
    }
  }

  /** A failed clone leaves no temporary directory behind and creates no
      entry; a failed archiving step leaves the clone directory behind. */
  lemma CloneFailureCleanup(key: Digest, name: string, env: Env, before: Disk, after: Disk, reply: Reply)
    requires CloneStep(key, name, env, before, after, reply)
    requires (key, Zip) !in before.entries
    ensures !CloneSucceeded(env.clone) ==> reply.Failed? && StatusOf(reply) == 500 && after == before
    ensures CloneSucceeded(env.clone) && !env.pack.PackFailed? ==> after.dirs == before.dirs
    ensures CloneSucceeded(env.clone) && env.pack.PackFailed? ==> after.dirs == before.dirs + {env.tempDir}
  {
  }

  /** A served archive of a repository URL is offered under a plain file
      name ending in ".zip". */
  lemma ArchiveNameOfRepository(url: string, key: Digest, env: Env, before: Disk, after: Disk, reply: Reply)
    requires EndsWith(url, ".git")
    requires CloneStep(key, DownloadName(url), env, before, after, reply)
    ensures reply.Archive? ==> EndsWith(reply.filename, ".zip") && '/' !in reply.filename
  {
    DownloadNameOfRepository(url);
  }

  // ---------------------------------------------------------------------
  // What the forwarding branches promise

  /** These branches only ever add the plain entry of their own URL. */
  lemma ProxiedStepGrowsOnly(key: Digest, url: string, req: Request, env: Env,
                             before: map<(Digest, Variant), Bytes>, after: map<(Digest, Variant), Bytes>,
                             reply: Reply, sent: Option<Outbound>)
    requires ProxiedStep(key, url, req, env, before, after, reply, sent)
    ensures GrowsOnly(before, after)
    ensures after.Keys <= before.Keys + {(key, Body)}
  {
  }

  /** The cache changes only on a missed GET of a non-git URL answered with
      200; a cache hit sends nothing upstream; every other request is
      forwarded. */
  lemma CacheWrittenOnlyOnPlain200(key: Digest, url: string, req: Request, env: Env,
                                   before: map<(Digest, Variant), Bytes>, after: map<(Digest, Variant), Bytes>,
                                   reply: Reply, sent: Option<Outbound>)
    requires ProxiedStep(key, url, req, env, before, after, reply, sent)
    ensures after != before ==>
              && req.verb == GET && !IsGitRequest(url) && (key, Body) !in before
              && env.upstream.Replied? && env.upstream.status == 200
              && !env.write.DirFailed?
    ensures sent.None? <==> req.verb == GET && !IsGitRequest(url) && (key, Body) in before
  {
  }

  /** A git request never reads the plain cache nor writes it, whatever the
      answer: it is always forwarded and the answer relayed. */
  lemma GitRequestBypassesCache(key: Digest, url: string, req: Request, env: Env,
                                before: map<(Digest, Variant), Bytes>, after: map<(Digest, Variant), Bytes>,
                                reply: Reply, sent: Option<Outbound>)
    requires ProxiedStep(key, url, req, env, before, after, reply, sent)
    requires IsGitRequest(url)
    ensures after == before
    ensures sent.Some? && reply == Relay(env.upstream)
    ensures "content-length" !in sent.value.headers && "host" !in sent.value.headers
    ensures HasKeyIgnoringCase(sent.value.headers, "git-protocol")
    ensures HasKeyIgnoringCase(sent.value.headers, "user-agent")
  {
    ShapedFromProperties(req.headers, true, sent.value.headers);
  }

  /** A miss answered with 200 and written whole stores exactly the
      upstream body and replies with it. */
  lemma MissStoresBody(key: Digest, url: string, req: Request, env: Env,
                       before: map<(Digest, Variant), Bytes>, after: map<(Digest, Variant), Bytes>,
                       reply: Reply, sent: Option<Outbound>)
    requires ProxiedStep(key, url, req, env, before, after, reply, sent)
    requires req.verb == GET && !IsGitRequest(url) && (key, Body) !in before
    requires env.upstream.Replied? && env.upstream.status == 200 && env.write.Written?
    ensures after == before[(key, Body) := env.upstream.body]
    ensures reply == Fresh(200, env.upstream.body, env.upstream.headers)
  {
    assert after == before[(key, Body) := env.upstream.body];
  }

  /** A transport error is answered with 502 carrying its cause and leaves
      the cache as it was. */
  lemma TransportErrorIs502(key: Digest, url: string, req: Request, env: Env,
                            before: map<(Digest, Variant), Bytes>, after: map<(Digest, Variant), Bytes>,
                            reply: Reply, sent: Option<Outbound>)
    requires ProxiedStep(key, url, req, env, before, after, reply, sent)
    requires env.upstream.Threw? && env.upstream.error.RequestError?
    requires sent.Some?
    ensures reply == Failed(502, env.upstream.error.message)
    ensures after == before
  {
  }

  /** Two GETs of the same plain URL: once the first has been answered with
      200 and stored, or served from the cache, the second is served from
      the cache with the same bytes and sends nothing upstream. */
  lemma SecondGetHitsCache(key: Digest, url: string, req: Request, env1: Env, env2: Env,
                           e0: map<(Digest, Variant), Bytes>, e1: map<(Digest, Variant), Bytes>,
                           e2: map<(Digest, Variant), Bytes>,
                           reply1: Reply, sent1: Option<Outbound>, reply2: Reply, sent2: Option<Outbound>)
    requires req.verb == GET && !IsGitRequest(url)
    requires env1.upstream.Replied? && env1.upstream.status == 200 && env1.write.Written?
    requires ProxiedStep(key, url, req, env1, e0, e1, reply1, sent1)
    requires ProxiedStep(key, url, req, env2, e1, e2, reply2, sent2)
    ensures reply1.Cached? || reply1.Fresh?
    ensures reply2 == Cached(reply1.body) && sent2 == None && e2 == e1
  {
    if (key, Body) !in e0 {
      MissStoresBody(key, url, req, env1, e0, e1, reply1, sent1);
    }
  }
}

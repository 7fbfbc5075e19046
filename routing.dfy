/** The pure decisions of the catch-all handler `proxy_github`: where a
    request goes, what kind of request it is, and what is forwarded. */
module Routing {
  import opened Text
  import opened Wrappers
  import opened Http

  /** The target URL for an inbound path (app/main.py:250-258).  A path that
      already carries an http(s) scheme is used as it is, a path starting
      with "github.com" gets "https://" in front, and any other path passes
      through unchanged: no path is ever rejected (is_valid_url, 128-142,
      accepts everything). */
  function NormaliseUrl(path: string): (url: string)
    ensures url == path || url == "https://" + path
    ensures url != path <==> StartsWith(path, "github.com")
    ensures EndsWith(url, path)
  {
    assert StartsWith(path, "github.com") ==> path[0] == 'g';
    if !(StartsWith(path, "http://") || StartsWith(path, "https://")) && StartsWith(path, "github.com")
    then "https://" + path
    else path
  }

  /** Normalising an already normalised URL changes nothing. */
  lemma NormaliseIdempotent(path: string)
    ensures NormaliseUrl(NormaliseUrl(path)) == NormaliseUrl(path)
  {
    var url := NormaliseUrl(path);
    if url != path {
      assert url[..|"https://"|] == "https://";
      assert !StartsWith(url, "github.com") by {
        assert url[0] == 'h';
      }
    }
  }

  /** The three branches of the normalisation: a path with an http(s)
      scheme is used as it is, a github.com path gets "https://" in front,
      and the target has a scheme exactly when the path had one or named
      github.com. */
  lemma NormaliseUrlBranches(path: string)
    ensures StartsWith(path, "http://") || StartsWith(path, "https://") ==> NormaliseUrl(path) == path
    ensures StartsWith(path, "github.com") ==> NormaliseUrl(path) == "https://" + path
    ensures var url := NormaliseUrl(path);
      StartsWith(url, "http://") || StartsWith(url, "https://")
      <==> StartsWith(path, "http://") || StartsWith(path, "https://") || StartsWith(path, "github.com")
  {
    var url := NormaliseUrl(path);
    if StartsWith(path, "github.com") {
      assert path[0] == 'g';
      assert url[..|"https://"|] == "https://";
    }
  }

  /** The substrings that mark a live smart-protocol exchange. */
  predicate HasGitMarker(url: string) {
    Contains(url, "/info/refs") || Contains(url, "/git-upload-pack") || Contains(url, "/git-receive-pack")
  }

  /** `is_git_clone_request` (app/main.py:267-273). */
  predicate IsGitCloneRequest(url: string, verb: Method) {
    EndsWith(url, ".git") && !HasGitMarker(url) && verb == GET
  }

  /** `is_git_request` (app/main.py:348-353). */
  predicate IsGitRequest(url: string) {
    EndsWith(url, ".git") || HasGitMarker(url)
  }

  /** The three ways the handler treats a request. */
  datatype RequestClass = GitClone | GitProtocol | Plain

  /** The branch the handler takes: the clone test first
      (app/main.py:275), then the git-request test (348-355). */
  function Classify(url: string, verb: Method): RequestClass {
    if IsGitCloneRequest(url, verb) then GitClone
    else if IsGitRequest(url) then GitProtocol
    else Plain
  }

  /** Every clone request is also a git request, and what is left for the
      git-protocol branch is exactly: a marker in the URL, or a URL ending in
      ".git" asked for with a method other than GET. */
  lemma ClassifyCharacterised(url: string, verb: Method)
    ensures IsGitCloneRequest(url, verb) ==> IsGitRequest(url)
    ensures Classify(url, verb) == Plain <==> !IsGitRequest(url)
    ensures Classify(url, verb) == GitProtocol <==> HasGitMarker(url) || (EndsWith(url, ".git") && verb != GET)
    ensures Classify(url, verb) == GitClone <==> IsGitCloneRequest(url, verb)
  {
  }

  /** `{k.lower() for k in headers.keys()}` */
  function LowerKeys(h: Headers): set<string> {
    set k | k in h :: Lower(k)
  }

  /** Every name is already lower case, as inbound header names are. */
  predicate LowerCaseNames(h: Headers) {
    forall k :: k in h ==> Lower(k) == k
  }

  /** Some header name equals `name` case-insensitively. */
  predicate HasKeyIgnoringCase(h: Headers, name: string) {
    name in LowerKeys(h)
  }

  /** The outbound headers of app/main.py:361-386, stated key by key:
      "host" is dropped; for git requests "Git-Protocol: version=2" and
      "User-Agent: git/2.0.0" are added when no name matches them
      case-insensitively, and "content-length" is dropped; every other
      inbound header keeps its name and value. */
  ghost predicate ShapedFrom(inbound: Headers, isGit: bool, h: Headers) {
    var base := inbound - {"host"};
    if !isGit then h == base
    else
      var addProtocol := !HasKeyIgnoringCase(base, "git-protocol");
      var addAgent := !HasKeyIgnoringCase(base, "user-agent");
      && h.Keys == (base.Keys - {"content-length"})
                   + (if addProtocol then {"Git-Protocol"} else {})
                   + (if addAgent then {"User-Agent"} else {})
      && (forall k :: k in base && k != "content-length" ==> k in h && h[k] == base[k])
      && (addProtocol ==> h["Git-Protocol"] == "version=2")
      && (addAgent ==> h["User-Agent"] == "git/2.0.0")
  }

  lemma LowerOfAddedNames()
    ensures Lower("Git-Protocol") == "git-protocol"
    ensures Lower("User-Agent") == "user-agent"
  {
    assert Lower("Git-Protocol")[0] == 'g';
    assert Lower("Git-Protocol")[4] == 'p';
    assert Lower("User-Agent")[0] == 'u';
    assert Lower("User-Agent")[5] == 'a';
  }

  /** Adding a header whose lower-cased name is not `name` does not change
      whether some name matches `name`. */
  lemma HasKeyAfterAdd(h: Headers, k: string, v: string, name: string)
    requires Lower(k) != name
    ensures HasKeyIgnoringCase(h[k := v], name) == HasKeyIgnoringCase(h, name)
  {
    assert LowerKeys(h[k := v]) == LowerKeys(h) + {Lower(k)};
  }

  /** Header preparation of app/main.py:361-386, updating one dictionary in
      place as the source does. */
  method PrepareHeaders(inbound: Headers, isGit: bool) returns (headers: Headers)
    ensures ShapedFrom(inbound, isGit, headers)
  {
    headers := inbound;
    headers := headers - {"host"};
    if isGit {
      ghost var base := headers;
      LowerOfAddedNames();
      if "git-protocol" !in LowerKeys(headers) {
        assert "Git-Protocol" !in base;
        HasKeyAfterAdd(headers, "Git-Protocol", "version=2", "user-agent");
        headers := headers["Git-Protocol" := "version=2"];
      }
      if "user-agent" !in LowerKeys(headers) {
        assert "User-Agent" !in base;
        headers := headers["User-Agent" := "git/2.0.0"];
      }
      headers := headers - {"content-length"};
    }
  }

  /** What the shaping guarantees of the headers it forwards: "host" is
      never sent; on git requests a protocol version and a user agent are
      always present (in whatever case the client wrote them) and
      "content-length" is not; every other inbound header is sent unchanged. */
  lemma ShapedFromProperties(inbound: Headers, isGit: bool, h: Headers)
    requires ShapedFrom(inbound, isGit, h)
    ensures "host" !in h
    ensures isGit ==> "content-length" !in h
    ensures isGit ==> HasKeyIgnoringCase(h, "git-protocol") && HasKeyIgnoringCase(h, "user-agent")
    ensures forall k :: k in inbound && k != "host" && (isGit ==> k != "content-length") ==> k in h && h[k] == inbound[k]
    ensures !isGit ==> forall k :: k in h ==> k in inbound
    ensures LowerCaseNames(inbound) ==> !HasKeyIgnoringCase(h, "host")
  {
    if LowerCaseNames(inbound) {
      LowerOfAddedNames();
      forall k | k in h
        ensures Lower(k) != "host"
      {
        if k in inbound {
          assert Lower(k) == k;
        } else {
          assert k == "Git-Protocol" || k == "User-Agent";
        }
      }
    }
    if isGit {
      var base := inbound - {"host"};
      LowerOfAddedNames();
      if HasKeyIgnoringCase(base, "git-protocol") {
        var k :| k in base && Lower(k) == "git-protocol";
        assert k != "content-length";
        assert Lower(k) in LowerKeys(h);
      } else {
        assert Lower("Git-Protocol") in LowerKeys(h);
      }
      if HasKeyIgnoringCase(base, "user-agent") {
        var k :| k in base && Lower(k) == "user-agent";
        assert k != "content-length";
        assert Lower(k) in LowerKeys(h);
      } else {
        assert Lower("User-Agent") in LowerKeys(h);
      }
    }
  }

  /** The shaping is a function of the inbound headers: two header maps
      shaped from the same inbound headers are equal. */
  lemma ShapedFromUnique(inbound: Headers, isGit: bool, h1: Headers, h2: Headers)
    requires ShapedFrom(inbound, isGit, h1) && ShapedFrom(inbound, isGit, h2)
    ensures h1 == h2
  {
    if isGit {
      var base := inbound - {"host"};
      LowerOfAddedNames();
      forall k | k in h1
        ensures h1[k] == h2[k]
      {
        if k in base && k != "content-length" {
        } else if k == "Git-Protocol" {
          assert !HasKeyIgnoringCase(base, "git-protocol");
        } else {
          assert k == "User-Agent";
          assert !HasKeyIgnoringCase(base, "user-agent");
        }
      }
    }
  }

  /** The body forwarded upstream (app/main.py:407-414): only POST, PUT and
      PATCH send one, and only when reading it succeeded; a failed read is
      logged and the request goes on without a body. */
  function ForwardedBody(verb: Method, read: Option<Bytes>): (body: Option<Bytes>)
    ensures body.Some? <==> verb in {POST, PUT, PATCH} && read.Some?
    ensures body.Some? ==> body == read
  {
    if verb in {POST, PUT, PATCH} then read else None
  }

  /** The download name of a repository archive (app/main.py:284, 337):
      the URL's basename with every ".git" replaced by ".zip". */
  function DownloadName(url: string): string {
    ReplaceAll(Basename(url), ".git", ".zip")
  }

  /** For a repository URL the download name is a plain file name ending in
      ".zip", as long as the URL's basename, in which no ".git" is left. */
  lemma DownloadNameOfRepository(url: string)
    requires EndsWith(url, ".git")
    ensures EndsWith(DownloadName(url), ".zip")
    ensures '/' !in DownloadName(url)
    ensures |DownloadName(url)| == |Basename(url)|
    ensures !Contains(DownloadName(url), ".git")
  {
    NoGitSurvives(Basename(url));
    BasenameKeepsTail(url, ".git");
    ReplaceGitEndsWithZip(Basename(url));
    ReplaceGitKeepsSlashFree(Basename(url));
    ReplaceAllLength(Basename(url), ".git", ".zip");
  }
}

/** String operations the proxy handler applies to URLs, header names and
    file names, written to match the Python built-ins it calls. */
module Text {

  /** `s.startswith(prefix)` */
  predicate StartsWith(s: string, prefix: string) {
    |prefix| <= |s| && s[..|prefix|] == prefix
  }

  /** `s.endswith(suffix)` */
  predicate EndsWith(s: string, suffix: string) {
    |suffix| <= |s| && s[|s| - |suffix|..] == suffix
  }

  /** `sub in s`: `sub` occurs somewhere in `s` as a contiguous substring. */
  predicate Contains(s: string, sub: string) {
    exists i :: 0 <= i <= |s| - |sub| && OccursAt(s, sub, i)
  }

  /** `sub` occurs in `s` starting at index `i`. */
  predicate OccursAt(s: string, sub: string, i: int)
    requires 0 <= i <= |s| - |sub|
  {
    s[i..i + |sub|] == sub
  }

  /** `c.lower()` on the ASCII letters; every other character is kept. */
  function LowerChar(c: char): char {
    if 'A' <= c <= 'Z' then (c as int + 32) as char else c
  }

  /** `s.lower()`, restricted to ASCII case mapping. */
  function Lower(s: string): (r: string)
    ensures |r| == |s|
    ensures forall i :: 0 <= i < |s| ==> r[i] == LowerChar(s[i])
  {
    seq(|s|, i requires 0 <= i < |s| => LowerChar(s[i]))
  }

  /** `os.path.basename(path)`: everything after the last '/'. */
  function Basename(path: string): (name: string)
    ensures EndsWith(path, name)
    ensures '/' !in name
    ensures |name| < |path| ==> path[|path| - |name| - 1] == '/'
  {
    if path == [] || path[|path| - 1] == '/' then []
    else Basename(path[..|path| - 1]) + [path[|path| - 1]]
  }

  /** `s.replace(pat, rep)`: every non-overlapping occurrence of `pat`,
      scanning left to right, is replaced by `rep`. */
  function ReplaceAll(s: string, pat: string, rep: string): string
    requires pat != []
    decreases |s|
  {
    if |s| < |pat| then s
    else if s[..|pat|] == pat then rep + ReplaceAll(s[|pat|..], pat, rep)
    else [s[0]] + ReplaceAll(s[1..], pat, rep)
  }

  /** A name that ends in a slash-free `tail` has a basename ending in `tail`. */
  lemma {:induction false} BasenameKeepsTail(path: string, tail: string)
    requires EndsWith(path, tail)
    requires '/' !in tail
    ensures EndsWith(Basename(path), tail)
  {
    if tail != [] {
      var init := path[..|path| - 1];
      assert path[|path| - 1] == tail[|tail| - 1];
      assert init[|init| - (|tail| - 1)..] == tail[..|tail| - 1];
      BasenameKeepsTail(init, tail[..|tail| - 1]);
      assert Basename(path) == Basename(init) + [path[|path| - 1]];
    }
  }

  /** Replacing a pattern by one of the same length keeps the length. */
  lemma {:induction false} ReplaceAllLength(s: string, pat: string, rep: string)
    requires pat != [] && |rep| == |pat|
    ensures |ReplaceAll(s, pat, rep)| == |s|
  {
    if |s| < |pat| {
    } else if s[..|pat|] == pat {
      ReplaceAllLength(s[|pat|..], pat, rep);
    } else {
      ReplaceAllLength(s[1..], pat, rep);
    }
  }

  /** Replacing ".git" by ".zip" introduces no '/' characters. */
  lemma {:induction false} ReplaceGitKeepsSlashFree(s: string)
    requires '/' !in s
    ensures '/' !in ReplaceAll(s, ".git", ".zip")
  {
    if |s| < 4 {
    } else if s[..4] == ".git" {
      assert forall c :: c in s[4..] ==> c in s;
      ReplaceGitKeepsSlashFree(s[4..]);
    } else {
      assert forall c :: c in s[1..] ==> c in s;
      ReplaceGitKeepsSlashFree(s[1..]);
    }
  }

  /** ".git" cannot overlap itself: a string that both starts and ends with
      it and is longer than it has room for two whole copies. */
  lemma GitHasNoBorder(s: string)
    requires StartsWith(s, ".git") && EndsWith(s, ".git")
    ensures |s| == 4 || |s| >= 8
  {
    assert s[|s| - 4] == (".git")[0];
    assert forall i :: 0 <= i < 4 ==> s[i] == (".git")[i];
  }

  /** A name ending in ".git" ends in ".zip" once every ".git" is replaced:
      the left-to-right scan always reaches and replaces the final one. */
  lemma {:induction false} ReplaceGitEndsWithZip(s: string)
    requires EndsWith(s, ".git")
    ensures EndsWith(ReplaceAll(s, ".git", ".zip"), ".zip")
  {
    var r := ReplaceAll(s, ".git", ".zip");
    if s[..4] == ".git" {
      GitHasNoBorder(s);
      var tail := ReplaceAll(s[4..], ".git", ".zip");
      assert r == ".zip" + tail;
      if |s| > 4 {
        EndsWithDrop(s, ".git", 4);
        ReplaceGitEndsWithZip(s[4..]);
        EndsWithPrepend(".zip", tail, ".zip");
      }
    } else {
      var tail := ReplaceAll(s[1..], ".git", ".zip");
      assert r == [s[0]] + tail;
      EndsWithDrop(s, ".git", 1);
      ReplaceGitEndsWithZip(s[1..]);
      EndsWithPrepend([s[0]], tail, ".zip");
    }
  }

  /** Dropping a prefix that leaves the suffix whole keeps the suffix. */
  lemma EndsWithDrop(s: string, suffix: string, n: nat)
    requires EndsWith(s, suffix) && n + |suffix| <= |s|
    ensures EndsWith(s[n..], suffix)
  {
    assert s[n..][|s| - n - |suffix|..] == s[|s| - |suffix|..];
  }

  /** Prepending anything keeps a suffix. */
  lemma EndsWithPrepend(a: string, b: string, suffix: string)
    requires EndsWith(b, suffix)
    ensures EndsWith(a + b, suffix)
  {
    assert (a + b)[|a + b| - |suffix|..] == b[|b| - |suffix|..];
  }

  /** A dot-free prefix of the replaced string was already a prefix of the
      original: every replacement starts with '.'. */
  lemma {:induction false} DotFreePrefixKept(t: string, p: string)
    requires StartsWith(ReplaceAll(t, ".git", ".zip"), p)
    requires '.' !in p
    ensures StartsWith(t, p)
  {
    var r := ReplaceAll(t, ".git", ".zip");
    if p != [] && |t| >= 4 {
      ReplacedStartsWithDot(t);
      assert p[0] == r[0] && p[0] in p;
      assert t[..4] != ".git";
      var tail := ReplaceAll(t[1..], ".git", ".zip");
      assert r == [t[0]] + tail;
      PrefixOfCons(t[0], tail, p);
      assert forall c :: c in p[1..] ==> c in p;
      DotFreePrefixKept(t[1..], p[1..]);
      assert t[..|p|] == [t[0]] + t[1..][..|p| - 1];
    }
  }

  /** A non-empty prefix of `[c] + tail` is `c` followed by a prefix of `tail`. */
  lemma PrefixOfCons(c: char, tail: string, p: string)
    requires StartsWith([c] + tail, p) && p != []
    ensures p[0] == c && StartsWith(tail, p[1..])
  {
    assert ([c] + tail)[..|p|][1..] == tail[..|p| - 1];
  }

  /** A string starting with ".git" is replaced by one starting with '.'. */
  lemma ReplacedStartsWithDot(t: string)
    requires |t| >= 4
    ensures t[..4] == ".git" ==> ReplaceAll(t, ".git", ".zip")[0] == '.'
  {
    if t[..4] == ".git" {
      assert ReplaceAll(t, ".git", ".zip") == ".zip" + ReplaceAll(t[4..], ".git", ".zip");
    }
  }

  /** No ".git" survives `s.replace(".git", ".zip")`. */
  lemma {:induction false} NoGitSurvives(s: string)
    ensures !Contains(ReplaceAll(s, ".git", ".zip"), ".git")
  {
    var r := ReplaceAll(s, ".git", ".zip");
    if |s| < 4 {
    } else if s[..4] == ".git" {
      var tail := ReplaceAll(s[4..], ".git", ".zip");
      assert r == ".zip" + tail;
      NoGitSurvives(s[4..]);
      forall i | 0 <= i <= |r| - 4
        ensures !OccursAt(r, ".git", i)
      {
        if i >= 4 {
          OccursInSuffix(".zip", tail, ".git", i);
          assert !OccursAt(tail, ".git", i - 4);
        } else {
          assert r[i] == ".zip"[i] && r[i + 1] == (".zip" + tail)[i + 1];
          assert r[i..i + 4][0] == r[i] && r[i..i + 4][1] == r[i + 1];
        }
      }
    } else {
      var tail := ReplaceAll(s[1..], ".git", ".zip");
      assert r == [s[0]] + tail;
      NoGitSurvives(s[1..]);
      forall i | 0 <= i <= |r| - 4
        ensures !OccursAt(r, ".git", i)
      {
        if i >= 1 {
          OccursInSuffix([s[0]], tail, ".git", i);
          assert !OccursAt(tail, ".git", i - 1);
        } else if StartsWith(tail, "git") {
          DotFreePrefixKept(s[1..], "git");
          assert s[..4] == [s[0]] + s[1..][..3];
          assert r[0] == s[0] != '.';
        } else {
          assert r[1..4] == tail[..3];
        }
      }
    }
  }

  /** An occurrence inside the second part of a concatenation is an
      occurrence in that part. */
  lemma OccursInSuffix(a: string, b: string, sub: string, i: int)
    requires |a| <= i <= |a + b| - |sub|
    ensures OccursAt(a + b, sub, i) == OccursAt(b, sub, i - |a|)
  {
    assert (a + b)[i..i + |sub|] == b[i - |a|..i - |a| + |sub|];
  }
}

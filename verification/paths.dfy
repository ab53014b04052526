/** POSIX path helpers the two scripts rely on: the trailing-slash trim of
    `GenerateSizeDifference` and Python's `os.path.basename`,
    `os.path.dirname` and two-argument `os.path.join` on POSIX. */
module Paths {
  import opened Text

  /** `if p.endswith('/'): p = p[:-1]` -- at most one slash is removed. */
  function TrimTrailingSlash(p: string): (r: string)
    ensures |r| <= |p| <= |r| + 1
    ensures r == p[..|r|]
    ensures |r| < |p| <==> EndsWith(p, "/")
  {
    if EndsWith(p, "/") then p[..|p| - 1] else p
  }

  /** The position just after the last '/', or 0 when there is none. */
  function AfterLastSlash(p: string): (i: nat)
    ensures i <= |p|
    ensures i > 0 ==> p[i - 1] == '/'
    ensures forall j :: i <= j < |p| ==> p[j] != '/'
  {
    if |p| == 0 then 0
    else if p[|p| - 1] == '/' then |p|
    else AfterLastSlash(p[..|p| - 1])
  }

  /** `os.path.basename(p)`: the longest suffix without a '/'. */
  function Basename(p: string): (b: string)
    ensures '/' !in b
    ensures |b| <= |p| && p[|p| - |b|..] == b
    ensures |b| < |p| ==> p[|p| - |b| - 1] == '/'
  {
    p[AfterLastSlash(p)..]
  }

  predicate AllSlashes(s: string) {
    forall i :: 0 <= i < |s| ==> s[i] == '/'
  }

  /** `s.rstrip('/')`. */
  function RStripSlashes(s: string): (r: string)
    ensures |r| <= |s| && r == s[..|r|]
    ensures AllSlashes(s[|r|..])
    ensures |r| > 0 ==> r[|r| - 1] != '/'
  {
    if |s| == 0 || s[|s| - 1] != '/' then s else RStripSlashes(s[..|s| - 1])
  }

  /** `os.path.dirname(p)`: everything before the last '/', with the
      separating slashes removed unless the head consists of slashes only
      (so the root stays `/`). */
  function Dirname(p: string): (d: string)
    ensures |d| <= |p| && d == p[..|d|]
  {
    var head := p[..AfterLastSlash(p)];
    if head != "" && !AllSlashes(head) then RStripSlashes(head) else head
  }

  /** The directory part is empty exactly when the path has no '/': a bare
      file name has no directory to change into. */
  lemma DirnameEmptyIff(p: string)
    ensures Dirname(p) == "" <==> '/' !in p
  {
    var i := AfterLastSlash(p);
    if '/' in p {
      var k :| 0 <= k < |p| && p[k] == '/';
      assert i > 0;
    }
  }

  /** `os.path.join(a, b)` for two components on POSIX. */
  function PathJoin(a: string, b: string): (r: string)
    ensures EndsWith(r, b)
    ensures |b| > 0 && b[0] == '/' ==> r == b
  {
    if |b| > 0 && b[0] == '/' then b
    else if a == "" || EndsWith(a, "/") then a + b
    else a + "/" + b
  }

  /** No two slashes in a row. */
  predicate SingleSlashes(p: string) {
    forall i :: 0 <= i < |p| - 1 ==> !(p[i] == '/' && p[i + 1] == '/')
  }

  /** Joining the directory part and the file part gives the path back,
      when the path has no doubled slash. */
  lemma JoinDirnameBasename(p: string)
    requires SingleSlashes(p)
    ensures PathJoin(Dirname(p), Basename(p)) == p
  {
    var i := AfterLastSlash(p);
    var b := Basename(p);
    assert b == p[i..];
    assert |b| > 0 ==> b[0] != '/';
    if i == 0 {
      assert Dirname(p) == "" by {
        assert p[..i] == "";
      }
      assert p == b;
    } else if i == 1 {
      assert Dirname(p) == "/" by {
        assert p[..i] == "/";
      }
      assert p == "/" + b;
    } else {
      var d := p[..i - 1];
      assert Dirname(p) == d by {
        DirnameBeforeSlash(p);
      }
      assert d[|d| - 1] != '/';
      assert PathJoin(d, b) == d + "/" + b;
      assert p == d + "/" + b;
    }
  }

  /** With a single slash before the file part, the directory part is
      everything before that slash. */
  lemma DirnameBeforeSlash(p: string)
    requires SingleSlashes(p) && AfterLastSlash(p) >= 2
    ensures Dirname(p) == p[..AfterLastSlash(p) - 1]
  {
    var i := AfterLastSlash(p);
    var head := p[..i];
    assert p[i - 2] != '/';
    assert !AllSlashes(head) by {
      assert head[i - 2] != '/';
    }
    assert head[..i - 1] == p[..i - 1];
    assert RStripSlashes(head) == RStripSlashes(head[..i - 1]);
  }

  /** A project path written with one trailing slash, as shells complete
      directory names, has the same file part as the path without it. */
  lemma TrailingSlashIgnored(q: string)
    requires !EndsWith(q, "/")
    ensures Basename(TrimTrailingSlash(q + "/")) == Basename(q)
    ensures Dirname(TrimTrailingSlash(q + "/")) == Dirname(q)
  {
    assert (q + "/")[..|q|] == q;
  }

  /** Only one slash is trimmed: a path ending in two slashes keeps one, and
      its file part is then empty. */
  lemma DoubleTrailingSlashEmptyBasename(q: string)
    ensures Basename(TrimTrailingSlash(q + "//")) == ""
  {
    assert TrimTrailingSlash(q + "//") == q + "/";
  }

  /** The file part of `x/n` is `n` whenever `n` has no slash. */
  lemma BasenameAfterSlash(x: string, n: string)
    requires '/' !in n
    ensures Basename(x + "/" + n) == n
  {
    var p := x + "/" + n;
    var b := Basename(p);
    assert p[|x|] == '/';
    assert p[|x| + 1..] == n;
  }

  /** Joining a directory and a relative path that does not end in a slash
      gives a path with a directory part and no trailing slash. */
  lemma JoinedPathHasDirectory(a: string, b: string)
    requires a != "" && b != "" && b[0] != '/' && !EndsWith(b, "/")
    ensures TrimTrailingSlash(PathJoin(a, b)) == PathJoin(a, b)
    ensures Dirname(PathJoin(a, b)) != ""
  {
    var p := PathJoin(a, b);
    assert p[|p| - 1] == b[|b| - 1];
    if EndsWith(a, "/") {
      assert p[|a| - 1] == '/';
    } else {
      assert p[|a|] == '/';
    }
    DirnameEmptyIff(p);
  }
}

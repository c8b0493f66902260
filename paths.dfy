/** The two `os.path` operations (POSIX flavour) both integrations use to place their
    yearly files: `dirname` and a two-argument `join`. */
module Paths {
  import Text

  /** The files the integrations read and write: each path's lines, without their line
      terminators. A path that is not a key does not exist. */
  type Files = map<string, seq<string>>

  /** The lines of `path`; a missing file reads as no lines. */
  function LinesOf(files: Files, path: string): seq<string> {
    if path in files then files[path] else []
  }

  /** The index of the last `/` in `p`, or -1. */
  function LastSlash(p: string): (i: int)
    ensures -1 <= i < |p|
    ensures i >= 0 ==> p[i] == '/'
    ensures forall j :: i < j < |p| ==> p[j] != '/'
    decreases |p|
  {
    if p == [] then -1
    else if p[|p| - 1] == '/' then |p| - 1
    else LastSlash(p[..|p| - 1])
  }

  predicate AllSlashes(s: string) {
    forall i :: 0 <= i < |s| ==> s[i] == '/'
  }

  /** `os.path.dirname(p)`: everything up to the last `/`, with trailing slashes
      removed unless the head consists of slashes only. */
  function Dirname(p: string): string {
    var head := p[..LastSlash(p) + 1];
    if head != [] && !AllSlashes(head) then Text.RStrip(head, '/') else head
  }

  /** `os.path.join(a, b)`: `b` alone when it is absolute, `a + b` when `a` is empty or
      ends with `/`, `a + "/" + b` otherwise. */
  function PathJoin(a: string, b: string): string {
    if |b| > 0 && b[0] == '/' then b
    else if a == [] || a[|a| - 1] == '/' then a + b
    else a + "/" + b
  }

  /** A directory as `Dirname` returns it: no trailing slash unless it is all slashes. */
  predicate DirForm(d: string) {
    d == [] || d[|d| - 1] != '/' || AllSlashes(d)
  }

  lemma {:induction false} RStripShape(s: string)
    ensures Text.RStrip(s, '/') == [] || Text.RStrip(s, '/')[|Text.RStrip(s, '/')| - 1] != '/'
    ensures !AllSlashes(s) ==> Text.RStrip(s, '/') != []
    decreases |s|
  {
    if s != [] && s[|s| - 1] == '/' {
      RStripShape(s[..|s| - 1]);
      if !AllSlashes(s) {
        var k :| 0 <= k < |s| && s[k] != '/';
        assert s[..|s| - 1][k] != '/';
      }
    }
  }

  /** Every directory `Dirname` returns has the form `DirForm` describes. */
  lemma DirnameForm(p: string)
    ensures DirForm(Dirname(p))
  {
    var head := p[..LastSlash(p) + 1];
    if head != [] && !AllSlashes(head) {
      RStripShape(head);
    }
  }

  lemma {:induction false} LastSlashAppend(d: string, name: string)
    requires '/' !in name
    ensures LastSlash(d + name) == LastSlash(d)
    decreases |name|
  {
    if name != [] {
      var n := name[..|name| - 1];
      assert (d + name)[..|d + name| - 1] == d + n;
      LastSlashAppend(d, n);
    } else {
      assert d + name == d;
    }
  }

  lemma RStripOne(d: string)
    requires d != [] && d[|d| - 1] != '/'
    ensures Text.RStrip(d + "/", '/') == d
  {
    assert (d + "/")[..|d + "/"| - 1] == d;
  }

  /** A file name joined onto a directory lies in that directory: the directory of the
      joined path is the directory itself. */
  lemma DirnameOfJoin(d: string, name: string)
    requires DirForm(d) && '/' !in name
    ensures Dirname(PathJoin(d, name)) == d
  {
    var p := PathJoin(d, name);
    if d == [] {
      assert p == name;
      LastSlashAppend([], name);
      assert [] + name == name;
    } else if d[|d| - 1] == '/' {
      assert p == d + name;
      LastSlashAppend(d, name);
      assert p[..|d|] == d;
    } else {
      assert p == (d + "/") + name;
      LastSlashAppend(d + "/", name);
      assert p[..|d| + 1] == d + "/";
      RStripOne(d);
      assert (d + "/")[|d| - 1] != '/';
    }
  }

  /** Joining two relative names onto the same directory gives the same path exactly
      when the names are the same. */
  lemma JoinInjective(a: string, n1: string, n2: string)
    requires |n1| > 0 && n1[0] != '/' && |n2| > 0 && n2[0] != '/'
    ensures PathJoin(a, n1) == PathJoin(a, n2) <==> n1 == n2
  {
    if PathJoin(a, n1) == PathJoin(a, n2) {
      if a == [] || a[|a| - 1] == '/' {
        assert n1 == (a + n1)[|a|..] && n2 == (a + n2)[|a|..];
      } else {
        assert n1 == (a + "/" + n1)[|a| + 1..] && n2 == (a + "/" + n2)[|a| + 1..];
      }
    }
  }

  /** Moving to another file in the directory of `p` is stable: doing it twice is
      doing it once, and the directory never changes. */
  lemma SiblingStable(p: string, name: string)
    requires '/' !in name
    ensures Dirname(PathJoin(Dirname(p), name)) == Dirname(p)
    ensures PathJoin(Dirname(PathJoin(Dirname(p), name)), name) == PathJoin(Dirname(p), name)
  {
    DirnameForm(p);
    DirnameOfJoin(Dirname(p), name);
  }
}

/**
 * Content types of uploaded files (`guess_mime` in util.py): the extension
 * of a path, as POSIX `os.path.splitext` finds it, looked up case-blind in
 * the platform's MIME table, with three entries the program adds itself.
 */
module Mime {
  import opened Text

  /** The type given to a path whose extension is not in the table. */
  const DefaultType: string := "application/octet-stream"

  /** The last index of `c` in `s`, or -1 (`str.rfind`). */
  function RFind(s: string, c: char): (r: int)
    ensures -1 <= r < |s|
    ensures r >= 0 ==> s[r] == c
    ensures forall i :: r < i < |s| ==> s[i] != c
    decreases |s|
  {
    if s == [] then -1
    else if s[|s| - 1] == c then |s| - 1
    else RFind(s[..|s| - 1], c)
  }

  /** Whether `s[from..to]` holds a character other than a dot. */
  predicate HasNonDot(s: string, from: int, to: int)
    requires 0 <= from <= to <= |s|
  {
    exists i :: from <= i < to && s[i] != '.'
  }

  /**
   * `os.path.splitext` on POSIX: the extension starts at the last dot of
   * the last path component, unless the component holds nothing but
   * dots before it (a dot file such as `.profile` has no extension).
   */
  function SplitExt(p: string): (r: (string, string))
    ensures r.0 + r.1 == p
    ensures r.1 == [] || (r.1[0] == '.' && forall i :: 0 < i < |r.1| ==> r.1[i] != '.' && r.1[i] != '/')
  {
    var sep := RFind(p, '/');
    var dot := RFind(p, '.');
    if dot > sep && HasNonDot(p, sep + 1, dot) then
      assert p[..dot] + p[dot..] == p;
      (p[..dot], p[dot..])
    else (p, [])
  }

  /** The extension of a path, empty when there is none. */
  function Ext(p: string): string {
    SplitExt(p).1
  }

  /** `mimetypes.types_map` after the three `add_type` calls of util.py. */
  function Registry(platform: map<string, string>): (t: map<string, string>)
    ensures t.Keys == platform.Keys + {".js", ".woff", ".woff2"}
  {
    platform[".js" := "text/javascript"][".woff" := "font/woff"][".woff2" := "font/woff2"]
  }

  /** `guess_mime`: the table entry for the lower-cased extension, else the default. */
  function GuessMime(platform: map<string, string>, path: string): (r: string)
    ensures r == DefaultType || r in Registry(platform).Values
  {
    var t, e := Registry(platform), Lower(Ext(path));
    if e in t then t[e] else DefaultType
  }

  // ---------------------------------------------------------------------
  // Properties
  // ---------------------------------------------------------------------

  /** Only the last path component decides the type. */
  lemma ExtOfLastComponent(dir: string, name: string)
    ensures Ext(dir + "/" + name) == Ext(name)
  {
    var a := dir + "/";
    var p := a + name;
    var k := |a|;
    RFindSuffix(a, name, '/');
    RFindSuffix(a, name, '.');
    var nsep, ndot := RFind(name, '/'), RFind(name, '.');
    assert RFind(a, '/') == |dir|;
    if ndot > nsep {
      HasNonDotShift(a, name, nsep + 1, ndot);
      SuffixSlice(a, name, ndot);
    } else {
      RFindBefore(a, '.', '/');
    }
  }

  /** A dot in `a` before its last slash is before any slash of `a + name`. */
  lemma RFindBefore(a: string, c: char, d: char)
    requires a != [] && a[|a| - 1] == d && c != d
    ensures RFind(a, c) < RFind(a, d)
  {
  }

  lemma SuffixSlice(a: string, b: string, i: int)
    requires 0 <= i <= |b|
    ensures (a + b)[|a| + i..] == b[i..] && (a + b)[..|a| + i] == a + b[..i]
  {
  }

  /** Whether a range of `b` holds a non-dot is the same question about `a + b`, shifted. */
  lemma HasNonDotShift(a: string, b: string, from: int, to: int)
    requires 0 <= from <= to <= |b|
    ensures HasNonDot(a + b, |a| + from, |a| + to) == HasNonDot(b, from, to)
  {
    var p, k := a + b, |a|;
    if HasNonDot(p, k + from, k + to) {
      var i :| k + from <= i < k + to && p[i] != '.';
      assert b[i - k] == p[i];
    }
    if HasNonDot(b, from, to) {
      var i :| from <= i < to && b[i] != '.';
      assert p[i + k] == b[i];
    }
  }

  /** The last occurrence in `a + b` is in `b` when `b` has one, else it is `a`'s. */
  lemma {:induction false} RFindSuffix(a: string, b: string, c: char)
    ensures RFind(b, c) >= 0 ==> RFind(a + b, c) == |a| + RFind(b, c)
    ensures RFind(b, c) < 0 ==> RFind(a + b, c) == RFind(a, c)
    decreases |b|
  {
    if b != [] {
      var n := |b| - 1;
      assert (a + b)[..|a + b| - 1] == a + b[..n];
      RFindSuffix(a, b[..n], c);
    } else {
      assert a + b == a;
    }
  }

  /** Lowering a path lowers its extension: dots and slashes are not letters. */
  lemma ExtLower(p: string)
    ensures Ext(Lower(p)) == Lower(Ext(p))
  {
    RFindLower(p, '/');
    RFindLower(p, '.');
    var sep, dot := RFind(p, '/'), RFind(p, '.');
    if dot > sep {
      HasNonDotLower(p, sep + 1, dot);
      LowerDrop(p, dot);
    }
  }

  /** Lowering keeps which characters are dots. */
  lemma HasNonDotLower(p: string, from: int, to: int)
    requires 0 <= from <= to <= |p|
    ensures HasNonDot(Lower(p), from, to) == HasNonDot(p, from, to)
  {
    if HasNonDot(p, from, to) {
      var i :| from <= i < to && p[i] != '.';
      LowerKeeps(p, i, '.');
    }
    if HasNonDot(Lower(p), from, to) {
      var i :| from <= i < to && Lower(p)[i] != '.';
      LowerKeeps(p, i, '.');
    }
  }

  /** Searching a lowered string for a non-letter finds the same index. */
  lemma {:induction false} RFindLower(s: string, c: char)
    requires !('A' <= c <= 'Z') && !('a' <= c <= 'z')
    ensures RFind(Lower(s), c) == RFind(s, c)
    decreases |s|
  {
    if s != [] {
      var n := |s| - 1;
      LowerKeeps(s, n, c);
      assert Lower(s)[..n] == Lower(s[..n]);
      RFindLower(s[..n], c);
    }
  }

  /** The type of a path does not depend on the case of its name. */
  lemma GuessMimeIgnoresCase(platform: map<string, string>, path: string)
    ensures GuessMime(platform, Lower(path)) == GuessMime(platform, path)
  {
    ExtLower(path);
    LowerIdempotent(Ext(path));
  }

  /** The type of a path is the type of its file name. */
  lemma GuessMimeOfName(platform: map<string, string>, dir: string, name: string)
    ensures GuessMime(platform, dir + "/" + name) == GuessMime(platform, name)
  {
    ExtOfLastComponent(dir, name);
  }

  /** The program's own entries win over the platform's. */
  lemma GuessMimeOverrides(platform: map<string, string>, name: string)
    ensures Lower(Ext(name)) == ".js" ==> GuessMime(platform, name) == "text/javascript"
    ensures Lower(Ext(name)) == ".woff" ==> GuessMime(platform, name) == "font/woff"
    ensures Lower(Ext(name)) == ".woff2" ==> GuessMime(platform, name) == "font/woff2"
  {
  }

  /** A path without an extension gets the default type, unless the table maps the empty extension. */
  lemma GuessMimeNoExt(platform: map<string, string>, path: string)
    requires RFind(path, '.') <= RFind(path, '/') && "" !in platform
    ensures GuessMime(platform, path) == DefaultType
  {
    assert Ext(path) == [];
  }

  /** The extension of a file name with one dot, not at its start. */
  lemma ExtOfName(name: string, dot: int)
    requires 0 < dot < |name| && name[dot] == '.'
    requires forall i :: 0 <= i < |name| && i != dot ==> name[i] != '.' && name[i] != '/'
    ensures Ext(name) == name[dot..]
  {
    assert RFind(name, '/') == -1;
    assert RFind(name, '.') == dot;
    assert name[0] != '.';
  }

  /**
   * A file name with one dot, not at its start, is typed by that dot's
   * extension, lowered, in whatever directory it lies.
   */
  lemma GuessMimeOfExtension(platform: map<string, string>, dir: string, name: string, dot: int)
    requires 0 < dot < |name| && name[dot] == '.'
    requires forall i :: 0 <= i < |name| && i != dot ==> name[i] != '.' && name[i] != '/'
    ensures var e := Lower(name[dot..]);
      GuessMime(platform, dir + "/" + name) == if e in Registry(platform) then Registry(platform)[e] else DefaultType
  {
    GuessMimeOfName(platform, dir, name);
    ExtOfName(name, dot);
  }
}

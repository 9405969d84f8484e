/**
 * The local inventory (`walkdir` in util.py): every file under a
 * directory, keyed by its path relative to that directory, sorted by key.
 * The directory walk itself (`os.walk`), file sizes and digests come from
 * the file system and are parameters.
 */
module LocalWalk {
  import opened Text
  import opened Records

  /** One step of `os.walk`: a directory and the names of the files in it. */
  datatype DirEntry = DirEntry(root: string, files: seq<string>)

  /** POSIX `os.path.join` of two components. */
  function Join(a: string, b: string): (r: string)
    ensures StartsWith(b, "/") ==> r == b
    ensures !StartsWith(b, "/") ==> |r| >= |b| && r[|r| - |b|..] == b
  {
    if StartsWith(b, "/") then b
    else if a == [] || EndsWith(a, "/") then
      assert (a + b)[|a|..] == b;
      a + b
    else
      assert (a + "/" + b)[|a| + 1..] == b;
      a + "/" + b
  }

  /** Where the key starts in a joined path: after the directory and its separator. */
  function KeyStart(p: string): (n: nat)
    ensures n == |p| || n == |p| + 1
  {
    if EndsWith(p, "/") then |p| else |p| + 1
  }

  /** `fp[prefix:]`: a slice past the end is empty. */
  function Key(fp: string, start: nat): string {
    if start <= |fp| then fp[start..] else []
  }

  /** The records of the files of one directory, in walk order. */
  function FilesOf(start: nat, root: string, files: seq<string>, size: string -> int, md5: string -> string)
    : (r: seq<ObjectRecord>)
    ensures |r| == |files|
    decreases |files|
  {
    if files == [] then []
    else
      var n := |files| - 1;
      var fp := Join(root, files[n]);
      FilesOf(start, root, files[..n], size, md5) + [ObjectRecord(Key(fp, start), size(fp), md5(fp))]
  }

  /** All records of a walk, in walk order, before sorting. */
  function Collected(start: nat, walk: seq<DirEntry>, size: string -> int, md5: string -> string)
    : (r: seq<ObjectRecord>)
    decreases |walk|
  {
    if walk == [] then []
    else
      var n := |walk| - 1;
      Collected(start, walk[..n], size, md5) + FilesOf(start, walk[n].root, walk[n].files, size, md5)
  }

  /** The number of files a walk lists. */
  function FileCount(walk: seq<DirEntry>): nat
    decreases |walk|
  {
    if walk == [] then 0 else FileCount(walk[..|walk| - 1]) + |walk[|walk| - 1].files|
  }

  /**
   * `walkdir`: one record per file of the walk, keyed by its path
   * relative to `p`, sorted by key (ties keep walk order).
   */
  method WalkDir(p: string, walk: seq<DirEntry>, size: string -> int, md5: string -> string)
    returns (objs: seq<ObjectRecord>)
    ensures objs == SortByKey(Collected(KeyStart(p), walk, size, md5))
  {
    var prefix := |p|;
    if !EndsWith(p, "/") {
      prefix := prefix + 1;
    }
    var found: seq<ObjectRecord> := [];
    for w := 0 to |walk|
      invariant found == Collected(prefix, walk[..w], size, md5)
    {
      var recs := DirFiles(prefix, walk[w].root, walk[w].files, size, md5);
      CollectedStep(prefix, walk, w, size, md5);
      found := found + recs;
    }
    assert walk[..|walk|] == walk;
    objs := SortByKey(found);
  }

  /** The inner loop of `walkdir`: the records of the files of one directory, in order. */
  method DirFiles(prefix: nat, root: string, files: seq<string>, size: string -> int, md5: string -> string)
    returns (recs: seq<ObjectRecord>)
    ensures recs == FilesOf(prefix, root, files, size, md5)
  {
    recs := [];
    for j := 0 to |files|
      invariant recs == FilesOf(prefix, root, files[..j], size, md5)
    {
      var fp := Join(root, files[j]);
      FilesOfStep(prefix, root, files, j, size, md5);
      var key := if prefix <= |fp| then fp[prefix..] else [];
      recs := recs + [ObjectRecord(key, size(fp), md5(fp))];
    }
    assert files[..|files|] == files;
  }

  lemma FilesOfStep(start: nat, root: string, files: seq<string>, j: int, size: string -> int,
                    md5: string -> string)
    requires 0 <= j < |files|
    ensures var fp := Join(root, files[j]);
      FilesOf(start, root, files[..j + 1], size, md5)
      == FilesOf(start, root, files[..j], size, md5) + [ObjectRecord(Key(fp, start), size(fp), md5(fp))]
  {
    assert files[..j + 1][..j] == files[..j];
  }

  lemma CollectedStep(start: nat, walk: seq<DirEntry>, w: int, size: string -> int, md5: string -> string)
    requires 0 <= w < |walk|
    ensures Collected(start, walk[..w + 1], size, md5)
      == Collected(start, walk[..w], size, md5) + FilesOf(start, walk[w].root, walk[w].files, size, md5)
  {
    assert walk[..w + 1][..w] == walk[..w];
  }

  // ---------------------------------------------------------------------
  // Properties
  // ---------------------------------------------------------------------

  /** The inventory is sorted, and holds each record of the walk as often as the walk lists it. */
  lemma WalkDirInventory(p: string, walk: seq<DirEntry>, size: string -> int, md5: string -> string)
    ensures var objs := SortByKey(Collected(KeyStart(p), walk, size, md5));
      && Sorted(objs)
      && multiset(objs) == multiset(Collected(KeyStart(p), walk, size, md5))
      && |objs| == FileCount(walk)
  {
    CollectedCount(KeyStart(p), walk, size, md5);
  }

  lemma {:induction false} CollectedCount(start: nat, walk: seq<DirEntry>, size: string -> int, md5: string -> string)
    ensures |Collected(start, walk, size, md5)| == FileCount(walk)
    decreases |walk|
  {
    if walk != [] {
      CollectedCount(start, walk[..|walk| - 1], size, md5);
    }
  }

  /**
   * The key of a file is its path relative to the walked directory: a
   * path joined under `p` loses exactly `p` and its separator.
   */
  lemma KeyOfJoin(p: string, rel: string)
    requires p != [] && !StartsWith(rel, "/")
    ensures Key(Join(p, rel), KeyStart(p)) == rel
  {
    if EndsWith(p, "/") {
      assert (p + rel)[|p|..] == rel;
    } else {
      assert (p + "/" + rel)[|p| + 1..] == rel;
    }
  }

  /** Joining a sub-directory and then a file name is joining their relative path. */
  lemma JoinAssociative(p: string, sub: string, name: string)
    requires sub != [] && !StartsWith(sub, "/") && !EndsWith(sub, "/") && !StartsWith(name, "/")
    ensures Join(Join(p, sub), name) == Join(p, Join(sub, name))
  {
    var s := sub + "/" + name;
    assert Join(sub, name) == s;
    NoLeadingSlash(sub, "/" + name);
    assert sub + "/" + name == sub + ("/" + name);
    if p == [] || EndsWith(p, "/") {
      JoinGlued(p, sub, name);
    } else {
      JoinSeparated(p, sub, name);
    }
  }

  lemma JoinGlued(p: string, sub: string, name: string)
    requires p == [] || EndsWith(p, "/")
    requires sub != [] && !StartsWith(sub, "/") && !EndsWith(sub, "/") && !StartsWith(name, "/")
    requires !StartsWith(sub + "/" + name, "/")
    ensures Join(Join(p, sub), name) == Join(p, sub + "/" + name)
  {
    var j := p + sub;
    assert Join(p, sub) == j;
    NoTrailingSlash(p, sub);
    assert Join(j, name) == j + "/" + name;
    assert j + "/" + name == p + (sub + "/" + name);
  }

  lemma JoinSeparated(p: string, sub: string, name: string)
    requires p != [] && !EndsWith(p, "/")
    requires sub != [] && !StartsWith(sub, "/") && !EndsWith(sub, "/") && !StartsWith(name, "/")
    requires !StartsWith(sub + "/" + name, "/")
    ensures Join(Join(p, sub), name) == Join(p, sub + "/" + name)
  {
    var j := p + "/" + sub;
    assert Join(p, sub) == j;
    NoTrailingSlash(p + "/", sub);
    assert Join(j, name) == j + "/" + name;
    assert j + "/" + name == p + "/" + (sub + "/" + name);
  }

  lemma NoLeadingSlash(x: string, y: string)
    requires x != [] && !StartsWith(x, "/")
    ensures !StartsWith(x + y, "/")
  {
    assert (x + y)[..1] == x[..1];
  }

  lemma NoTrailingSlash(x: string, y: string)
    requires y != [] && !EndsWith(y, "/")
    ensures !EndsWith(x + y, "/") && x + y != []
  {
    assert (x + y)[|x + y| - 1..] == y[|y| - 1..];
  }

  /**
   * A file found in a sub-directory of the walked directory is keyed by
   * the sub-directory's relative path, a slash and its name.
   */
  lemma KeyInSubdirectory(p: string, sub: string, name: string)
    requires p != [] && sub != [] && !StartsWith(sub, "/") && !EndsWith(sub, "/") && !StartsWith(name, "/")
    ensures Key(Join(Join(p, sub), name), KeyStart(p)) == sub + "/" + name
  {
    JoinAssociative(p, sub, name);
    var s := sub + "/" + name;
    assert s[0] == sub[0];
    KeyOfJoin(p, s);
  }
}

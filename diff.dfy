/**
 * The diff engine (`diff` in util.py): classifies local records against the
 * remote listing into adds, updates and deletes, each sorted by key.
 */
module DiffEngine {
  import opened Text
  import opened Records

  /** A Python dict from key to record. */
  type Dict = map<string, ObjectRecord>

  /** `file_objs_to_dict`: the reducer that drops directory markers. */
  function FileObjsToDict(acc: Dict, obj: ObjectRecord): Dict {
    if IsDirectoryKey(obj.key) then acc else acc[obj.key := obj]
  }

  /** `reduce(file_objs_to_dict, dest_objs, {})`. */
  function RemoteDict(s: seq<ObjectRecord>): Dict
    decreases |s|
  {
    if s == [] then map[] else FileObjsToDict(RemoteDict(s[..|s| - 1]), s[|s| - 1])
  }

  /**
   * The insertion order of the keys of that dict: a Python dict remembers
   * the position of a key's first insertion, later overwrites keep it.
   */
  function DictOrder(s: seq<ObjectRecord>): seq<string>
    decreases |s|
  {
    if s == [] then []
    else
      var obj := s[|s| - 1];
      var prev := DictOrder(s[..|s| - 1]);
      if IsDirectoryKey(obj.key) || obj.key in RemoteDict(s[..|s| - 1]) then prev else prev + [obj.key]
  }

  ghost predicate DistinctStrings(ks: seq<string>) {
    forall i, j :: 0 <= i < j < |ks| ==> ks[i] != ks[j]
  }

  /** No later record of `s` has the key of `s[i]`. */
  ghost predicate LastWithKey(s: seq<ObjectRecord>, i: int)
    requires 0 <= i < |s|
  {
    forall j :: i < j < |s| ==> s[j].key != s[i].key
  }

  /** The keys of `ks` that are not in `matched`, in order. */
  function Unmatched(ks: seq<string>, matched: set<string>): (r: seq<string>)
    ensures forall k :: k in r <==> k in ks && k !in matched
  {
    if ks == [] then []
    else (if ks[0] in matched then [] else [ks[0]]) + Unmatched(ks[1..], matched)
  }

  /** `list(d.values())` for a dict whose key order is `ks`. */
  function ValuesAt(d: Dict, ks: seq<string>): (r: seq<ObjectRecord>)
    requires forall k :: k in ks ==> k in d
    ensures |r| == |ks|
  {
    seq(|ks|, i requires 0 <= i < |ks| => d[ks[i]])
  }

  // ---------------------------------------------------------------------
  // Classification of one local record (util.py:90-101)
  // ---------------------------------------------------------------------

  datatype Change = Add | Update | Unchanged

  /**
   * The class of `obj` against `remaining`, the remote dict from which the
   * keys of the local records already visited have been deleted.
   */
  function Classify(remaining: Dict, obj: ObjectRecord): Change {
    if obj.key !in remaining then Add
    else if obj.size != remaining[obj.key].size || obj.md5 != remaining[obj.key].md5 then Update
    else Unchanged
  }

  /** The local records of class `kind`, in local order. */
  function OfKind(local: seq<ObjectRecord>, remote: Dict, kind: Change): seq<ObjectRecord>
    decreases |local|
  {
    if local == [] then []
    else
      var n := |local| - 1;
      OfKind(local[..n], remote, kind)
        + (if Classify(remote - KeysOf(local[..n]), local[n]) == kind then [local[n]] else [])
  }

  /** The remote records that no local key matched, in dict order. */
  function DeletesOf(local: seq<ObjectRecord>, remote: seq<ObjectRecord>): seq<ObjectRecord> {
    var d := RemoteDict(remote) - KeysOf(local);
    DictOrderKeys(remote);
    ValuesAt(d, Unmatched(DictOrder(remote), KeysOf(local)))
  }

  datatype Changes = Changes(adds: seq<ObjectRecord>, updates: seq<ObjectRecord>, deletes: seq<ObjectRecord>)

  /** What `diff(src_objs, dest_objs)` returns. */
  function DiffOf(local: seq<ObjectRecord>, remote: seq<ObjectRecord>): Changes {
    var d := RemoteDict(remote);
    Changes(SortByKey(OfKind(local, d, Add)), SortByKey(OfKind(local, d, Update)),
            SortByKey(DeletesOf(local, remote)))
  }

  // ---------------------------------------------------------------------
  // The algorithm as written
  // ---------------------------------------------------------------------

  /**
   * `reduce(file_objs_to_dict, dest_objs, {})`: the dict and, since a
   * Python dict keeps insertion order, the order of its keys.
   */
  method ReduceToDict(destObjs: seq<ObjectRecord>) returns (dict: Dict, order: seq<string>)
    ensures dict == RemoteDict(destObjs) && order == DictOrder(destObjs)
  {
    dict, order := map[], [];
    for i := 0 to |destObjs|
      invariant dict == RemoteDict(destObjs[..i])
      invariant order == DictOrder(destObjs[..i])
    {
      var obj := destObjs[i];
      assert destObjs[..i + 1][..i] == destObjs[..i];
      if !IsDirectoryKey(obj.key) && obj.key !in dict {
        order := order + [obj.key];
      }
      dict := FileObjsToDict(dict, obj);
    }
    assert destObjs[..|destObjs|] == destObjs;
  }

  /** `diff`: builds the remote dict, walks the local list, sorts. */
  method Diff(srcObjs: seq<ObjectRecord>, destObjs: seq<ObjectRecord>)
    returns (adds: seq<ObjectRecord>, updates: seq<ObjectRecord>, deletes: seq<ObjectRecord>)
    ensures Changes(adds, updates, deletes) == DiffOf(srcObjs, destObjs)
  {
    var localObjs := srcObjs;
    var remoteObjs, order := ReduceToDict(destObjs);
    ghost var remote := remoteObjs;
    DictOrderKeys(destObjs);
    UnmatchedNone(order, {});
    assert KeysOf(localObjs[..0]) == {};
    var addList: seq<ObjectRecord> := [];
    var updateList: seq<ObjectRecord> := [];
    for i := 0 to |localObjs|
      invariant remoteObjs == remote - KeysOf(localObjs[..i])
      invariant order == Unmatched(DictOrder(destObjs), KeysOf(localObjs[..i]))
      invariant addList == OfKind(localObjs[..i], remote, Add)
      invariant updateList == OfKind(localObjs[..i], remote, Update)
    {
      var obj := localObjs[i];
      var key := obj.key;
      OfKindStep(localObjs, i, remote, DictOrder(destObjs));
      RemoveMatched(remote, KeysOf(localObjs[..i]), key);
      if key in remoteObjs {
        var robj := remoteObjs[key];
        if obj.size != robj.size || obj.md5 != robj.md5 {
          updateList := updateList + [obj];
        }
        remoteObjs := remoteObjs - {key};
        order := Unmatched(order, {key});
      } else {
        addList := addList + [obj];
        UnmatchedNone(order, {key});
      }
    }
    assert localObjs[..|localObjs|] == localObjs;
    var unused := ValuesAt(remoteObjs, order);
    adds, updates, deletes := SortByKey(addList), SortByKey(updateList), SortByKey(unused);
  }

  /** What one more local record does to the classified lists and the unmatched keys. */
  lemma OfKindStep(local: seq<ObjectRecord>, i: int, remote: Dict, order: seq<string>)
    requires 0 <= i < |local|
    ensures KeysOf(local[..i + 1]) == KeysOf(local[..i]) + {local[i].key}
    ensures OfKind(local[..i + 1], remote, Add)
      == OfKind(local[..i], remote, Add)
         + (if Classify(remote - KeysOf(local[..i]), local[i]) == Add then [local[i]] else [])
    ensures OfKind(local[..i + 1], remote, Update)
      == OfKind(local[..i], remote, Update)
         + (if Classify(remote - KeysOf(local[..i]), local[i]) == Update then [local[i]] else [])
    ensures Unmatched(Unmatched(order, KeysOf(local[..i])), {local[i].key})
      == Unmatched(order, KeysOf(local[..i + 1]))
  {
    assert local[..i + 1][..i] == local[..i];
    assert local[..i + 1] == local[..i] + [local[i]];
    KeysOfSnoc(local[..i], local[i]);
    UnmatchedExtend(order, KeysOf(local[..i]), local[i].key);
  }

  // ---------------------------------------------------------------------
  // Helper facts
  // ---------------------------------------------------------------------

  lemma RemoveMatched(m: Dict, matched: set<string>, k: string)
    ensures (m - matched) - {k} == m - (matched + {k})
    ensures k !in m - matched ==> m - matched == m - (matched + {k})
  {
  }

  lemma KeysOfSnoc(s: seq<ObjectRecord>, x: ObjectRecord)
    ensures KeysOf(s + [x]) == KeysOf(s) + {x.key}
  {
    forall k | k in KeysOf(s + [x]) ensures k in KeysOf(s) + {x.key} {
      var r :| r in s + [x] && r.key == k;
    }
    forall k | k in KeysOf(s) ensures k in KeysOf(s + [x]) {
      var r :| r in s && r.key == k;
      assert r in s + [x];
    }
    assert x in s + [x];
  }

  lemma {:induction false} UnmatchedExtend(ks: seq<string>, matched: set<string>, k: string)
    ensures Unmatched(Unmatched(ks, matched), {k}) == Unmatched(ks, matched + {k})
    decreases |ks|
  {
    if ks != [] {
      UnmatchedExtend(ks[1..], matched, k);
      var head := if ks[0] in matched then [] else [ks[0]];
      var u := head + Unmatched(ks[1..], matched);
      if head != [] {
        assert u[0] == ks[0] && u[1..] == Unmatched(ks[1..], matched);
      } else {
        assert u == Unmatched(ks[1..], matched);
      }
    }
  }

  lemma {:induction false} UnmatchedNone(ks: seq<string>, matched: set<string>)
    requires forall k :: k in ks ==> k !in matched
    ensures Unmatched(ks, matched) == ks
    decreases |ks|
  {
    if ks != [] {
      UnmatchedNone(ks[1..], matched);
      assert ks == [ks[0]] + ks[1..];
    }
  }

  /** The dict holds exactly the non-directory keys; each key's value carries that key. */
  lemma {:induction false} RemoteDictKeys(s: seq<ObjectRecord>)
    ensures forall k :: k in RemoteDict(s) <==> k in KeysOf(s) && !IsDirectoryKey(k)
    ensures forall k :: k in RemoteDict(s) ==> RemoteDict(s)[k].key == k && RemoteDict(s)[k] in s
    decreases |s|
  {
    if s != [] {
      var n := |s| - 1;
      RemoteDictKeys(s[..n]);
      assert s == s[..n] + [s[n]];
      KeysOfSnoc(s[..n], s[n]);
    }
  }

  /** The dict order lists each key of the dict exactly once. */
  lemma {:induction false} DictOrderKeys(s: seq<ObjectRecord>)
    ensures forall k :: k in DictOrder(s) <==> k in RemoteDict(s)
    ensures DistinctStrings(DictOrder(s))
    decreases |s|
  {
    if s != [] {
      DictOrderKeys(s[..|s| - 1]);
    }
  }
}

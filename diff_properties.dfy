/**
 * What `diff` promises: how each local record is classified, which remote
 * records are deleted, and how the result behaves on special inputs.
 */
module DiffProperties {
  import opened Text
  import opened Records
  import opened DiffEngine

  // ---------------------------------------------------------------------
  // The remote dict
  // ---------------------------------------------------------------------

  /** The record kept for a key is its last occurrence in the remote list. */
  lemma {:induction false} RemoteDictLastWins(s: seq<ObjectRecord>, i: int)
    requires 0 <= i < |s| && LastWithKey(s, i) && !IsDirectoryKey(s[i].key)
    ensures s[i].key in RemoteDict(s) && RemoteDict(s)[s[i].key] == s[i]
    decreases |s|
  {
    var n := |s| - 1;
    if i < n {
      assert s[..n][i] == s[i];
      RemoteDictLastWins(s[..n], i);
    }
  }

  /** Every value of the remote dict is the last remote record with its key. */
  lemma {:induction false} RemoteDictValue(s: seq<ObjectRecord>, k: string) returns (i: int)
    requires k in RemoteDict(s)
    ensures 0 <= i < |s| && LastWithKey(s, i) && s[i] == RemoteDict(s)[k]
    decreases |s|
  {
    var n := |s| - 1;
    var prev := RemoteDict(s[..n]);
    assert RemoteDict(s) == FileObjsToDict(prev, s[n]);
    RemoteDictKeys(s[..n]);
    if s[n].key == k {
      i := n;
    } else {
      assert k in prev && RemoteDict(s)[k] == prev[k];
      i := RemoteDictValue(s[..n], k);
      assert s[..n][i] == s[i];
      assert s[i].key == k;
      forall j | i < j < |s| ensures s[j].key != s[i].key {
        if j < n { assert s[..n][j] == s[j]; }
      }
    }
  }

  // ---------------------------------------------------------------------
  // Classification of local records
  // ---------------------------------------------------------------------

  lemma {:induction false} OfKindMembers(local: seq<ObjectRecord>, remote: Dict, kind: Change, r: ObjectRecord)
    ensures r in OfKind(local, remote, kind)
      <==> exists i :: 0 <= i < |local| && local[i] == r
             && Classify(remote - KeysOf(local[..i]), local[i]) == kind
    decreases |local|
  {
    if local != [] {
      var n := |local| - 1;
      var pre := local[..n];
      OfKindMembers(pre, remote, kind, r);
      var tail := if Classify(remote - KeysOf(pre), local[n]) == kind then [local[n]] else [];
      assert OfKind(local, remote, kind) == OfKind(pre, remote, kind) + tail;
      if r in OfKind(pre, remote, kind) {
        var i :| 0 <= i < n && pre[i] == r && Classify(remote - KeysOf(pre[..i]), pre[i]) == kind;
        PrefixOfPrefix(local, n, i);
      }
      if exists i :: 0 <= i < n && local[i] == r && Classify(remote - KeysOf(local[..i]), local[i]) == kind {
        var i :| 0 <= i < n && local[i] == r && Classify(remote - KeysOf(local[..i]), local[i]) == kind;
        PrefixOfPrefix(local, n, i);
      }
    }
  }

  lemma PrefixOfPrefix<T>(s: seq<T>, n: int, i: int)
    requires 0 <= i < n <= |s|
    ensures s[..n][i] == s[i] && s[..n][..i] == s[..i]
  {
  }

  lemma KeysOfPrefix(local: seq<ObjectRecord>, i: int, j: int)
    requires 0 <= i < j <= |local|
    ensures local[i].key in KeysOf(local[..j])
  {
    assert local[..j][i] == local[i];
  }

  lemma NotInPrefix(local: seq<ObjectRecord>, i: int, k: string)
    requires 0 <= i <= |local| && forall j :: 0 <= j < i ==> local[j].key != k
    ensures k !in KeysOf(local[..i])
  {
    forall r | r in local[..i] ensures r.key != k {
      var j :| 0 <= j < i && local[..i][j] == r;
    }
  }

  /**
   * The first local record with a key is classified against the whole remote
   * dict; any equal record after it is an add.
   */
  lemma FirstOccurrenceKind(local: seq<ObjectRecord>, d: Dict, i: int, kind: Change)
    requires 0 <= i < |local| && local[i].key !in KeysOf(local[..i])
    ensures local[i] in OfKind(local, d, kind)
      <==> Classify(d, local[i]) == kind || (kind == Add && local[i] in local[i + 1..])
  {
    var r := local[i];
    OfKindMembers(local, d, kind, r);
    assert Classify(d - KeysOf(local[..i]), r) == Classify(d, r);
    forall j | 0 <= j < |local| && local[j] == r && j != i
      ensures j > i && Classify(d - KeysOf(local[..j]), local[j]) == Add
    {
      if j < i { KeysOfPrefix(local, j, i); }
      KeysOfPrefix(local, i, j);
    }
    if r in local[i + 1..] {
      var j :| 0 <= j < |local[i + 1..]| && local[i + 1..][j] == r;
      assert local[i + 1 + j] == r;
    }
  }

  /**
   * util.py:90-101 for the first local record with a key: absent remotely
   * gives an add, a different size or digest gives an update, and a match
   * gives no update and no delete; it is still re-added exactly when an
   * equal record follows it in the local list.
   */
  lemma LocalRecordClassified(local: seq<ObjectRecord>, remote: seq<ObjectRecord>, i: int)
    requires 0 <= i < |local| && local[i].key !in KeysOf(local[..i])
    ensures var c, d, r := DiffOf(local, remote), RemoteDict(remote), local[i];
      && (r.key !in d ==> r in c.adds && r !in c.updates)
      && (r.key in d && (r.size != d[r.key].size || r.md5 != d[r.key].md5) ==>
            r in c.updates && (r in c.adds <==> r in local[i + 1..]))
      && (r.key in d && r.size == d[r.key].size && r.md5 == d[r.key].md5 ==>
            r !in c.updates && r !in c.deletes && (r in c.adds <==> r in local[i + 1..]))
  {
    var d, r := RemoteDict(remote), local[i];
    FirstOccurrenceKind(local, d, i, Add);
    FirstOccurrenceKind(local, d, i, Update);
    SortByKeyMembers(OfKind(local, d, Add), r);
    SortByKeyMembers(OfKind(local, d, Update), r);
    DeletesExactly(local, remote);
    assert r.key in KeysOf(local) by { assert r in local; }
  }

  /** A local key ending in `/` never matches a remote key, so it is added. */
  lemma DirectoryKeyAdded(local: seq<ObjectRecord>, remote: seq<ObjectRecord>, i: int)
    requires 0 <= i < |local| && IsDirectoryKey(local[i].key)
    ensures local[i] in DiffOf(local, remote).adds
  {
    var d := RemoteDict(remote);
    RemoteDictKeys(remote);
    assert Classify(d - KeysOf(local[..i]), local[i]) == Add;
    OfKindMembers(local, d, Add, local[i]);
    SortByKeyMembers(OfKind(local, d, Add), local[i]);
  }

  /** A second local record with an already visited key is added. */
  lemma RepeatedKeyAdded(local: seq<ObjectRecord>, remote: seq<ObjectRecord>, i: int)
    requires 0 <= i < |local| && local[i].key in KeysOf(local[..i])
    ensures local[i] in DiffOf(local, remote).adds
  {
    var d := RemoteDict(remote);
    assert Classify(d - KeysOf(local[..i]), local[i]) == Add;
    OfKindMembers(local, d, Add, local[i]);
    SortByKeyMembers(OfKind(local, d, Add), local[i]);
  }

  // ---------------------------------------------------------------------
  // Deletes
  // ---------------------------------------------------------------------

  /** The values listed for keys `ks` of a dict whose values carry their own key. */
  lemma ValuesAtKeyed(d: Dict, ks: seq<string>)
    requires forall k :: k in ks ==> k in d
    requires forall k :: k in d ==> d[k].key == k
    ensures forall r :: r in ValuesAt(d, ks) <==> r.key in ks && r.key in d && d[r.key] == r
    ensures DistinctStrings(ks) ==> DistinctKeys(ValuesAt(d, ks))
  {
    var u := ValuesAt(d, ks);
    forall r: ObjectRecord | r.key in ks && r.key in d && d[r.key] == r ensures r in u {
      var m :| 0 <= m < |ks| && ks[m] == r.key;
      assert u[m] == r;
    }
  }

  /** The unsorted deletes: the unmatched dict values, one per key. */
  lemma DeletesOfMembers(local: seq<ObjectRecord>, remote: seq<ObjectRecord>)
    ensures forall r :: r in DeletesOf(local, remote) <==>
      r.key in RemoteDict(remote) && r.key !in KeysOf(local) && RemoteDict(remote)[r.key] == r
    ensures DistinctKeys(DeletesOf(local, remote))
  {
    var d := RemoteDict(remote) - KeysOf(local);
    var ks := Unmatched(DictOrder(remote), KeysOf(local));
    DictOrderKeys(remote);
    RemoteDictKeys(remote);
    UnmatchedDistinct(DictOrder(remote), KeysOf(local));
    ValuesAtKeyed(d, ks);
    assert DeletesOf(local, remote) == ValuesAt(d, ks);
  }

  /**
   * Deletes are exactly the values of the remote dict whose key no local
   * record has, each key once.
   */
  lemma DeletesExactly(local: seq<ObjectRecord>, remote: seq<ObjectRecord>)
    ensures var c, d := DiffOf(local, remote), RemoteDict(remote);
      && (forall r :: r in c.deletes <==> r.key in d && r.key !in KeysOf(local) && d[r.key] == r)
      && DistinctKeys(c.deletes)
  {
    var u := DeletesOf(local, remote);
    DeletesOfMembers(local, remote);
    forall r ensures r in SortByKey(u) <==> r in u {
      SortByKeyMembers(u, r);
    }
    SortByKeyDistinct(u);
  }

  lemma {:induction false} UnmatchedDistinct(ks: seq<string>, matched: set<string>)
    requires DistinctStrings(ks)
    ensures DistinctStrings(Unmatched(ks, matched))
    decreases |ks|
  {
    if ks != [] {
      UnmatchedDistinct(ks[1..], matched);
      var u := Unmatched(ks, matched);
      var tail := Unmatched(ks[1..], matched);
      if ks[0] in matched {
        assert u == tail;
      } else {
        assert u == [ks[0]] + tail;
        forall j | 0 < j < |u| ensures u[0] != u[j] {
          assert u[j] == tail[j - 1] && u[j] in tail;
          var m :| 0 <= m < |ks[1..]| && ks[1..][m] == u[j];
          assert ks[0] != ks[m + 1];
        }
        forall i, j | 0 < i < j < |u| ensures u[i] != u[j] {
          assert u[i] == tail[i - 1] && u[j] == tail[j - 1];
        }
      }
    }
  }

  /** Deletes are the last remote record of each non-directory key no local record has. */
  lemma DeletesAreUnmatchedRemote(local: seq<ObjectRecord>, remote: seq<ObjectRecord>, r: ObjectRecord)
    ensures r in DiffOf(local, remote).deletes
      <==> exists i :: 0 <= i < |remote| && remote[i] == r && LastWithKey(remote, i)
             && !IsDirectoryKey(r.key) && r.key !in KeysOf(local)
  {
    DeletesExactly(local, remote);
    RemoteDictKeys(remote);
    var d := RemoteDict(remote);
    if r.key in d && r.key !in KeysOf(local) && d[r.key] == r {
      var i := RemoteDictValue(remote, r.key);
    }
    forall i | 0 <= i < |remote| && remote[i] == r && LastWithKey(remote, i) && !IsDirectoryKey(r.key)
      ensures r.key in d && d[r.key] == r
    {
      RemoteDictLastWins(remote, i);
    }
  }

  // ---------------------------------------------------------------------
  // Special inputs
  // ---------------------------------------------------------------------

  lemma NoMembersEmpty(s: seq<ObjectRecord>)
    requires forall r :: r !in s
    ensures s == []
  {
    EmptyUnlessMember(s);
  }

  /** An inventory with distinct keys and no directory keys has no differences with itself. */
  lemma DiffOfSelf(a: seq<ObjectRecord>)
    requires DistinctKeys(a) && forall i :: 0 <= i < |a| ==> !IsDirectoryKey(a[i].key)
    ensures DiffOf(a, a) == Changes([], [], [])
  {
    var d := RemoteDict(a);
    forall i | 0 <= i < |a|
      ensures Classify(d - KeysOf(a[..i]), a[i]) == Unchanged
    {
      RemoteDictLastWins(a, i);
      NotInPrefix(a, i, a[i].key);
    }
    forall r ensures r !in OfKind(a, d, Add) && r !in OfKind(a, d, Update) {
      OfKindMembers(a, d, Add, r);
      OfKindMembers(a, d, Update, r);
    }
    NoMembersEmpty(OfKind(a, d, Add));
    NoMembersEmpty(OfKind(a, d, Update));
    DeletesExactly(a, a);
    RemoteDictKeys(a);
    NoMembersEmpty(DiffOf(a, a).deletes);
  }

  /**
   * When no local key is a remote key, every local record is added (in
   * sorted order), nothing is updated, and every remote dict value is deleted.
   */
  lemma DiffOfDisjoint(local: seq<ObjectRecord>, remote: seq<ObjectRecord>)
    requires KeysOf(local) !! KeysOf(remote)
    ensures var c, d := DiffOf(local, remote), RemoteDict(remote);
      && c.adds == SortByKey(local) && c.updates == []
      && forall r :: r in c.deletes <==> r.key in d && d[r.key] == r
  {
    var d := RemoteDict(remote);
    RemoteDictKeys(remote);
    forall i | 0 <= i < |local| ensures Classify(d - KeysOf(local[..i]), local[i]) == Add {
      assert local[i] in local;
    }
    OfKindAll(local, d);
    forall r ensures r !in OfKind(local, d, Update) {
      OfKindMembers(local, d, Update, r);
    }
    NoMembersEmpty(OfKind(local, d, Update));
    DeletesExactly(local, remote);
  }

  lemma {:induction false} OfKindAll(local: seq<ObjectRecord>, remote: Dict)
    requires forall i :: 0 <= i < |local| ==> Classify(remote - KeysOf(local[..i]), local[i]) == Add
    ensures OfKind(local, remote, Add) == local
    decreases |local|
  {
    if local != [] {
      var n := |local| - 1;
      forall i | 0 <= i < n ensures Classify(remote - KeysOf(local[..n][..i]), local[..n][i]) == Add {
        assert local[..n][..i] == local[..i];
      }
      OfKindAll(local[..n], remote);
      assert local == local[..n] + [local[n]];
    }
  }

  // ---------------------------------------------------------------------
  // The order of the inputs
  // ---------------------------------------------------------------------

  /**
   * Shuffling key-distinct inputs does not change the diff. Distinct keys
   * are needed: with a repeated key the order matters, since the last
   * remote record with a key is the one kept (RemoteDictLastWins) and a
   * repeated local key is added again (RepeatedKeyAdded).
   */
  lemma DiffOfShuffled(local: seq<ObjectRecord>, local': seq<ObjectRecord>,
                       remote: seq<ObjectRecord>, remote': seq<ObjectRecord>)
    requires DistinctKeys(local) && DistinctKeys(local') && DistinctKeys(remote) && DistinctKeys(remote')
    requires multiset(local) == multiset(local') && multiset(remote) == multiset(remote')
    ensures DiffOf(local, remote) == DiffOf(local', remote')
  {
    SameMembers(local, local');
    SameMembers(remote, remote');
    RemoteDictShuffled(remote, remote');
    var d := RemoteDict(remote);
    OfKindShuffled(local, local', d, Add);
    OfKindShuffled(local, local', d, Update);
    DeletesShuffled(local, local', remote, remote');
  }

  lemma SameMembers(s: seq<ObjectRecord>, t: seq<ObjectRecord>)
    requires multiset(s) == multiset(t)
    ensures forall r :: r in s <==> r in t
  {
    forall r ensures r in s <==> r in t {
      assert r in s <==> r in multiset(s);
      assert r in t <==> r in multiset(t);
    }
  }

  /** With distinct keys every non-marker record is the dict's value for its key. */
  lemma RemoteDictDistinct(s: seq<ObjectRecord>)
    requires DistinctKeys(s)
    ensures forall i :: 0 <= i < |s| && !IsDirectoryKey(s[i].key) ==>
      s[i].key in RemoteDict(s) && RemoteDict(s)[s[i].key] == s[i]
  {
    forall i | 0 <= i < |s| && !IsDirectoryKey(s[i].key)
      ensures s[i].key in RemoteDict(s) && RemoteDict(s)[s[i].key] == s[i]
    {
      RemoteDictLastWins(s, i);
    }
  }

  /** Key-distinct remote lists with the same records give the same dict. */
  lemma RemoteDictShuffled(s: seq<ObjectRecord>, t: seq<ObjectRecord>)
    requires DistinctKeys(s) && DistinctKeys(t) && forall r :: r in s <==> r in t
    ensures RemoteDict(s) == RemoteDict(t)
  {
    var d, e := RemoteDict(s), RemoteDict(t);
    RemoteDictKeys(s);
    RemoteDictKeys(t);
    RemoteDictDistinct(s);
    RemoteDictDistinct(t);
    forall k | k in d ensures k in e && e[k] == d[k] {
      var j :| 0 <= j < |t| && t[j] == d[k];
    }
    forall k | k in e ensures k in d {
      var j :| 0 <= j < |s| && s[j] == e[k];
    }
    assert d == e;
  }

  /**
   * On key-distinct local records, a record is of class `kind` iff it is
   * local and classified so against the whole dict.
   */
  lemma OfKindOfDistinct(local: seq<ObjectRecord>, d: Dict, kind: Change)
    requires DistinctKeys(local)
    ensures forall r :: r in OfKind(local, d, kind) <==> r in local && Classify(d, r) == kind
  {
    forall r ensures r in OfKind(local, d, kind) <==> r in local && Classify(d, r) == kind {
      OfKindMembers(local, d, kind, r);
      if r in local {
        var i :| 0 <= i < |local| && local[i] == r;
        NotInPrefix(local, i, r.key);
        var later := local[i + 1..];
        forall j | 0 <= j < |later| ensures later[j] != r {
          assert later[j] == local[i + 1 + j];
        }
        FirstOccurrenceKind(local, d, i, kind);
      }
    }
  }

  /** A class of key-distinct local records is key-distinct. */
  lemma {:induction false} OfKindDistinct(local: seq<ObjectRecord>, d: Dict, kind: Change)
    requires DistinctKeys(local)
    ensures DistinctKeys(OfKind(local, d, kind))
    decreases |local|
  {
    if local != [] {
      var n := |local| - 1;
      var pre := local[..n];
      OfKindDistinct(pre, d, kind);
      var o := OfKind(pre, d, kind);
      var u := o + if Classify(d - KeysOf(pre), local[n]) == kind then [local[n]] else [];
      assert OfKind(local, d, kind) == u;
      forall r | r in o ensures r.key != local[n].key {
        OfKindMembers(pre, d, kind, r);
        var i :| 0 <= i < |pre| && pre[i] == r && Classify(d - KeysOf(pre[..i]), pre[i]) == kind;
        assert local[i] == r;
      }
      forall i, j | 0 <= i < j < |u| ensures u[i].key != u[j].key {
        assert u[i] == o[i] && o[i] in o;
        if j < |o| {
          assert u[j] == o[j];
        } else {
          assert u[j] == local[n];
        }
      }
    }
  }

  /** The sorted class `kind` is the same for key-distinct local lists with the same records. */
  lemma OfKindShuffled(local: seq<ObjectRecord>, local': seq<ObjectRecord>, d: Dict, kind: Change)
    requires DistinctKeys(local) && DistinctKeys(local') && forall r :: r in local <==> r in local'
    ensures SortByKey(OfKind(local, d, kind)) == SortByKey(OfKind(local', d, kind))
  {
    OfKindOfDistinct(local, d, kind);
    OfKindOfDistinct(local', d, kind);
    OfKindDistinct(local, d, kind);
    OfKindDistinct(local', d, kind);
    SortByKeySameElements(OfKind(local, d, kind), OfKind(local', d, kind));
  }

  /** The sorted deletes are the same for local and remote lists with the same records. */
  lemma DeletesShuffled(local: seq<ObjectRecord>, local': seq<ObjectRecord>,
                        remote: seq<ObjectRecord>, remote': seq<ObjectRecord>)
    requires forall r :: r in local <==> r in local'
    requires RemoteDict(remote) == RemoteDict(remote')
    ensures SortByKey(DeletesOf(local, remote)) == SortByKey(DeletesOf(local', remote'))
  {
    DeletesOfMembers(local, remote);
    DeletesOfMembers(local', remote');
    assert KeysOf(local) == KeysOf(local');
    SortByKeySameElements(DeletesOf(local, remote), DeletesOf(local', remote'));
  }

  // ---------------------------------------------------------------------
  // The example of the documentation (util.py:72-83), on any site whose
  // inventory starts with the README.md shown there
  // ---------------------------------------------------------------------

  /**
   * The local inventory `objs` plus a new `z/update.txt`, against a bucket
   * holding the rest of `objs`, an older `z/update.txt` and a `z/delete.txt`:
   * `README.md` is the one add, `z/update.txt` the one update and
   * `z/delete.txt` the one delete.
   */
  lemma DiffExample(objs: seq<ObjectRecord>, upd: ObjectRecord, stale: ObjectRecord, del: ObjectRecord)
    requires objs != [] && objs[0] == ObjectRecord("README.md", 47, "SPgiydU0kcyQmcQv/4ZIyA==")
    requires DistinctKeys(objs) && forall i :: 0 <= i < |objs| ==> !IsDirectoryKey(objs[i].key)
    requires forall i :: 0 <= i < |objs| ==> objs[i].key != "z/update.txt" && objs[i].key != "z/delete.txt"
    requires upd == ObjectRecord("z/update.txt", 200, "UUUUUUUUUUUUUUUUUUUUUU==")
    requires stale == ObjectRecord("z/update.txt", 100, "GOVl8c0J5IQiUlDtTe4LFM==")
    requires del == ObjectRecord("z/delete.txt", 123, "ZZZZZZZZZZZZZZZZZZZZZZ==")
    ensures DiffOf(objs + [upd], objs[1..] + [stale, del]) == Changes([objs[0]], [upd], [del])
  {
    var local, remote := objs + [upd], objs[1..] + [stale, del];
    ExampleKinds(objs, upd, stale, del);
    ExampleDeletes(objs, upd, stale, del);
    SortSingle(objs[0]);
    SortSingle(upd);
    SortSingle(del);
  }

  /** The adds and the updates of the example, before sorting. */
  lemma ExampleKinds(objs: seq<ObjectRecord>, upd: ObjectRecord, stale: ObjectRecord, del: ObjectRecord)
    requires objs != [] && objs[0].key == "README.md"
    requires DistinctKeys(objs) && forall i :: 0 <= i < |objs| ==> !IsDirectoryKey(objs[i].key)
    requires forall i :: 0 <= i < |objs| ==> objs[i].key != "z/update.txt" && objs[i].key != "z/delete.txt"
    requires upd.key == stale.key == "z/update.txt" && upd.size != stale.size && del.key == "z/delete.txt"
    ensures var local, d := objs + [upd], RemoteDict(objs[1..] + [stale, del]);
      OfKind(local, d, Add) == [objs[0]] && OfKind(local, d, Update) == [upd]
  {
    ExampleKind(objs, upd, stale, del, Add, 0);
    ExampleKind(objs, upd, stale, del, Update, |objs|);
  }

  /** The one local record of the example that has kind `kind`, at `j`. */
  lemma ExampleKind(objs: seq<ObjectRecord>, upd: ObjectRecord, stale: ObjectRecord, del: ObjectRecord,
                    kind: Change, j: nat)
    requires objs != [] && objs[0].key == "README.md"
    requires DistinctKeys(objs) && forall i :: 0 <= i < |objs| ==> !IsDirectoryKey(objs[i].key)
    requires forall i :: 0 <= i < |objs| ==> objs[i].key != "z/update.txt" && objs[i].key != "z/delete.txt"
    requires upd.key == stale.key == "z/update.txt" && upd.size != stale.size && del.key == "z/delete.txt"
    requires (kind == Add && j == 0) || (kind == Update && j == |objs|)
    ensures var local, d := objs + [upd], RemoteDict(objs[1..] + [stale, del]);
      OfKind(local, d, kind) == [local[j]]
  {
    var local, d := objs + [upd], RemoteDict(objs[1..] + [stale, del]);
    forall i | 0 <= i < |local|
      ensures Classify(d - KeysOf(local[..i]), local[i]) == kind <==> i == j
    {
      ExampleClassified(objs, upd, stale, del, i);
    }
    OfKindAtMost(local, d, kind, j);
  }

  lemma SortSingle(x: ObjectRecord)
    ensures SortByKey([x]) == [x]
  {
    assert [x][1..] == [];
  }

  /** The remote dict of the example: the rest of `objs`, the older `z/update.txt` and `z/delete.txt`. */
  lemma ExampleRemote(objs: seq<ObjectRecord>, stale: ObjectRecord, del: ObjectRecord)
    requires objs != [] && DistinctKeys(objs) && forall i :: 0 <= i < |objs| ==> !IsDirectoryKey(objs[i].key)
    requires forall i :: 0 <= i < |objs| ==> objs[i].key != stale.key && objs[i].key != del.key
    requires stale.key != del.key && !IsDirectoryKey(stale.key) && !IsDirectoryKey(del.key)
    ensures var d := RemoteDict(objs[1..] + [stale, del]);
      && (forall i :: 1 <= i < |objs| ==> objs[i].key in d && d[objs[i].key] == objs[i])
      && stale.key in d && d[stale.key] == stale && del.key in d && d[del.key] == del
      && forall k :: k in d ==> k == stale.key || k == del.key || exists i :: 1 <= i < |objs| && objs[i].key == k
  {
    ExampleRemoteValues(objs, stale, del);
    ExampleRemoteKeys(objs, stale, del);
  }

  lemma ExampleRemoteValues(objs: seq<ObjectRecord>, stale: ObjectRecord, del: ObjectRecord)
    requires objs != [] && DistinctKeys(objs) && forall i :: 0 <= i < |objs| ==> !IsDirectoryKey(objs[i].key)
    requires forall i :: 0 <= i < |objs| ==> objs[i].key != stale.key && objs[i].key != del.key
    requires stale.key != del.key && !IsDirectoryKey(stale.key) && !IsDirectoryKey(del.key)
    ensures var d := RemoteDict(objs[1..] + [stale, del]);
      && (forall i :: 1 <= i < |objs| ==> objs[i].key in d && d[objs[i].key] == objs[i])
      && stale.key in d && d[stale.key] == stale && del.key in d && d[del.key] == del
  {
    var remote := objs[1..] + [stale, del];
    forall i | 1 <= i < |objs| ensures objs[i].key in RemoteDict(remote) && RemoteDict(remote)[objs[i].key] == objs[i] {
      ExampleRemoteLast(objs, stale, del, i - 1);
      RemoteDictLastWins(remote, i - 1);
    }
    ExampleRemoteLast(objs, stale, del, |objs| - 1);
    RemoteDictLastWins(remote, |objs| - 1);
    ExampleRemoteLast(objs, stale, del, |objs|);
    RemoteDictLastWins(remote, |objs|);
  }

  lemma ExampleRemoteKeys(objs: seq<ObjectRecord>, stale: ObjectRecord, del: ObjectRecord)
    requires objs != []
    ensures forall k :: k in RemoteDict(objs[1..] + [stale, del]) ==>
      k == stale.key || k == del.key || exists i :: 1 <= i < |objs| && objs[i].key == k
  {
    var remote := objs[1..] + [stale, del];
    RemoteDictKeys(remote);
    forall k | k in RemoteDict(remote)
      ensures k == stale.key || k == del.key || exists i :: 1 <= i < |objs| && objs[i].key == k
    {
      var r :| r in remote && r.key == k;
      var j :| 0 <= j < |remote| && remote[j] == r;
      ExampleRemoteAt(objs, stale, del, j);
    }
  }

  /** Every record of the example's remote list is the last with its key. */
  lemma ExampleRemoteLast(objs: seq<ObjectRecord>, stale: ObjectRecord, del: ObjectRecord, j: int)
    requires objs != [] && DistinctKeys(objs)
    requires forall i :: 0 <= i < |objs| ==> objs[i].key != stale.key && objs[i].key != del.key
    requires stale.key != del.key && 0 <= j <= |objs|
    ensures var remote := objs[1..] + [stale, del];
      remote[j] == (if j < |objs| - 1 then objs[j + 1] else if j == |objs| - 1 then stale else del)
      && LastWithKey(remote, j)
  {
    var remote := objs[1..] + [stale, del];
    ExampleRemoteAt(objs, stale, del, j);
    forall k | j < k < |remote| ensures remote[k].key != remote[j].key {
      ExampleRemoteAt(objs, stale, del, k);
    }
  }

  lemma ExampleRemoteAt(objs: seq<ObjectRecord>, stale: ObjectRecord, del: ObjectRecord, j: int)
    requires objs != [] && 0 <= j <= |objs|
    ensures var remote := objs[1..] + [stale, del];
      |remote| == |objs| + 1
      && remote[j] == (if j < |objs| - 1 then objs[j + 1] else if j == |objs| - 1 then stale else del)
  {
  }

  /** How each local record of the example is classified. */
  lemma ExampleClassified(objs: seq<ObjectRecord>, upd: ObjectRecord, stale: ObjectRecord, del: ObjectRecord, i: int)
    requires objs != [] && objs[0].key == "README.md"
    requires DistinctKeys(objs) && forall i :: 0 <= i < |objs| ==> !IsDirectoryKey(objs[i].key)
    requires forall i :: 0 <= i < |objs| ==> objs[i].key != "z/update.txt" && objs[i].key != "z/delete.txt"
    requires upd.key == stale.key == "z/update.txt" && upd.size != stale.size && del.key == "z/delete.txt"
    requires 0 <= i <= |objs|
    ensures var local, d := objs + [upd], RemoteDict(objs[1..] + [stale, del]);
      var kind := Classify(d - KeysOf(local[..i]), local[i]);
      (kind == Add <==> i == 0) && (kind == Update <==> i == |objs|)
  {
    var local, d := objs + [upd], RemoteDict(objs[1..] + [stale, del]);
    ExampleRemote(objs, stale, del);
    assert local[i] == if i < |objs| then objs[i] else upd;
    NotInPrefix(local, i, local[i].key);
    if i == 0 {
      assert objs[0].key !in d;
    }
  }

  /**
   * A kind that only the record at `j` has (none when `j` is past the end)
   * selects exactly that record.
   */
  lemma {:induction false} OfKindAtMost(local: seq<ObjectRecord>, remote: Dict, kind: Change, j: nat)
    requires forall i :: 0 <= i < |local| ==> (Classify(remote - KeysOf(local[..i]), local[i]) == kind <==> i == j)
    ensures OfKind(local, remote, kind) == if j < |local| then [local[j]] else []
    decreases |local|
  {
    if local != [] {
      var n := |local| - 1;
      var pre := local[..n];
      forall i | 0 <= i < n
        ensures Classify(remote - KeysOf(pre[..i]), pre[i]) == kind <==> i == j
      {
        PrefixOfPrefix(local, n, i);
      }
      OfKindAtMost(pre, remote, kind, j);
      var hit := Classify(remote - KeysOf(pre), local[n]) == kind;
      assert hit <==> n == j;
      assert OfKind(local, remote, kind) == OfKind(pre, remote, kind) + if hit then [local[n]] else [];
      if j < n {
        assert OfKind(pre, remote, kind) == [local[j]];
      } else {
        assert OfKind(pre, remote, kind) == [];
      }
    }
  }

  /** The only delete of the example is `z/delete.txt`. */
  lemma ExampleDeletes(objs: seq<ObjectRecord>, upd: ObjectRecord, stale: ObjectRecord, del: ObjectRecord)
    requires objs != [] && DistinctKeys(objs) && forall i :: 0 <= i < |objs| ==> !IsDirectoryKey(objs[i].key)
    requires forall i :: 0 <= i < |objs| ==> objs[i].key != "z/update.txt" && objs[i].key != "z/delete.txt"
    requires upd.key == stale.key == "z/update.txt" && del.key == "z/delete.txt"
    ensures DiffOf(objs + [upd], objs[1..] + [stale, del]).deletes == [del]
  {
    var local, remote := objs + [upd], objs[1..] + [stale, del];
    DeletesExactly(local, remote);
    ExampleDeleteList(objs, upd, stale, del, DiffOf(local, remote).deletes);
  }

  /** A key-distinct list of the example's unmatched remote records is `[del]`. */
  lemma ExampleDeleteList(objs: seq<ObjectRecord>, upd: ObjectRecord, stale: ObjectRecord, del: ObjectRecord,
                          dels: seq<ObjectRecord>)
    requires objs != [] && DistinctKeys(objs) && forall i :: 0 <= i < |objs| ==> !IsDirectoryKey(objs[i].key)
    requires forall i :: 0 <= i < |objs| ==> objs[i].key != "z/update.txt" && objs[i].key != "z/delete.txt"
    requires upd.key == stale.key == "z/update.txt" && del.key == "z/delete.txt"
    requires var d := RemoteDict(objs[1..] + [stale, del]);
      forall r :: r in dels <==> r.key in d && r.key !in KeysOf(objs + [upd]) && d[r.key] == r
    requires DistinctKeys(dels)
    ensures dels == [del]
  {
    var remote := objs[1..] + [stale, del];
    ExampleRemoteLast(objs, stale, del, |objs|);
    RemoteDictLastWins(remote, |objs|);
    KeysOfSnoc(objs, upd);
    NotInPrefix(objs, |objs|, del.key);
    assert objs[..|objs|] == objs;
    forall r | r in dels ensures r == del {
      ExampleDeleteKey(objs, upd, stale, del, r.key);
    }
    SingleMember(dels, del);
  }

  /** The only key of the example's remote dict that no local record has is `z/delete.txt`. */
  lemma ExampleDeleteKey(objs: seq<ObjectRecord>, upd: ObjectRecord, stale: ObjectRecord, del: ObjectRecord, k: string)
    requires objs != [] && DistinctKeys(objs) && forall i :: 0 <= i < |objs| ==> !IsDirectoryKey(objs[i].key)
    requires forall i :: 0 <= i < |objs| ==> objs[i].key != "z/update.txt" && objs[i].key != "z/delete.txt"
    requires upd.key == stale.key == "z/update.txt" && del.key == "z/delete.txt"
    requires k in RemoteDict(objs[1..] + [stale, del]) && k !in KeysOf(objs + [upd])
    ensures k == del.key
  {
    ExampleRemote(objs, stale, del);
    KeysOfSnoc(objs, upd);
    forall i | 1 <= i < |objs| ensures objs[i].key in KeysOf(objs) {
      assert objs[i] in objs;
    }
  }

  /** A key-distinct list whose only member is `x` is `[x]`. */
  lemma SingleMember(s: seq<ObjectRecord>, x: ObjectRecord)
    requires DistinctKeys(s) && x in s && forall r :: r in s ==> r == x
    ensures s == [x]
  {
    assert s[0] in s;
    if |s| > 1 {
      SecondIsFirst(s, x);
      assert false;
    }
  }

  lemma SecondIsFirst(s: seq<ObjectRecord>, x: ObjectRecord)
    requires |s| > 1 && forall r :: r in s ==> r == x
    ensures s[1] == s[0]
  {
    assert s[0] in s && s[1] in s;
  }

  // ---------------------------------------------------------------------
  // Directory markers in the remote listing
  // ---------------------------------------------------------------------

  /** The records of `s` whose key is not a directory marker, in order. */
  function WithoutMarkers(s: seq<ObjectRecord>): (r: seq<ObjectRecord>)
    ensures forall x :: x in r <==> x in s && !IsDirectoryKey(x.key)
    decreases |s|
  {
    if s == [] then []
    else (if IsDirectoryKey(s[0].key) then [] else [s[0]]) + WithoutMarkers(s[1..])
  }

  lemma {:induction false} WithoutMarkersAppend(a: seq<ObjectRecord>, b: seq<ObjectRecord>)
    ensures WithoutMarkers(a + b) == WithoutMarkers(a) + WithoutMarkers(b)
    decreases |a|
  {
    if a == [] {
      assert a + b == b;
    } else {
      assert (a + b)[0] == a[0] && (a + b)[1..] == a[1..] + b;
      WithoutMarkersAppend(a[1..], b);
      var h := if IsDirectoryKey(a[0].key) then [] else [a[0]];
      assert h + (WithoutMarkers(a[1..]) + WithoutMarkers(b)) == (h + WithoutMarkers(a[1..])) + WithoutMarkers(b);
    }
  }

  /** The dict and key order after one more record. */
  lemma RemoteDictSnoc(f: seq<ObjectRecord>, x: ObjectRecord)
    ensures RemoteDict(f + [x]) == FileObjsToDict(RemoteDict(f), x)
    ensures DictOrder(f + [x])
      == if IsDirectoryKey(x.key) || x.key in RemoteDict(f) then DictOrder(f) else DictOrder(f) + [x.key]
  {
    assert (f + [x])[..|f|] == f;
  }

  /** `reduce(file_objs_to_dict, …)` builds the same dict, in the same key order, without the markers. */
  lemma {:induction false} RemoteDictWithoutMarkers(s: seq<ObjectRecord>)
    ensures RemoteDict(WithoutMarkers(s)) == RemoteDict(s)
    ensures DictOrder(WithoutMarkers(s)) == DictOrder(s)
    decreases |s|
  {
    if s != [] {
      var n := |s| - 1;
      RemoteDictWithoutMarkers(s[..n]);
      LastSplit(s);
      WithoutMarkersSnoc(s[..n], s[n]);
    }
  }

  lemma LastSplit(s: seq<ObjectRecord>)
    requires s != []
    ensures s[..|s| - 1] + [s[|s| - 1]] == s
  {
  }

  /** One step of `RemoteDictWithoutMarkers`: a record appended to `p`. */
  lemma WithoutMarkersSnoc(p: seq<ObjectRecord>, x: ObjectRecord)
    requires RemoteDict(WithoutMarkers(p)) == RemoteDict(p) && DictOrder(WithoutMarkers(p)) == DictOrder(p)
    ensures RemoteDict(WithoutMarkers(p + [x])) == RemoteDict(p + [x])
    ensures DictOrder(WithoutMarkers(p + [x])) == DictOrder(p + [x])
  {
    RemoteDictSnoc(p, x);
    WithoutMarkersAppend(p, [x]);
    var f := WithoutMarkers(p);
    assert [x][1..] == [];
    if IsDirectoryKey(x.key) {
      assert WithoutMarkers(p + [x]) == f + [];
      assert f + [] == f;
    } else {
      assert WithoutMarkers(p + [x]) == f + [x];
      RemoteDictSnoc(f, x);
    }
  }

  /** Directory markers among the remote records never change what `diff` returns. */
  lemma DiffIgnoresMarkers(local: seq<ObjectRecord>, remote: seq<ObjectRecord>)
    ensures DiffOf(local, remote) == DiffOf(local, WithoutMarkers(remote))
  {
    RemoteDictWithoutMarkers(remote);
  }
}

/**
 * The unit of comparison of the synchronizer, a `{key, size, md5}` record,
 * and `sorted_objs`: Python's stable `sorted` on the `key` field.
 */
module Records {
  import opened Text

  /** One object: storage key, byte size, base64 of the MD5 digest. */
  datatype ObjectRecord = ObjectRecord(key: string, size: int, md5: string)

  function KeysOf(s: seq<ObjectRecord>): set<string> {
    set r | r in s :: r.key
  }

  ghost predicate Sorted(s: seq<ObjectRecord>) {
    forall i, j :: 0 <= i < j < |s| ==> KeyLe(s[i].key, s[j].key)
  }

  ghost predicate DistinctKeys(s: seq<ObjectRecord>) {
    forall i, j :: 0 <= i < j < |s| ==> s[i].key != s[j].key
  }

  /** The records of `s` whose key is `k`, in the order of `s`. */
  function WithKey(s: seq<ObjectRecord>, k: string): seq<ObjectRecord> {
    if s == [] then []
    else (if s[0].key == k then [s[0]] else []) + WithKey(s[1..], k)
  }

  /**
   * Inserts `x` in front of the first record whose key is not smaller:
   * records with an equal key keep their relative order behind `x`.
   */
  function Insert(x: ObjectRecord, t: seq<ObjectRecord>): (r: seq<ObjectRecord>)
    ensures multiset(r) == multiset(t) + multiset{x}
    ensures Sorted(t) ==> Sorted(r)
  {
    if t == [] then [x]
    else if KeyLe(x.key, t[0].key) then
      InsertFrontSorted(x, t);
      [x] + t
    else
      var rest := Insert(x, t[1..]);
      assert t == [t[0]] + t[1..];
      InsertBehindSorted(x, t, rest);
      [t[0]] + rest
  }

  lemma InsertFrontSorted(x: ObjectRecord, t: seq<ObjectRecord>)
    requires t != [] && KeyLe(x.key, t[0].key)
    ensures Sorted(t) ==> Sorted([x] + t)
  {
    if Sorted(t) {
      forall j | 0 < j <= |t| ensures KeyLe(x.key, ([x] + t)[j].key) {
        if j > 1 { KeyLeTransitive(x.key, t[0].key, t[j - 1].key); }
      }
    }
  }

  lemma InsertBehindSorted(x: ObjectRecord, t: seq<ObjectRecord>, rest: seq<ObjectRecord>)
    requires t != [] && !KeyLe(x.key, t[0].key)
    requires multiset(rest) == multiset(t[1..]) + multiset{x}
    requires Sorted(t[1..]) ==> Sorted(rest)
    ensures Sorted(t) ==> Sorted([t[0]] + rest)
  {
    if !Sorted(t) { return; }
    KeyLeTotal(x.key, t[0].key);
    forall j | 0 <= j < |rest| ensures KeyLe(t[0].key, rest[j].key) {
      assert rest[j] in multiset(rest);
      if rest[j] != x {
        assert rest[j] in t[1..];
        var m :| 1 <= m < |t| && t[m] == rest[j];
      }
    }
  }

  /** `sorted_objs`: sorts by key; a permutation of its input. */
  function SortByKey(s: seq<ObjectRecord>): (r: seq<ObjectRecord>)
    ensures Sorted(r)
    ensures multiset(r) == multiset(s)
    ensures |r| == |s|
  {
    if s == [] then []
    else
      assert s == [s[0]] + s[1..];
      Insert(s[0], SortByKey(s[1..]))
  }

  lemma SortByKeyMembers(s: seq<ObjectRecord>, r: ObjectRecord)
    ensures r in SortByKey(s) <==> r in s
  {
    assert r in SortByKey(s) <==> r in multiset(SortByKey(s));
    assert r in s <==> r in multiset(s);
  }

  lemma EmptyUnlessMember(s: seq<ObjectRecord>)
    ensures s == [] || s[0] in s
  {
  }

  // ---------------------------------------------------------------------
  // Stability and uniqueness
  // ---------------------------------------------------------------------

  lemma {:induction false} WithKeyInsert(x: ObjectRecord, t: seq<ObjectRecord>, k: string)
    ensures WithKey(Insert(x, t), k) == (if x.key == k then [x] else []) + WithKey(t, k)
    decreases |t|
  {
    if t == [] {
      WithKeyCons(x, [], k);
    } else if KeyLe(x.key, t[0].key) {
      assert Insert(x, t) == [x] + t;
      WithKeyCons(x, t, k);
    } else {
      WithKeyInsert(x, t[1..], k);
      WithKeyInsertStep(x, t, k);
    }
  }

  /** The step of `WithKeyInsert` where `x` goes behind the head of `t`. */
  lemma WithKeyInsertStep(x: ObjectRecord, t: seq<ObjectRecord>, k: string)
    requires t != [] && !KeyLe(x.key, t[0].key)
    requires WithKey(Insert(x, t[1..]), k) == (if x.key == k then [x] else []) + WithKey(t[1..], k)
    ensures WithKey(Insert(x, t), k) == (if x.key == k then [x] else []) + WithKey(t, k)
  {
    InsertBehind(x, t);
    if x.key == k {
      assert t[0].key != k by { KeyLeRefl(k); }
    }
    WithKeyBehind(t[0], Insert(x, t[1..]), t[1..], if x.key == k then [x] else [], k);
    assert [t[0]] + t[1..] == t;
  }

  /** `x` is inserted behind a head with a smaller key. */
  lemma InsertBehind(x: ObjectRecord, t: seq<ObjectRecord>)
    requires t != [] && !KeyLe(x.key, t[0].key)
    ensures Insert(x, t) == [t[0]] + Insert(x, t[1..])
  {
  }

  /** A head put in front of two lists keeps their `WithKey` relation, when one of them has no `k`. */
  lemma WithKeyBehind(h: ObjectRecord, r: seq<ObjectRecord>, u: seq<ObjectRecord>, e: seq<ObjectRecord>, k: string)
    requires WithKey(r, k) == e + WithKey(u, k)
    requires e == [] || h.key != k
    ensures WithKey([h] + r, k) == e + WithKey([h] + u, k)
  {
    WithKeyCons(h, r, k);
    WithKeyCons(h, u, k);
  }

  /** The records with key `k` of a list with `y` in front. */
  lemma WithKeyCons(y: ObjectRecord, s: seq<ObjectRecord>, k: string)
    ensures WithKey([y] + s, k) == (if y.key == k then [y] else []) + WithKey(s, k)
  {
    assert ([y] + s)[1..] == s;
  }

  /** `sorted` is stable: records with one key keep their input order. */
  lemma {:induction false} SortByKeyStable(s: seq<ObjectRecord>, k: string)
    ensures WithKey(SortByKey(s), k) == WithKey(s, k)
    decreases |s|
  {
    if s != [] {
      WithKeyInsert(s[0], SortByKey(s[1..]), k);
      SortByKeyStable(s[1..], k);
    }
  }

  lemma {:induction false} WithKeyFound(s: seq<ObjectRecord>, i: int)
    requires 0 <= i < |s|
    ensures WithKey(s, s[i].key) != []
    decreases |s|
  {
    if i > 0 { WithKeyFound(s[1..], i - 1); }
  }

  lemma {:induction false} WithKeyMembers(s: seq<ObjectRecord>, k: string)
    ensures forall r :: r in WithKey(s, k) ==> r in s && r.key == k
    decreases |s|
  {
    if s != [] { WithKeyMembers(s[1..], k); }
  }

  /**
   * A sorted sequence is determined by its per-key subsequences: two sorted
   * sequences that agree on `WithKey` for every key are equal.
   */
  lemma {:induction false} SortedDeterminedByKeys(a: seq<ObjectRecord>, b: seq<ObjectRecord>)
    requires Sorted(a) && Sorted(b)
    requires forall k :: WithKey(a, k) == WithKey(b, k)
    ensures a == b
    decreases |a|
  {
    if a == [] {
      if b != [] {
        WithKeyFound(b, 0);
        assert false;
      }
    } else if b == [] {
      WithKeyFound(a, 0);
      assert false;
    } else {
      SortedSameHead(a, b);
      SortedSameHead(b, a);
      KeyLeAntisymmetric(a[0].key, b[0].key);
      SameTails(a, b);
      SortedTail(a);
      SortedTail(b);
      SortedDeterminedByKeys(a[1..], b[1..]);
      assert a == [a[0]] + a[1..] && b == [b[0]] + b[1..];
    }
  }

  /** The first record of a sorted sequence is no greater than any record of another with the same keys. */
  lemma SortedSameHead(a: seq<ObjectRecord>, b: seq<ObjectRecord>)
    requires Sorted(a) && Sorted(b) && a != [] && b != []
    requires forall k :: WithKey(a, k) == WithKey(b, k)
    ensures KeyLe(a[0].key, b[0].key)
    ensures a[0].key == b[0].key ==> a[0] == b[0]
  {
    var k := b[0].key;
    WithKeyFound(b, 0);
    WithKeyMembers(a, k);
    var y := WithKey(a, k)[0];
    var j :| 0 <= j < |a| && a[j] == y;
    if j == 0 {
      KeyLeRefl(k);
    }
    if a[0].key == k {
      assert WithKey(a, k)[0] == a[0] && WithKey(b, k)[0] == b[0];
    }
  }

  lemma SortedTail(a: seq<ObjectRecord>)
    requires Sorted(a) && a != []
    ensures Sorted(a[1..])
  {
    forall i, j | 0 <= i < j < |a| - 1 ensures KeyLe(a[1..][i].key, a[1..][j].key) {
      assert a[1..][i] == a[i + 1] && a[1..][j] == a[j + 1];
    }
  }

  /** Two sequences with the same first record and the same per-key subsequences agree on their tails. */
  lemma SameTails(a: seq<ObjectRecord>, b: seq<ObjectRecord>)
    requires a != [] && b != [] && a[0] == b[0]
    requires forall k :: WithKey(a, k) == WithKey(b, k)
    ensures forall k :: WithKey(a[1..], k) == WithKey(b[1..], k)
  {
    forall k ensures WithKey(a[1..], k) == WithKey(b[1..], k) {
      var p := if a[0].key == k then [a[0]] else [];
      assert WithKey(a, k) == p + WithKey(a[1..], k);
      assert WithKey(b, k) == p + WithKey(b[1..], k);
      assert (p + WithKey(a[1..], k))[|p|..] == WithKey(a[1..], k);
      assert (p + WithKey(b[1..], k))[|p|..] == WithKey(b[1..], k);
    }
  }

  /**
   * Sorting forgets the input order except within one key: inputs with the
   * same per-key subsequences sort to the same output.
   */
  lemma SortByKeyCanonical(s: seq<ObjectRecord>, t: seq<ObjectRecord>)
    requires forall k :: WithKey(s, k) == WithKey(t, k)
    ensures SortByKey(s) == SortByKey(t)
  {
    forall k ensures WithKey(SortByKey(s), k) == WithKey(SortByKey(t), k) {
      SortByKeyStable(s, k);
      SortByKeyStable(t, k);
    }
    SortedDeterminedByKeys(SortByKey(s), SortByKey(t));
  }

  /** Sorting keeps keys distinct. */
  lemma SortByKeyDistinct(s: seq<ObjectRecord>)
    requires DistinctKeys(s)
    ensures DistinctKeys(SortByKey(s))
  {
    var r := SortByKey(s);
    forall i, j | 0 <= i < j < |r| ensures r[i].key != r[j].key {
      if r[i].key == r[j].key {
        var k := r[i].key;
        WithKeyAtLeastTwo(r, i, j);
        SortByKeyStable(s, k);
        WithKeyAtMostOne(s, k);
      }
    }
  }

  lemma {:induction false} WithKeyAtLeastTwo(s: seq<ObjectRecord>, i: int, j: int)
    requires 0 <= i < j < |s| && s[i].key == s[j].key
    ensures |WithKey(s, s[i].key)| >= 2
    decreases |s|
  {
    if i > 0 {
      WithKeyAtLeastTwo(s[1..], i - 1, j - 1);
    } else {
      WithKeyFound(s[1..], j - 1);
    }
  }

  lemma {:induction false} WithKeyAbsent(s: seq<ObjectRecord>, k: string)
    requires forall i :: 0 <= i < |s| ==> s[i].key != k
    ensures WithKey(s, k) == []
    decreases |s|
  {
    if s != [] { WithKeyAbsent(s[1..], k); }
  }

  lemma {:induction false} WithKeyAtMostOne(s: seq<ObjectRecord>, k: string)
    requires DistinctKeys(s)
    ensures |WithKey(s, k)| <= 1
    decreases |s|
  {
    if s != [] {
      WithKeyAtMostOne(s[1..], k);
      if s[0].key == k {
        WithKeyAbsent(s[1..], k);
      }
    }
  }

  /** With distinct keys, a record is the only one with its key. */
  lemma {:induction false} WithKeyDistinct(s: seq<ObjectRecord>, r: ObjectRecord)
    requires DistinctKeys(s) && r in s
    ensures WithKey(s, r.key) == [r]
    decreases |s|
  {
    if s[0] == r {
      WithKeyAbsent(s[1..], r.key);
    } else {
      var m :| 0 <= m < |s| && s[m] == r;
      assert s[0].key != r.key;
      WithKeyDistinct(s[1..], r);
    }
  }

  lemma WithKeyNone(s: seq<ObjectRecord>, k: string)
    requires forall r :: r in s ==> r.key != k
    ensures WithKey(s, k) == []
  {
    WithKeyAbsent(s, k);
  }

  /** Two key-distinct sequences with the same records sort to the same output. */
  lemma SortByKeySameElements(s: seq<ObjectRecord>, t: seq<ObjectRecord>)
    requires DistinctKeys(s) && DistinctKeys(t)
    requires forall r :: r in s <==> r in t
    ensures SortByKey(s) == SortByKey(t)
  {
    forall k ensures WithKey(s, k) == WithKey(t, k) {
      if r :| r in s && r.key == k {
        WithKeyDistinct(s, r);
        WithKeyDistinct(t, r);
      } else {
        WithKeyNone(s, k);
        WithKeyNone(t, k);
      }
    }
    SortByKeyCanonical(s, t);
  }
}

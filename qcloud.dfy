/**
 * qcloud.py: the COS backend. Its client is built for a region, uploads
 * and deletes are `Providers.PutFile` and `Providers.DeleteFile`, and its
 * listing differs from the others: answers are dictionaries of strings,
 * so the size is parsed with `int`, the truncation flag is the string
 * `"false"` or something else, and the next marker must be present
 * whenever the answer is not `"false"`.
 */
module Qcloud {
  import opened Wrappers
  import opened Text
  import opened Records
  import opened ETag
  import opened Providers
  import opened EnvKeys

  /** `init` of qcloud.py. */
  method Init(ctx: Context, vars: map<string, string>) returns (r: Result<Client, ProviderError>)
    modifies ctx
    ensures r == RegionClient(vars)
    ensures ctx.entries == if r.Success? then old(ctx.entries)["client" := r.value] else old(ctx.entries)
  {
    var region := Lookup(vars, SyncRegion);
    if region.Failure? {
      return Failure(region.error);
    }
    var accessId := Lookup(vars, SyncAccessId);
    if accessId.Failure? {
      return Failure(accessId.error);
    }
    var accessSecret := Lookup(vars, SyncAccessSecret);
    if accessSecret.Failure? {
      return Failure(accessSecret.error);
    }
    var client := Client(None, Some(region.value), accessId.value, accessSecret.value, None);
    r := StoreClient(ctx, Success(client));
  }

  // ---------------------------------------------------------------------
  // `int(text)` for an optional sign and ASCII digits
  // ---------------------------------------------------------------------

  predicate IsDigit(c: char) {
    '0' <= c <= '9'
  }

  predicate AllDigits(s: string) {
    forall i :: 0 <= i < |s| ==> IsDigit(s[i])
  }

  /** The value of a string of decimal digits. */
  function DigitsValue(s: string): nat
    requires AllDigits(s)
    decreases |s|
  {
    if s == [] then 0 else DigitsValue(s[..|s| - 1]) * 10 + (s[|s| - 1] as int - '0' as int)
  }

  /** The text after a leading sign, if there is one. */
  function Unsigned(s: string): string {
    if s != [] && (s[0] == '-' || s[0] == '+') then s[1..] else s
  }

  /** `int(s)`: a ValueError unless `s` is an optional sign followed by at least one digit. */
  function ParseInt(s: string): (r: Option<int>)
    ensures r.Some? <==> Unsigned(s) != [] && AllDigits(Unsigned(s))
    ensures r.Some? && r.value < 0 ==> s[0] == '-'
  {
    var u := Unsigned(s);
    if u == [] || !AllDigits(u) then None
    else if s[0] == '-' then Some(-(DigitsValue(u) as int))
    else Some(DigitsValue(u))
  }

  /** `str(n)` of a natural number. */
  function Decimal(n: nat): (s: string)
    ensures s != [] && AllDigits(s)
    decreases n
  {
    if n < 10 then [('0' as int + n) as char]
    else Decimal(n / 10) + [('0' as int + n % 10) as char]
  }

  /** `str(n)`. */
  function IntToString(n: int): string {
    if n < 0 then "-" + Decimal(-n) else Decimal(n)
  }

  lemma {:induction false} DecimalValue(n: nat)
    ensures DigitsValue(Decimal(n)) == n
    decreases n
  {
    if n >= 10 {
      var s := Decimal(n);
      assert s[..|s| - 1] == Decimal(n / 10);
      DecimalValue(n / 10);
    }
  }

  /** `int(str(n)) == n`: every size COS can report as text is read back exactly. */
  lemma ParseIntRoundTrip(n: int)
    ensures ParseInt(IntToString(n)) == Some(n)
  {
    if n < 0 {
      var d := Decimal(-n);
      assert ("-" + d)[0] == '-' && ("-" + d)[1..] == d;
      DecimalValue(-n);
    } else {
      var d := Decimal(n);
      assert IsDigit(d[0]);
      DecimalValue(n);
    }
  }

  // ---------------------------------------------------------------------
  // The listing
  // ---------------------------------------------------------------------

  /** An object as `list_objects` reports it: every field a string. */
  datatype Entry = Entry(key: string, size: string, etag: string)

  /** One answer: its `Contents`, if any, `IsTruncated` and `NextMarker`, if present. */
  datatype Answer = Answer(contents: Option<seq<Entry>>, isTruncated: string, nextMarker: Option<string>)

  /** The record of an object: its E-Tag is converted before its size is parsed. */
  function ToRecord(obj: Entry): (r: Result<ObjectRecord, ProviderError>)
    ensures r.Success? <==> EtagToMd5(obj.etag).Some? && ParseInt(obj.size).Some?
    ensures EtagToMd5(obj.etag).None? ==> r == Failure(InvalidETag(obj.etag))
    ensures EtagToMd5(obj.etag).Some? && ParseInt(obj.size).None? ==> r == Failure(InvalidSize(obj.size))
    ensures r.Success? ==> r.value == ObjectRecord(obj.key, ParseInt(obj.size).value, EtagToMd5(obj.etag).value)
  {
    match EtagToMd5(obj.etag)
    case None => Failure(InvalidETag(obj.etag))
    case Some(md5) =>
      match ParseInt(obj.size)
      case None => Failure(InvalidSize(obj.size))
      case Some(size) => Success(ObjectRecord(obj.key, size, md5))
  }

  /** The records of an answer's objects that are not directory markers, or the first error. */
  function EntryRecords(contents: seq<Entry>): Result<seq<ObjectRecord>, ProviderError>
    decreases |contents|
  {
    if contents == [] then Success([])
    else if IsDirectoryKey(contents[0].key) then EntryRecords(contents[1..])
    else match ToRecord(contents[0])
      case Failure(e) => Failure(e)
      case Success(rec) => Then([rec], EntryRecords(contents[1..]))
  }

  function AnswerRecords(a: Answer): Result<seq<ObjectRecord>, ProviderError> {
    if a.contents.Some? then EntryRecords(a.contents.value) else Success([])
  }

  /** Whether another request follows this answer. */
  predicate Continues(a: Answer) {
    AnswerRecords(a).Success? && a.isTruncated != "false" && a.nextMarker.Some?
  }

  /**
   * What `list_all` returns for the answers `answers`: the records up to
   * the first answer whose flag is `"false"`; the first conversion error;
   * `MissingNextMarker` for an answer that is not `"false"` and has no
   * marker; `Exhausted` when the answers run out.
   */
  function Drain(answers: seq<Answer>): Result<seq<ObjectRecord>, ProviderError>
    decreases |answers|
  {
    if answers == [] then Failure(Exhausted)
    else match AnswerRecords(answers[0])
      case Failure(e) => Failure(e)
      case Success(rs) =>
        if answers[0].isTruncated == "false" then Success(rs)
        else if answers[0].nextMarker.None? then Failure(MissingNextMarker)
        else Then(rs, Drain(answers[1..]))
  }

  /** The markers of the requests made, in order, when the first carries `first`. */
  function Markers(answers: seq<Answer>, first: string): (r: seq<string>)
    ensures 1 <= |r| <= |answers| + 1 && r[0] == first
    decreases |answers|
  {
    if answers == [] || !Continues(answers[0]) then [first]
    else [first] + Markers(answers[1..], answers[0].nextMarker.value)
  }

  /**
   * The body of `for obj in contents: …`: the records of the files appended
   * to `objs`. The loop is that of `Providers.AppendFiles` (aws.py:87-90);
   * only the record conversion differs, `int(obj["Size"])` being read here.
   */
  method AppendFiles(objs: seq<ObjectRecord>, contents: seq<Entry>)
    returns (r: Result<seq<ObjectRecord>, ProviderError>)
    ensures r == Then(objs, EntryRecords(contents))
  {
    var acc := objs;
    for i := 0 to |contents|
      invariant Then(objs, EntryRecords(contents)) == Then(acc, EntryRecords(contents[i..]))
    {
      var obj := contents[i];
      assert contents[i..][0] == obj && contents[i..][1..] == contents[i + 1..];
      if !EndsWith(obj.key, "/") {
        var md5 := EtagToMd5(obj.etag);
        if md5.None? {
          return Failure(InvalidETag(obj.etag));
        }
        var size := ParseInt(obj.size);
        if size.None? {
          return Failure(InvalidSize(obj.size));
        }
        var rec := ObjectRecord(obj.key, size.value, md5.value);
        ThenThen(acc, [rec], EntryRecords(contents[i + 1..]));
        acc := acc + [rec];
      }
    }
    assert contents[|contents|..] == [] && acc + [] == acc;
    r := Success(acc);
  }

  /**
   * `if "Contents" in resp: …`: the same step as `Listing.Absorb`, over
   * the answers of the COS listing, whose records come from `EntryRecords`.
   */
  method Absorb(objs: seq<ObjectRecord>, a: Answer) returns (r: Result<seq<ObjectRecord>, ProviderError>)
    ensures r == Then(objs, AnswerRecords(a))
  {
    if a.contents.Some? {
      r := AppendFiles(objs, a.contents.value);
    } else {
      assert objs + [] == objs;
      r := Success(objs);
    }
  }

  /** `Drain` and `Markers` from the n-th answer on, for an answer that converts. */
  lemma Advance(answers: seq<Answer>, n: int, objs: seq<ObjectRecord>, m: string)
    requires 0 <= n < |answers| && AnswerRecords(answers[n]).Success?
    ensures var a, all := answers[n], objs + AnswerRecords(answers[n]).value;
      && (a.isTruncated == "false" ==> Then(objs, Drain(answers[n..])) == Success(all))
      && (a.isTruncated != "false" && a.nextMarker.None? ==> Then(objs, Drain(answers[n..])) == Failure(MissingNextMarker))
      && (Continues(a) ==> Then(objs, Drain(answers[n..])) == Then(all, Drain(answers[n + 1..])))
      && (!Continues(a) ==> Markers(answers[n..], m) == [m])
      && (Continues(a) ==> Markers(answers[n..], m) == [m] + Markers(answers[n + 1..], a.nextMarker.value))
  {
    assert answers[n..][0] == answers[n] && answers[n..][1..] == answers[n + 1..];
    ThenThen(objs, AnswerRecords(answers[n]).value, Drain(answers[n + 1..]));
  }

  /** An answer that does not convert ends the listing with its error. */
  lemma Abort(answers: seq<Answer>, n: int, objs: seq<ObjectRecord>, m: string)
    requires 0 <= n < |answers| && AnswerRecords(answers[n]).Failure?
    ensures Then(objs, Drain(answers[n..])) == AnswerRecords(answers[n])
    ensures Markers(answers[n..], m) == [m]
  {
    assert answers[n..][0] == answers[n];
  }

  /**
   * `list_all` of qcloud.py: the bucket and client of `ListTarget`, then
   * the answers; `sent` are the markers of the requests made, in order.
   */
  method ListAll(ctx: map<string, Client>, vars: map<string, string>, answers: seq<Answer>)
    returns (r: Result<seq<ObjectRecord>, ProviderError>, sent: seq<string>)
    ensures ListTarget(ctx, vars).Failure? ==> r == Failure(ListTarget(ctx, vars).error) && sent == []
    ensures ListTarget(ctx, vars).Success? ==> r == Drain(answers) && sent == Markers(answers, "")
  {
    var target := ListTarget(ctx, vars);
    if target.Failure? {
      return Failure(target.error), [];
    }
    var marker := "";
    var objs: seq<ObjectRecord> := [];
    var n := 0;
    sent := [];
    assert answers[0..] == answers;
    ThenNothing(Drain(answers));
    while true
      invariant 0 <= n <= |answers|
      invariant Drain(answers) == Then(objs, Drain(answers[n..]))
      invariant Markers(answers, "") == sent + Markers(answers[n..], marker)
      decreases |answers| - n
    {
      ghost var before := sent;
      sent := sent + [marker];
      if n == |answers| {
        return Failure(Exhausted), sent;
      }
      var resp := answers[n];
      var found := Absorb(objs, resp);
      if found.Failure? {
        Abort(answers, n, objs, marker);
        return found, sent;
      }
      Advance(answers, n, objs, marker);
      objs := found.value;
      if resp.isTruncated == "false" {
        break;
      }
      if resp.nextMarker.None? {
        return Failure(MissingNextMarker), sent;
      }
      AppendAssociative(before, marker, Markers(answers[n + 1..], resp.nextMarker.value));
      marker := resp.nextMarker.value;
      n := n + 1;
    }
    r := Success(objs);
  }

  // ---------------------------------------------------------------------
  // Properties
  // ---------------------------------------------------------------------

  /**
   * Only the exact string `"false"` ends the listing: an answer flagged
   * `"False"`, `"true"` or anything else is followed by a request with
   * its marker, and one without a marker fails.
   */
  lemma OnlyFalseStops(a: Answer, rest: seq<Answer>, m: string)
    requires AnswerRecords(a).Success? && a.isTruncated != "false"
    ensures a.nextMarker.Some? ==>
      Drain([a] + rest) == Then(AnswerRecords(a).value, Drain(rest))
      && Markers([a] + rest, m) == [m] + Markers(rest, a.nextMarker.value)
    ensures a.nextMarker.None? ==> Drain([a] + rest) == Failure(MissingNextMarker) && Markers([a] + rest, m) == [m]
  {
    assert ([a] + rest)[0] == a && ([a] + rest)[1..] == rest;
  }

  /** An answer flagged `"false"` is the last one requested, whatever follows it. */
  lemma FalseIsLast(a: Answer, rest: seq<Answer>, m: string)
    requires a.isTruncated == "false"
    ensures Drain([a] + rest) == AnswerRecords(a)
    ensures Markers([a] + rest, m) == [m]
  {
    assert ([a] + rest)[0] == a;
  }

  /** The records of answers that all convert, one answer after the other. */
  function Gathered(answers: seq<Answer>): seq<ObjectRecord>
    requires forall i :: 0 <= i < |answers| ==> AnswerRecords(answers[i]).Success?
    decreases |answers|
  {
    if answers == [] then [] else AnswerRecords(answers[0]).value + Gathered(answers[1..])
  }

  /**
   * The listing is the records of the answers, each answer's in object
   * order, one answer after the other: answers that are followed by
   * another request put their records ahead of the later answers'.
   */
  lemma {:induction false} DrainInOrder(answers: seq<Answer>, rest: seq<Answer>)
    requires forall i :: 0 <= i < |answers| ==>
      AnswerRecords(answers[i]).Success? && answers[i].isTruncated != "false" && answers[i].nextMarker.Some?
    ensures Drain(answers + rest) == Then(Gathered(answers), Drain(rest))
    decreases |answers|
  {
    if answers == [] {
      assert answers + rest == rest;
      ThenNothing(Drain(rest));
    } else {
      assert (answers + rest)[0] == answers[0] && (answers + rest)[1..] == answers[1..] + rest;
      DrainInOrder(answers[1..], rest);
      ThenThen(AnswerRecords(answers[0]).value, Gathered(answers[1..]), Drain(rest));
    }
  }

  /**
   * Every record listed is an object, not a directory marker, of some
   * answer, with its key, its size read from the text and its E-Tag
   * converted.
   */
  lemma {:induction false} EntryRecordsListed(contents: seq<Entry>, rec: ObjectRecord)
    requires EntryRecords(contents).Success? && rec in EntryRecords(contents).value
    ensures exists o :: (o in contents && !IsDirectoryKey(o.key) && rec.key == o.key
                         && ParseInt(o.size) == Some(rec.size) && EtagToMd5(o.etag) == Some(rec.md5))
    decreases |contents|
  {
    var o := contents[0];
    if !IsDirectoryKey(o.key) && rec == ToRecord(o).value {
      assert o in contents;
    } else {
      assert rec in EntryRecords(contents[1..]).value;
      EntryRecordsListed(contents[1..], rec);
      var p :| p in contents[1..] && !IsDirectoryKey(p.key) && rec.key == p.key
        && ParseInt(p.size) == Some(rec.size) && EtagToMd5(p.etag) == Some(rec.md5);
      assert p in contents;
    }
  }

  /** A size written by `str` of a count is read back as that count. */
  lemma SizeReadBack(key: string, size: nat, etag: string)
    requires EtagToMd5(etag).Some?
    ensures ToRecord(Entry(key, IntToString(size), etag)) == Success(ObjectRecord(key, size, EtagToMd5(etag).value))
  {
    ParseIntRoundTrip(size);
  }
}

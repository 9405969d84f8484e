/**
 * The paged listings of aws.py, cloudflare.py and baidu.py: a backend is
 * asked for page after page, each request carrying a token (or marker)
 * taken from the previous answer, until a page says it is not truncated.
 * The answers are given as the sequence of pages the backend returns.
 */
module Listing {
  import opened Wrappers
  import opened Text
  import opened Records
  import opened ETag
  import opened Providers

  /** One answer: its objects, if the answer has any, the truncation flag and the next token. */
  datatype Page = Page(contents: Option<seq<Listed>>, isTruncated: bool, next: Option<string>)

  /**
   * How the next request's token is taken from an answer: S3 sends the
   * continuation token only when it is a non-empty string (`if cToken:`),
   * BOS passes the marker on as it is.
   */
  datatype TokenRule = OnlyNonEmpty | AsGiven

  function NextToken(rule: TokenRule, t: Option<string>): (r: Option<string>)
    ensures rule == OnlyNonEmpty && r.Some? ==> r.value != ""
  {
    match rule
    case OnlyNonEmpty => if t.Some? && t.value != "" then t else None
    case AsGiven => t
  }

  /** The records of one answer: an answer without objects contributes none. */
  function AnswerRecords(page: Page): Result<seq<ObjectRecord>, ProviderError> {
    if page.contents.Some? then PageRecords(page.contents.value) else Success([])
  }

  /** Whether the listing stops after this answer, for good or with an error. */
  predicate Stops(page: Page) {
    AnswerRecords(page).Failure? || !page.isTruncated
  }

  /**
   * What `list_all` returns for the answers `pages`: the records of every
   * answer up to the first one that is not truncated, in order; the error
   * of the first object that does not convert; or `Exhausted` when the
   * answers run out while still truncated.
   */
  function Drain(pages: seq<Page>): Result<seq<ObjectRecord>, ProviderError>
    decreases |pages|
  {
    if pages == [] then Failure(Exhausted)
    else match AnswerRecords(pages[0])
      case Failure(e) => Failure(e)
      case Success(rs) => if !pages[0].isTruncated then Success(rs) else Then(rs, Drain(pages[1..]))
  }

  /**
   * The tokens of the requests made, in order, when the first request
   * carries `first`; the request that finds no answer is included.
   */
  function Tokens(pages: seq<Page>, first: Option<string>, rule: TokenRule): (r: seq<Option<string>>)
    ensures 1 <= |r| <= |pages| + 1 && r[0] == first
    decreases |pages|
  {
    if pages == [] || Stops(pages[0]) then [first]
    else [first] + Tokens(pages[1..], NextToken(rule, pages[0].next), rule)
  }

  // ---------------------------------------------------------------------
  // Properties
  // ---------------------------------------------------------------------

  /**
   * The i-th request (after the first) carries the token of the (i-1)-th
   * answer, and every answer before the last one requested was truncated.
   */
  lemma {:induction false} TokensFollowAnswers(pages: seq<Page>, first: Option<string>, rule: TokenRule)
    ensures var t := Tokens(pages, first, rule);
      && (forall i :: 0 < i < |t| ==> t[i] == NextToken(rule, pages[i - 1].next))
      && (forall i :: 0 <= i < |t| - 1 ==> pages[i].isTruncated && !Stops(pages[i]))
    decreases |pages|
  {
    if pages != [] && !Stops(pages[0]) {
      TokensFollowAnswers(pages[1..], NextToken(rule, pages[0].next), rule);
    }
  }

  /** Under the S3 rule, no request carries an empty token; the first carries none. */
  lemma S3TokensNonEmpty(pages: seq<Page>)
    ensures var t := Tokens(pages, None, OnlyNonEmpty);
      t[0] == None && forall i :: 0 <= i < |t| && t[i].Some? ==> t[i].value != ""
  {
    TokensFollowAnswers(pages, None, OnlyNonEmpty);
  }

  /** Answers after the first complete one are never requested and change nothing. */
  lemma {:induction false} DrainStopsAtComplete(pages: seq<Page>, rest: seq<Page>, first: Option<string>,
                                                rule: TokenRule)
    requires pages != [] && !pages[|pages| - 1].isTruncated
    ensures Drain(pages + rest) == Drain(pages)
    ensures Tokens(pages + rest, first, rule) == Tokens(pages, first, rule)
    decreases |pages|
  {
    assert (pages + rest)[0] == pages[0];
    if |pages| > 1 {
      assert (pages + rest)[1..] == pages[1..] + rest;
      DrainStopsAtComplete(pages[1..], rest, NextToken(rule, pages[0].next), rule);
    }
  }

  /** Answers that are all truncated and all convert end in `Exhausted`. */
  lemma {:induction false} DrainExhausted(pages: seq<Page>)
    requires forall i :: 0 <= i < |pages| ==> pages[i].isTruncated && AnswerRecords(pages[i]).Success?
    ensures Drain(pages) == Failure(Exhausted)
    decreases |pages|
  {
    if pages != [] {
      DrainExhausted(pages[1..]);
    }
  }

  /** An answer without objects adds nothing, and the listing goes on when it is truncated. */
  lemma EmptyAnswerContinues(page: Page, rest: seq<Page>, first: Option<string>, rule: TokenRule)
    requires page.contents.None? && page.isTruncated
    ensures Drain([page] + rest) == Drain(rest)
    ensures Tokens([page] + rest, first, rule) == [first] + Tokens(rest, NextToken(rule, page.next), rule)
  {
    assert ([page] + rest)[1..] == rest;
    var r := Drain(rest);
    if r.Success? {
      assert [] + r.value == r.value;
    }
  }

  /** The records of answers that all convert, one answer after the other. */
  function Gathered(pages: seq<Page>): seq<ObjectRecord>
    requires forall i :: 0 <= i < |pages| ==> AnswerRecords(pages[i]).Success?
    decreases |pages|
  {
    if pages == [] then [] else AnswerRecords(pages[0]).value + Gathered(pages[1..])
  }

  /**
   * The listing keeps answer order and, within an answer, object order,
   * and neither sorts nor drops repeated keys: truncated answers put their
   * records, in order, ahead of whatever the later answers give.
   */
  lemma {:induction false} DrainInOrder(pages: seq<Page>, rest: seq<Page>)
    requires forall i :: 0 <= i < |pages| ==> pages[i].isTruncated && AnswerRecords(pages[i]).Success?
    ensures Drain(pages + rest) == Then(Gathered(pages), Drain(rest))
    decreases |pages|
  {
    if pages == [] {
      assert pages + rest == rest;
      ThenNothing(Drain(rest));
    } else {
      assert (pages + rest)[0] == pages[0] && (pages + rest)[1..] == pages[1..] + rest;
      DrainInOrder(pages[1..], rest);
      ThenThen(AnswerRecords(pages[0]).value, Gathered(pages[1..]), Drain(rest));
    }
  }

  /**
   * Every record listed is a file, not a directory marker, of some answer,
   * with that object's key and size and its E-Tag converted.
   */
  lemma {:induction false} DrainRecordsListed(pages: seq<Page>, rec: ObjectRecord)
    requires Drain(pages).Success? && rec in Drain(pages).value
    ensures exists i, o :: (0 <= i < |pages| && pages[i].contents.Some? && o in pages[i].contents.value
                            && !IsDirectoryKey(o.key) && rec.key == o.key && rec.size == o.size
                            && EtagToMd5(o.etag) == Some(rec.md5))
    decreases |pages|
  {
    var rs := AnswerRecords(pages[0]).value;
    if rec in rs {
      var c := pages[0].contents.value;
      PageRecordsFiles(c);
      var f := Files(c);
      var j :| 0 <= j < |rs| && rs[j] == rec;
      assert f[j] in f;
      assert 0 <= 0 < |pages| && pages[0].contents.Some? && f[j] in c;
    } else {
      var more := Drain(pages[1..]).value;
      assert rec in more;
      DrainRecordsListed(pages[1..], rec);
      var i, o :| 0 <= i < |pages[1..]| && pages[1..][i].contents.Some? && o in pages[1..][i].contents.value
        && !IsDirectoryKey(o.key) && rec.key == o.key && rec.size == o.size && EtagToMd5(o.etag) == Some(rec.md5);
      assert pages[i + 1] == pages[1..][i];
    }
  }

  // ---------------------------------------------------------------------
  // The loop
  // ---------------------------------------------------------------------

  /** One answer that converts: its records are appended, and the listing stops unless it is truncated. */
  lemma Advance(pages: seq<Page>, n: int, objs: seq<ObjectRecord>, t: Option<string>, rule: TokenRule)
    requires 0 <= n < |pages| && AnswerRecords(pages[n]).Success?
    ensures var all := objs + AnswerRecords(pages[n]).value;
      Then(objs, Drain(pages[n..]))
      == if pages[n].isTruncated then Then(all, Drain(pages[n + 1..])) else Success(all)
    ensures !pages[n].isTruncated ==> Tokens(pages[n..], t, rule) == [t]
    ensures pages[n].isTruncated ==>
      Tokens(pages[n..], t, rule) == [t] + Tokens(pages[n + 1..], NextToken(rule, pages[n].next), rule)
  {
    assert pages[n..][0] == pages[n] && pages[n..][1..] == pages[n + 1..];
    ThenThen(objs, AnswerRecords(pages[n]).value, Drain(pages[n + 1..]));
  }

  /** One answer that does not convert: the listing stops with its error. */
  lemma Abort(pages: seq<Page>, n: int, objs: seq<ObjectRecord>, t: Option<string>, rule: TokenRule)
    requires 0 <= n < |pages| && AnswerRecords(pages[n]).Failure?
    ensures Then(objs, Drain(pages[n..])) == AnswerRecords(pages[n])
    ensures Tokens(pages[n..], t, rule) == [t]
  {
    assert pages[n..][0] == pages[n];
  }

  /** The body of `if "Contents" in response: …`: an answer's file records appended to `objs`. */
  method Absorb(objs: seq<ObjectRecord>, page: Page) returns (r: Result<seq<ObjectRecord>, ProviderError>)
    ensures r == Then(objs, AnswerRecords(page))
  {
    if page.contents.Some? {
      r := AppendFiles(objs, page.contents.value);
    } else {
      assert objs + [] == objs;
      r := Success(objs);
    }
  }

  /**
   * `list_all` of aws.py, cloudflare.py (rule `OnlyNonEmpty`) and baidu.py
   * (rule `AsGiven`): the bucket and client of `ListTarget`, then requests
   * until an answer is not truncated, appending the records of each
   * answer's files. `sent` are the tokens of the requests made, in order.
   */
  method ListAll(ctx: map<string, Client>, vars: map<string, string>, pages: seq<Page>, rule: TokenRule)
    returns (r: Result<seq<ObjectRecord>, ProviderError>, sent: seq<Option<string>>)
    ensures ListTarget(ctx, vars).Failure? ==> r == Failure(ListTarget(ctx, vars).error) && sent == []
    ensures ListTarget(ctx, vars).Success? ==> r == Drain(pages) && sent == Tokens(pages, None, rule)
  {
    var target := ListTarget(ctx, vars);
    if target.Failure? {
      return Failure(target.error), [];
    }
    var isTruncated := true;
    var token: Option<string> := None;
    var objs: seq<ObjectRecord> := [];
    var n := 0;
    sent := [];
    assert pages[0..] == pages;
    ThenNothing(Drain(pages));
    while isTruncated
      invariant 0 <= n <= |pages|
      invariant isTruncated ==> Drain(pages) == Then(objs, Drain(pages[n..]))
      invariant isTruncated ==> Tokens(pages, None, rule) == sent + Tokens(pages[n..], NextToken(rule, token), rule)
      invariant !isTruncated ==> Drain(pages) == Success(objs) && Tokens(pages, None, rule) == sent
      decreases |pages| - n
    {
      var request := NextToken(rule, token);
      ghost var before := sent;
      sent := sent + [request];
      if n == |pages| {
        return Failure(Exhausted), sent;
      }
      var page := pages[n];
      var found := Absorb(objs, page);
      if found.Failure? {
        Abort(pages, n, objs, request, rule);
        return found, sent;
      }
      Advance(pages, n, objs, request, rule);
      objs := found.value;
      isTruncated := page.isTruncated;
      token := page.next;
      n := n + 1;
      if isTruncated {
        AppendAssociative(before, request, Tokens(pages[n..], NextToken(rule, token), rule));
      }
    }
    r := Success(objs);
  }
}

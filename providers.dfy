/**
 * What the storage backends (aws.py, cloudflare.py, baidu.py, qcloud.py,
 * aliyun.py) share: the `ctx` and `env` dictionaries they are handed, the
 * client settings their `init` builds, the requests their `upload` and
 * `delete` send, and the conversion of a listed object into a record.
 */
module Providers {
  import opened Wrappers
  import opened Text
  import opened Records
  import opened ETag
  import opened Mime
  import opened EnvKeys

  /** Why a backend call raises. */
  datatype ProviderError =
    | MissingKey(name: string)       // KeyError on `env` or `ctx`
    | InvalidETag(etag: string)      // ValueError from `bytes.fromhex`
    | InvalidSize(text: string)      // ValueError from `int`
    | MissingNextMarker              // KeyError on a truncated qcloud page
    | Exhausted                      // the listing ends while still truncated

  /** What an SDK client is built from. */
  datatype Client = Client(endpoint: Option<string>, region: Option<string>, accessId: string,
                           accessSecret: string, bucket: Option<string>)

  /** The `ctx` dict: what `init` stores for the other calls. */
  class Context {
    var entries: map<string, Client>

    constructor()
      ensures entries == map[]
    {
      entries := map[];
    }
  }

  /** The `env` dict (`os.environ`), which aliyun.py writes to. */
  class Environment {
    var vars: map<string, string>

    constructor(vars: map<string, string>)
      ensures this.vars == vars
    {
      this.vars := vars;
    }
  }

  /** `env[name]` or `ctx[name]`: a KeyError when the key is missing. */
  function Lookup<V>(m: map<string, V>, name: string): (r: Result<V, ProviderError>)
    ensures r.Success? <==> name in m
    ensures r.Success? ==> r.value == m[name]
    ensures r.Failure? ==> r.error == MissingKey(name)
  {
    if name in m then Success(m[name]) else Failure(MissingKey(name))
  }

  /** The endpoint host: `region`, with `suffix` appended unless it already ends with it. */
  function WithSuffix(region: string, suffix: string): (r: string)
    ensures EndsWith(r, suffix)
  {
    if EndsWith(region, suffix) then region
    else
      EndsWithAppended(region, suffix);
      region + suffix
  }

  /** The suffix is appended exactly when the region does not end with it. */
  lemma WithSuffixAppends(region: string, suffix: string)
    requires suffix != []
    ensures WithSuffix(region, suffix) == region <==> EndsWith(region, suffix)
    ensures WithSuffix(region, suffix) == region + suffix <==> !EndsWith(region, suffix)
  {
    if EndsWith(region, suffix) {
      assert |region + suffix| > |region|;
    }
  }

  /** Appending the suffix twice is appending it once. */
  lemma WithSuffixIdempotent(region: string, suffix: string)
    ensures WithSuffix(WithSuffix(region, suffix), suffix) == WithSuffix(region, suffix)
  {
  }

  /** The settings every `init` reads, in the order it reads them. */
  datatype Settings = Settings(region: string, accessId: string, accessSecret: string)

  /**
   * `env[SYNC_REGION]`, `env[SYNC_ACCESS_ID]`, `env[SYNC_ACCESS_SECRET]`:
   * the KeyError of the first one missing.
   */
  function ReadSettings(vars: map<string, string>): (r: Result<Settings, ProviderError>)
    ensures r.Success? <==> SyncRegion in vars && SyncAccessId in vars && SyncAccessSecret in vars
    ensures r.Success? ==> r.value == Settings(vars[SyncRegion], vars[SyncAccessId], vars[SyncAccessSecret])
    ensures SyncRegion !in vars ==> r == Failure(MissingKey(SyncRegion))
    ensures SyncRegion in vars && SyncAccessId !in vars ==> r == Failure(MissingKey(SyncAccessId))
    ensures (SyncRegion in vars && SyncAccessId in vars && SyncAccessSecret !in vars) ==>
      r == Failure(MissingKey(SyncAccessSecret))
  {
    match Lookup(vars, SyncRegion)
    case Failure(e) => Failure(e)
    case Success(region) =>
      match Lookup(vars, SyncAccessId)
      case Failure(e) => Failure(e)
      case Success(id) =>
        match Lookup(vars, SyncAccessSecret)
        case Failure(e) => Failure(e)
        case Success(secret) => Success(Settings(region, id, secret))
  }

  /** The client of aws.py and of qcloud.py: the region and the keys, no endpoint. */
  function RegionClient(vars: map<string, string>): (r: Result<Client, ProviderError>)
    ensures r.Success? <==> ReadSettings(vars).Success?
    ensures r.Failure? ==> r.error == ReadSettings(vars).error
    ensures r.Success? ==>
      && r.value.endpoint == None && r.value.region == Some(vars[SyncRegion])
      && r.value.accessId == vars[SyncAccessId] && r.value.accessSecret == vars[SyncAccessSecret]
  {
    match ReadSettings(vars)
    case Failure(e) => Failure(e)
    case Success(s) => Success(Client(None, Some(s.region), s.accessId, s.accessSecret, None))
  }

  /** `init` of aws.py, cloudflare.py, baidu.py and qcloud.py: the client goes into `ctx["client"]`. */
  method StoreClient(ctx: Context, client: Result<Client, ProviderError>) returns (r: Result<Client, ProviderError>)
    modifies ctx
    ensures r == client
    ensures ctx.entries == if client.Success? then old(ctx.entries)["client" := client.value] else old(ctx.entries)
  {
    if client.Success? {
      ctx.entries := ctx.entries["client" := client.value];
    }
    r := client;
  }

  /** The endpoint URL built from a host. */
  function Https(host: string): string {
    "https://" + host
  }

  /**
   * `https://` and a host ending in `suffix`: the region itself when it
   * already ends with it, otherwise the region with the suffix appended.
   */
  lemma SuffixedEndpoint(region: string, suffix: string)
    requires suffix != []
    ensures var e := Https(WithSuffix(region, suffix));
      && StartsWith(e, "https://") && EndsWith(e, suffix)
      && (EndsWith(region, suffix) ==> e == "https://" + region)
      && (!EndsWith(region, suffix) ==> e == "https://" + region + suffix)
  {
    WithSuffixAppends(region, suffix);
    Framed("https://", WithSuffix(region, suffix), suffix);
    if !EndsWith(region, suffix) {
      ConcatAssociative("https://", region, suffix);
    }
  }

  lemma HeadSplit<T>(s: seq<T>)
    requires s != []
    ensures s == [s[0]] + s[1..]
  {
  }

  lemma ConcatAssociative<T>(a: seq<T>, b: seq<T>, c: seq<T>)
    ensures a + (b + c) == a + b + c
  {
  }

  /** A host ending in `suffix`, behind a prefix, still ends in it. */
  lemma Framed(pre: string, host: string, suffix: string)
    requires EndsWith(host, suffix)
    ensures StartsWith(pre + host, pre) && EndsWith(pre + host, suffix)
  {
    var url := pre + host;
    assert url[..|pre|] == pre;
    assert url[|url| - |suffix|..] == host[|host| - |suffix|..];
  }

  /** A request a backend's `upload` or `delete` sends through its SDK. */
  datatype Request =
    | PutObject(bucket: string, key: string, path: string, contentType: string, contentMd5: string)
    | PutObjectWithHeaders(bucket: string, key: string, path: string, headers: map<string, string>)
    | DeleteObject(bucket: string, key: string)

  /** A request as it goes out: through which client, with what. */
  datatype Sent = Sent(client: Client, request: Request)

  /**
   * `upload` of aws.py, cloudflare.py and qcloud.py: a PUT of the file at
   * `path` under `key`, typed by the key, with the digest as given; the
   * bucket is read from `env` before the client from `ctx`.
   */
  function PutFile(ctx: map<string, Client>, vars: map<string, string>, platform: map<string, string>,
                   key: string, path: string, md5: string): (r: Result<Sent, ProviderError>)
    ensures r.Success? <==> SyncBucket in vars && "client" in ctx
    ensures r.Success? ==>
      r.value == Sent(ctx["client"], PutObject(vars[SyncBucket], key, path, GuessMime(platform, key), md5))
    ensures SyncBucket !in vars ==> r == Failure(MissingKey(SyncBucket))
    ensures SyncBucket in vars && "client" !in ctx ==> r == Failure(MissingKey("client"))
  {
    match Lookup(vars, SyncBucket)
    case Failure(e) => Failure(e)
    case Success(bucket) =>
      match Lookup(ctx, "client")
      case Failure(e) => Failure(e)
      case Success(client) => Success(Sent(client, PutObject(bucket, key, path, GuessMime(platform, key), md5)))
  }

  /** `delete` of aws.py, cloudflare.py, baidu.py and qcloud.py. */
  function DeleteFile(ctx: map<string, Client>, vars: map<string, string>, key: string)
    : (r: Result<Sent, ProviderError>)
    ensures r.Success? <==> SyncBucket in vars && "client" in ctx
    ensures r.Success? ==> r.value == Sent(ctx["client"], DeleteObject(vars[SyncBucket], key))
    ensures SyncBucket !in vars ==> r == Failure(MissingKey(SyncBucket))
    ensures SyncBucket in vars && "client" !in ctx ==> r == Failure(MissingKey("client"))
  {
    match Lookup(vars, SyncBucket)
    case Failure(e) => Failure(e)
    case Success(bucket) =>
      match Lookup(ctx, "client")
      case Failure(e) => Failure(e)
      case Success(client) => Success(Sent(client, DeleteObject(bucket, key)))
  }

  /**
   * The start of `list_all` in aws.py, cloudflare.py, baidu.py and
   * qcloud.py: the bucket from `env`, then the client from `ctx`.
   */
  function ListTarget(ctx: map<string, Client>, vars: map<string, string>): (r: Result<(string, Client), ProviderError>)
    ensures r.Success? <==> SyncBucket in vars && "client" in ctx
    ensures r.Success? ==> r.value == (vars[SyncBucket], ctx["client"])
    ensures SyncBucket !in vars ==> r == Failure(MissingKey(SyncBucket))
    ensures SyncBucket in vars && "client" !in ctx ==> r == Failure(MissingKey("client"))
  {
    match Lookup(vars, SyncBucket)
    case Failure(e) => Failure(e)
    case Success(bucket) =>
      match Lookup(ctx, "client")
      case Failure(e) => Failure(e)
      case Success(client) => Success((bucket, client))
  }

  /**
   * An upload and a delete of the same key, with the same `ctx` and `env`,
   * go through the same client to the same object of the same bucket.
   */
  lemma PutThenDeleteSameObject(ctx: map<string, Client>, vars: map<string, string>,
                                platform: map<string, string>, key: string, path: string, md5: string)
    ensures PutFile(ctx, vars, platform, key, path, md5).Success? <==> DeleteFile(ctx, vars, key).Success?
    ensures PutFile(ctx, vars, platform, key, path, md5).Success? ==>
      var put, del := PutFile(ctx, vars, platform, key, path, md5).value, DeleteFile(ctx, vars, key).value;
      put.client == del.client && put.request.bucket == del.request.bucket && put.request.key == del.request.key
  {
  }

  /**
   * After `init` stored a client, and with the bucket set, an upload goes
   * through that client whatever `ctx` held before; the file's path never
   * changes the request's content type.
   */
  lemma PutAfterInit(before: map<string, Client>, client: Client, vars: map<string, string>,
                     platform: map<string, string>, key: string, path: string, other: string, md5: string)
    requires SyncBucket in vars
    ensures var r := PutFile(before["client" := client], vars, platform, key, path, md5);
      && r.Success? && r.value.client == client
      && r.value.request.contentType == PutFile(before["client" := client], vars, platform, key, other, md5).value.request.contentType
  {
  }

  /** The headers of baidu.py:22 and aliyun.py:22. */
  function UploadHeaders(platform: map<string, string>, key: string, md5: string): (h: map<string, string>)
    ensures h.Keys == {"Content-Type", "Content-MD5"}
    ensures h["Content-Type"] == GuessMime(platform, key) && h["Content-MD5"] == md5
  {
    map["Content-Type" := GuessMime(platform, key), "Content-MD5" := md5]
  }

  /** An object as a listing reports it. */
  datatype Listed = Listed(key: string, size: int, etag: string)

  /** `{"key": …, "size": …, "md5": etag_to_md5(…)}`. */
  function ToRecord(obj: Listed): (r: Result<ObjectRecord, ProviderError>)
    ensures r.Success? <==> EtagToMd5(obj.etag).Some?
    ensures r.Success? ==> r.value == ObjectRecord(obj.key, obj.size, EtagToMd5(obj.etag).value)
    ensures r.Failure? ==> r.error == InvalidETag(obj.etag)
  {
    match EtagToMd5(obj.etag)
    case Some(md5) => Success(ObjectRecord(obj.key, obj.size, md5))
    case None => Failure(InvalidETag(obj.etag))
  }

  /**
   * The records of a page's objects that are not directory markers, in
   * order, or the error of the first of them whose E-Tag does not convert.
   */
  function PageRecords(contents: seq<Listed>): Result<seq<ObjectRecord>, ProviderError>
    decreases |contents|
  {
    if contents == [] then Success([])
    else if IsDirectoryKey(contents[0].key) then PageRecords(contents[1..])
    else match ToRecord(contents[0])
      case Failure(e) => Failure(e)
      case Success(rec) => Then([rec], PageRecords(contents[1..]))
  }

  /** `acc` extended by `more`, unless `more` is a failure. */
  function Then(acc: seq<ObjectRecord>, more: Result<seq<ObjectRecord>, ProviderError>)
    : (r: Result<seq<ObjectRecord>, ProviderError>)
    ensures r.Success? <==> more.Success?
    ensures r.Success? ==> r.value == acc + more.value
    ensures r.Failure? ==> r.error == more.error
  {
    match more
    case Success(rs) => Success(acc + rs)
    case Failure(e) => Failure(e)
  }

  lemma ThenNothing(more: Result<seq<ObjectRecord>, ProviderError>)
    ensures Then([], more) == more
  {
    if more.Success? {
      assert [] + more.value == more.value;
    }
  }

  /** A request logged before the rest: `sent + [t] + rest` read either way. */
  lemma AppendAssociative<T>(before: seq<T>, t: T, rest: seq<T>)
    ensures before + ([t] + rest) == (before + [t]) + rest
  {
  }

  lemma ThenThen(a: seq<ObjectRecord>, b: seq<ObjectRecord>, more: Result<seq<ObjectRecord>, ProviderError>)
    ensures Then(a, Then(b, more)) == Then(a + b, more)
  {
    if more.Success? {
      assert a + (b + more.value) == (a + b) + more.value;
    }
  }

  /**
   * `for obj in contents: if not key.endswith("/"): objs.append(…)`: the
   * records of the page's files appended to `objs`, stopping at the first
   * E-Tag that does not convert.
   */
  method AppendFiles(objs: seq<ObjectRecord>, contents: seq<Listed>)
    returns (r: Result<seq<ObjectRecord>, ProviderError>)
    ensures r == Then(objs, PageRecords(contents))
  {
    var acc := objs;
    for i := 0 to |contents|
      invariant Then(objs, PageRecords(contents)) == Then(acc, PageRecords(contents[i..]))
    {
      var obj := contents[i];
      assert contents[i..][0] == obj && contents[i..][1..] == contents[i + 1..];
      if !EndsWith(obj.key, "/") {
        var md5 := EtagToMd5(obj.etag);
        if md5.None? {
          return Failure(InvalidETag(obj.etag));
        }
        var rec := ObjectRecord(obj.key, obj.size, md5.value);
        ThenThen(acc, [rec], PageRecords(contents[i + 1..]));
        acc := acc + [rec];
      }
    }
    assert contents[|contents|..] == [] && acc + [] == acc;
    r := Success(acc);
  }

  // ---------------------------------------------------------------------
  // Properties
  // ---------------------------------------------------------------------

  /** The objects of a page that are not directory markers, in order. */
  function Files(contents: seq<Listed>): (r: seq<Listed>)
    ensures forall o :: o in r <==> o in contents && !IsDirectoryKey(o.key)
  {
    if contents == [] then []
    else (if IsDirectoryKey(contents[0].key) then [] else [contents[0]]) + Files(contents[1..])
  }

  /**
   * `r` holds one record per object of `f`, in order, with its key and
   * size and its E-Tag converted, and fails exactly when one of those
   * E-Tags does not convert.
   */
  ghost predicate Yields(f: seq<Listed>, r: Result<seq<ObjectRecord>, ProviderError>) {
    && (r.Success? <==> forall i :: 0 <= i < |f| ==> EtagToMd5(f[i].etag).Some?)
    && (r.Success? ==>
          && |r.value| == |f|
          && forall i :: 0 <= i < |f| ==> r.value[i] == ObjectRecord(f[i].key, f[i].size, EtagToMd5(f[i].etag).value))
  }

  /** A page yields a record for each of its objects that is not a directory marker. */
  lemma {:induction false} PageRecordsFiles(contents: seq<Listed>)
    ensures Yields(Files(contents), PageRecords(contents))
    decreases |contents|
  {
    if contents != [] {
      PageRecordsFiles(contents[1..]);
      var g, rg := Files(contents[1..]), PageRecords(contents[1..]);
      if IsDirectoryKey(contents[0].key) {
        assert Files(contents) == [] + g == g;
        assert PageRecords(contents) == rg;
      } else {
        assert Files(contents) == [contents[0]] + g;
        assert PageRecords(contents)
          == match ToRecord(contents[0]) case Failure(e) => Failure(e) case Success(rec) => Then([rec], rg);
        YieldsCons(contents[0], g, rg);
      }
    }
  }

  lemma YieldsCons(x: Listed, g: seq<Listed>, rg: Result<seq<ObjectRecord>, ProviderError>)
    requires Yields(g, rg)
    ensures Yields([x] + g, match ToRecord(x) case Failure(e) => Failure(e) case Success(rec) => Then([rec], rg))
  {
    match ToRecord(x)
    case Failure(e) => YieldsConsBad(x, g, e);
    case Success(rec) =>
      if rg.Success? {
        YieldsConsGood(x, rec, g, rg.value);
      } else {
        YieldsConsLater(x, g, rg.error);
      }
  }

  /** An object whose E-Tag does not convert fails the listing in front of any other. */
  lemma YieldsConsBad(x: Listed, g: seq<Listed>, e: ProviderError)
    requires EtagToMd5(x.etag).None?
    ensures Yields([x] + g, Failure(e))
  {
    assert ([x] + g)[0] == x;
  }

  /** A record in front of the records of the rest is the records of the whole. */
  lemma YieldsConsGood(x: Listed, rec: ObjectRecord, g: seq<Listed>, rs: seq<ObjectRecord>)
    requires EtagToMd5(x.etag).Some? && rec == ObjectRecord(x.key, x.size, EtagToMd5(x.etag).value)
    requires Yields(g, Success(rs))
    ensures Yields([x] + g, Success([rec] + rs))
  {
    var f, r := [x] + g, [rec] + rs;
    forall i | 0 <= i < |f|
      ensures EtagToMd5(f[i].etag).Some? && r[i] == ObjectRecord(f[i].key, f[i].size, EtagToMd5(f[i].etag).value)
    {
      if i > 0 {
        assert f[i] == g[i - 1] && r[i] == rs[i - 1];
      }
    }
  }

  /** A failure among the rest fails the whole. */
  lemma YieldsConsLater(x: Listed, g: seq<Listed>, e: ProviderError)
    requires Yields(g, Failure(e))
    ensures Yields([x] + g, Failure(e))
  {
    var j :| 0 <= j < |g| && EtagToMd5(g[j].etag).None?;
    var f := [x] + g;
    assert f[j + 1] == g[j];
    assert !(forall i :: 0 <= i < |f| ==> EtagToMd5(f[i].etag).Some?);
  }

  /** A page with no directory markers and no foreign E-Tags yields a record for each object. */
  lemma PageRecordsPlain(contents: seq<Listed>)
    requires forall i :: 0 <= i < |contents| ==> !IsDirectoryKey(contents[i].key) && |Unquote(contents[i].etag)| != 32
    ensures PageRecords(contents) == Success(seq(|contents|, i requires 0 <= i < |contents| =>
      ObjectRecord(contents[i].key, contents[i].size, Sentinel)))
  {
    PageRecordsFiles(contents);
    FilesAll(contents);
    forall i | 0 <= i < |contents| ensures EtagToMd5(contents[i].etag) == Some(Sentinel) {
      EtagNotMd5(contents[i].etag);
    }
    var r := PageRecords(contents);
    assert r.Success?;
    var want := seq(|contents|, i requires 0 <= i < |contents| =>
      ObjectRecord(contents[i].key, contents[i].size, Sentinel));
    assert |r.value| == |want|;
    forall i | 0 <= i < |want| ensures r.value[i] == want[i] { }
    assert r.value == want;
  }

  lemma {:induction false} FilesAll(contents: seq<Listed>)
    requires forall i :: 0 <= i < |contents| ==> !IsDirectoryKey(contents[i].key)
    ensures Files(contents) == contents
    decreases |contents|
  {
    if contents != [] {
      FilesAll(contents[1..]);
      assert contents == [contents[0]] + contents[1..];
    }
  }
}

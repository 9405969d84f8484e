/**
 * baidu.py: the BOS backend. Its client points at an endpoint under
 * `.bcebos.com`; uploads carry the content type and digest as headers;
 * deletes are `Providers.DeleteFile`; the listing is `Listing.ListAll`
 * with the rule `AsGiven`, the marker of each answer passed on unchanged.
 */
module Baidu {
  import opened Wrappers
  import opened Text
  import opened Mime
  import opened Providers
  import opened Listing
  import opened EnvKeys

  const BosSuffix: string := ".bcebos.com"

  /** The client of baidu.py: an endpoint under `.bcebos.com` and the keys. */
  function BosClient(vars: map<string, string>): (r: Result<Client, ProviderError>)
    ensures r.Success? <==> ReadSettings(vars).Success?
    ensures r.Failure? ==> r.error == ReadSettings(vars).error
    ensures r.Success? ==>
      && r.value.region == None && r.value.endpoint == Some(Https(WithSuffix(vars[SyncRegion], BosSuffix)))
      && r.value.accessId == vars[SyncAccessId] && r.value.accessSecret == vars[SyncAccessSecret]
  {
    match ReadSettings(vars)
    case Failure(e) => Failure(e)
    case Success(s) => Success(Client(Some(Https(WithSuffix(s.region, BosSuffix))), None, s.accessId, s.accessSecret, None))
  }

  /** `init` of baidu.py. */
  method Init(ctx: Context, vars: map<string, string>) returns (r: Result<Client, ProviderError>)
    modifies ctx
    ensures r == BosClient(vars)
    ensures ctx.entries == if r.Success? then old(ctx.entries)["client" := r.value] else old(ctx.entries)
  {
    var region := Lookup(vars, SyncRegion);
    if region.Failure? {
      return Failure(region.error);
    }
    var host := region.value;
    if !EndsWith(host, BosSuffix) {
      host := host + BosSuffix;
    }
    var accessId := Lookup(vars, SyncAccessId);
    if accessId.Failure? {
      return Failure(accessId.error);
    }
    var accessSecret := Lookup(vars, SyncAccessSecret);
    if accessSecret.Failure? {
      return Failure(accessSecret.error);
    }
    var client := Client(Some(Https(host)), None, accessId.value, accessSecret.value, None);
    r := StoreClient(ctx, Success(client));
  }

  /** The BOS endpoint ends in `.bcebos.com`, which is appended only when the region lacks it. */
  lemma BosEndpoint(vars: map<string, string>)
    requires BosClient(vars).Success?
    ensures var region, e := vars[SyncRegion], BosClient(vars).value.endpoint.value;
      && StartsWith(e, "https://") && EndsWith(e, BosSuffix)
      && (EndsWith(region, BosSuffix) ==> e == "https://" + region)
      && (!EndsWith(region, BosSuffix) ==> e == "https://" + region + BosSuffix)
  {
    SuffixedEndpoint(vars[SyncRegion], BosSuffix);
  }

  /**
   * `upload` of baidu.py: the file at `path` under `key`, with headers
   * giving the key's content type and the digest as given.
   */
  function Upload(ctx: map<string, Client>, vars: map<string, string>, platform: map<string, string>,
                  key: string, path: string, md5: string): (r: Result<Sent, ProviderError>)
    ensures r.Success? <==> SyncBucket in vars && "client" in ctx
    ensures SyncBucket !in vars ==> r == Failure(MissingKey(SyncBucket))
    ensures SyncBucket in vars && "client" !in ctx ==> r == Failure(MissingKey("client"))
    ensures r.Success? ==>
      && r.value.client == ctx["client"] && r.value.request.PutObjectWithHeaders?
      && r.value.request.bucket == vars[SyncBucket] && r.value.request.key == key && r.value.request.path == path
      && r.value.request.headers == UploadHeaders(platform, key, md5)
  {
    match Lookup(vars, SyncBucket)
    case Failure(e) => Failure(e)
    case Success(bucket) =>
      var headers := UploadHeaders(platform, key, md5);
      match Lookup(ctx, "client")
      case Failure(e) => Failure(e)
      case Success(client) => Success(Sent(client, PutObjectWithHeaders(bucket, key, path, headers)))
  }

  /**
   * The BOS upload says what the S3 upload says: same client, bucket,
   * key, file, content type and digest, as headers instead of arguments.
   */
  lemma UploadMatchesS3(ctx: map<string, Client>, vars: map<string, string>, platform: map<string, string>,
                        key: string, path: string, md5: string)
    ensures var b, s := Upload(ctx, vars, platform, key, path, md5), PutFile(ctx, vars, platform, key, path, md5);
      && (b.Success? <==> s.Success?)
      && (b.Failure? ==> b.error == s.error)
      && (b.Success? ==>
            && b.value.client == s.value.client && b.value.request.bucket == s.value.request.bucket
            && b.value.request.key == s.value.request.key && b.value.request.path == s.value.request.path
            && b.value.request.headers == map["Content-Type" := s.value.request.contentType,
                                              "Content-MD5" := s.value.request.contentMd5])
  {
  }

  /**
   * BOS passes each answer's marker on as it is: the first request has
   * none, every later one has the previous answer's `next_marker`, even
   * an empty one.
   */
  lemma MarkersAsGiven(pages: seq<Page>)
    ensures var t := Tokens(pages, None, AsGiven);
      t[0] == None && forall i :: 0 < i < |t| ==> t[i] == pages[i - 1].next
  {
    TokensFollowAnswers(pages, None, AsGiven);
  }
}

/**
 * aliyun.py: the OSS backend. `init` copies the access keys into the
 * environment, where the SDK's credentials provider reads them, and keeps
 * a bucket handle in `ctx["bucket"]`; the other calls go through that
 * handle. The SDK's object iterator does the paging, so the listing is
 * the flat sequence of objects it yields, directory markers included.
 */
module Aliyun {
  import opened Wrappers
  import opened Text
  import opened Records
  import opened ETag
  import opened Providers
  import opened DiffEngine
  import opened DiffProperties
  import opened EnvKeys

  const OssSuffix: string := ".aliyuncs.com"
  const OssKeyId: string := "OSS_ACCESS_KEY_ID"
  const OssKeySecret: string := "OSS_ACCESS_KEY_SECRET"

  /**
   * `init` of aliyun.py on the environment `vars`: the bucket handle, or
   * the KeyError of the first of region, bucket, id and secret that is
   * missing, together with the environment as `init` leaves it. The id is
   * written before the secret is read, so a missing secret leaves it
   * written.
   */
  function OssInit(vars: map<string, string>): (r: (Result<Client, ProviderError>, map<string, string>))
    ensures r.0.Success? <==> SyncRegion in vars && SyncBucket in vars && SyncAccessId in vars && SyncAccessSecret in vars
    ensures SyncRegion !in vars ==> r == (Failure(MissingKey(SyncRegion)), vars)
    ensures SyncRegion in vars && SyncBucket !in vars ==> r == (Failure(MissingKey(SyncBucket)), vars)
    ensures (SyncRegion in vars && SyncBucket in vars && SyncAccessId !in vars) ==>
      r == (Failure(MissingKey(SyncAccessId)), vars)
    ensures (SyncRegion in vars && SyncBucket in vars && SyncAccessId in vars && SyncAccessSecret !in vars) ==>
      r == (Failure(MissingKey(SyncAccessSecret)), vars[OssKeyId := vars[SyncAccessId]])
    ensures r.0.Success? ==>
      && r.1 == vars[OssKeyId := vars[SyncAccessId]][OssKeySecret := vars[SyncAccessSecret]]
      && r.0.value.endpoint == Some(Https(WithSuffix(vars[SyncRegion], OssSuffix)))
      && r.0.value.bucket == Some(vars[SyncBucket]) && r.0.value.region == None
  {
    match Lookup(vars, SyncRegion)
    case Failure(e) => (Failure(e), vars)
    case Success(region) =>
      match Lookup(vars, SyncBucket)
      case Failure(e) => (Failure(e), vars)
      case Success(bucket) =>
        match Lookup(vars, SyncAccessId)
        case Failure(e) => (Failure(e), vars)
        case Success(id) =>
          var withId := vars[OssKeyId := id];
          match Lookup(withId, SyncAccessSecret)
          case Failure(e) => (Failure(e), withId)
          case Success(secret) =>
            var withKeys := withId[OssKeySecret := secret];
            var endpoint := Https(WithSuffix(region, OssSuffix));
            (Success(Client(Some(endpoint), None, withKeys[OssKeyId], withKeys[OssKeySecret], Some(bucket))), withKeys)
  }

  /** `init` of aliyun.py: writes the keys into `env` and the handle into `ctx["bucket"]`. */
  method Init(ctx: Context, env: Environment) returns (r: Result<Client, ProviderError>)
    modifies ctx, env
    ensures (r, env.vars) == OssInit(old(env.vars))
    ensures ctx.entries == if r.Success? then old(ctx.entries)["bucket" := r.value] else old(ctx.entries)
  {
    var region := Lookup(env.vars, SyncRegion);
    if region.Failure? {
      return Failure(region.error);
    }
    var host := region.value;
    if !EndsWith(host, OssSuffix) {
      host := host + OssSuffix;
    }
    var bucket := Lookup(env.vars, SyncBucket);
    if bucket.Failure? {
      return Failure(bucket.error);
    }
    var accessId := Lookup(env.vars, SyncAccessId);
    if accessId.Failure? {
      return Failure(accessId.error);
    }
    env.vars := env.vars[OssKeyId := accessId.value];
    var accessSecret := Lookup(env.vars, SyncAccessSecret);
    if accessSecret.Failure? {
      return Failure(accessSecret.error);
    }
    env.vars := env.vars[OssKeySecret := accessSecret.value];
    var client := Client(Some(Https(host)), None, env.vars[OssKeyId], env.vars[OssKeySecret], Some(bucket.value));
    ctx.entries := ctx.entries["bucket" := client];
    r := Success(client);
  }

  /**
   * After a successful `init`, the handle signs with exactly the keys the
   * environment then holds, which are the configured id and secret, and
   * no other variable of the environment has changed.
   */
  lemma InitCredentials(vars: map<string, string>)
    requires OssInit(vars).0.Success?
    ensures var (client, after) := (OssInit(vars).0.value, OssInit(vars).1);
      && OssKeyId in after && OssKeySecret in after
      && client.accessId == after[OssKeyId] == vars[SyncAccessId]
      && client.accessSecret == after[OssKeySecret] == vars[SyncAccessSecret]
      && (forall k :: k in vars && k != OssKeyId && k != OssKeySecret ==> k in after && after[k] == vars[k])
      && after.Keys == vars.Keys + {OssKeyId, OssKeySecret}
  {
  }

  /** The OSS endpoint ends in `.aliyuncs.com`, which is appended only when the region lacks it. */
  lemma OssEndpoint(vars: map<string, string>)
    requires OssInit(vars).0.Success?
    ensures var region, e := vars[SyncRegion], OssInit(vars).0.value.endpoint.value;
      && StartsWith(e, "https://") && EndsWith(e, OssSuffix)
      && (EndsWith(region, OssSuffix) ==> e == "https://" + region)
      && (!EndsWith(region, OssSuffix) ==> e == "https://" + region + OssSuffix)
  {
    SuffixedEndpoint(vars[SyncRegion], OssSuffix);
  }

  /** The bucket a handle was made for. */
  function BucketName(handle: Client): string {
    handle.bucket.GetOr("")
  }

  /**
   * `upload` of aliyun.py: through the handle in `ctx["bucket"]`, to its
   * bucket, with headers giving the key's content type and the digest.
   * Unlike the other backends it does not read `env`.
   */
  function Upload(ctx: map<string, Client>, platform: map<string, string>, key: string, path: string, md5: string)
    : (r: Result<Sent, ProviderError>)
    ensures r.Success? <==> "bucket" in ctx
    ensures r.Failure? ==> r.error == MissingKey("bucket")
    ensures r.Success? ==>
      r.value == Sent(ctx["bucket"], PutObjectWithHeaders(BucketName(ctx["bucket"]), key, path, UploadHeaders(platform, key, md5)))
  {
    match Lookup(ctx, "bucket")
    case Failure(e) => Failure(e)
    case Success(handle) =>
      Success(Sent(handle, PutObjectWithHeaders(BucketName(handle), key, path, UploadHeaders(platform, key, md5))))
  }

  /** `delete` of aliyun.py: through the handle in `ctx["bucket"]`. */
  function Delete(ctx: map<string, Client>, key: string): (r: Result<Sent, ProviderError>)
    ensures r.Success? <==> "bucket" in ctx
    ensures r.Failure? ==> r.error == MissingKey("bucket")
    ensures r.Success? ==> r.value == Sent(ctx["bucket"], DeleteObject(BucketName(ctx["bucket"]), key))
  {
    match Lookup(ctx, "bucket")
    case Failure(e) => Failure(e)
    case Success(handle) => Success(Sent(handle, DeleteObject(BucketName(handle), key)))
  }

  /**
   * After `init`, uploads and deletes go through the handle it stored, to
   * the configured bucket, whatever `env` holds by then; and an upload and
   * a delete of one key address the same object.
   */
  lemma CallsAfterInit(before: map<string, Client>, vars: map<string, string>, platform: map<string, string>,
                       key: string, path: string, md5: string)
    requires OssInit(vars).0.Success?
    ensures var handle := OssInit(vars).0.value;
      var ctx := before["bucket" := handle];
      var put, del := Upload(ctx, platform, key, path, md5), Delete(ctx, key);
      && put.Success? && del.Success?
      && put.value.client == handle && del.value.client == handle
      && put.value.request.bucket == del.value.request.bucket == vars[SyncBucket]
      && put.value.request.key == del.value.request.key == key
      && put.value.request.headers == UploadHeaders(platform, key, md5)
  {
  }

  // ---------------------------------------------------------------------
  // The listing
  // ---------------------------------------------------------------------

  /** The records of every object, directory markers included, or the first E-Tag error. */
  function AllRecords(objects: seq<Listed>): Result<seq<ObjectRecord>, ProviderError>
    decreases |objects|
  {
    if objects == [] then Success([])
    else match ToRecord(objects[0])
      case Failure(e) => Failure(e)
      case Success(rec) => Then([rec], AllRecords(objects[1..]))
  }

  /** `list_all` of aliyun.py: the handle from `ctx`, then a record per object the iterator yields. */
  method ListAll(ctx: map<string, Client>, objects: seq<Listed>) returns (r: Result<seq<ObjectRecord>, ProviderError>)
    ensures "bucket" !in ctx ==> r == Failure(MissingKey("bucket"))
    ensures "bucket" in ctx ==> r == AllRecords(objects)
  {
    var handle := Lookup(ctx, "bucket");
    if handle.Failure? {
      return Failure(handle.error);
    }
    var objs: seq<ObjectRecord> := [];
    assert objects[0..] == objects;
    ThenNothing(AllRecords(objects));
    for i := 0 to |objects|
      invariant AllRecords(objects) == Then(objs, AllRecords(objects[i..]))
    {
      var obj := objects[i];
      assert objects[i..][0] == obj && objects[i..][1..] == objects[i + 1..];
      var md5 := EtagToMd5(obj.etag);
      if md5.None? {
        return Failure(InvalidETag(obj.etag));
      }
      var rec := ObjectRecord(obj.key, obj.size, md5.value);
      ThenThen(objs, [rec], AllRecords(objects[i + 1..]));
      objs := objs + [rec];
    }
    assert objects[|objects|..] == [] && objs + [] == objs;
    r := Success(objs);
  }

  /**
   * One record per object, in order, directory markers included, with
   * its key and size and its E-Tag converted; the listing fails exactly
   * when one E-Tag does not convert.
   */
  lemma {:induction false} AllRecordsEach(objects: seq<Listed>)
    ensures Yields(objects, AllRecords(objects))
    decreases |objects|
  {
    if objects != [] {
      AllRecordsEach(objects[1..]);
      HeadSplit(objects);
      YieldsCons(objects[0], objects[1..], AllRecords(objects[1..]));
    }
  }

  /** Without directory markers, OSS lists what the paged backends list for the same objects. */
  lemma {:induction false} AgreesWithoutMarkers(objects: seq<Listed>)
    requires forall i :: 0 <= i < |objects| ==> !IsDirectoryKey(objects[i].key)
    ensures AllRecords(objects) == PageRecords(objects)
    decreases |objects|
  {
    if objects != [] {
      AgreesWithoutMarkers(objects[1..]);
    }
  }

  /**
   * What OSS lists is what the paged backends list for the same objects,
   * plus the directory markers: dropping the markers gives their listing.
   */
  lemma {:induction false} PagedIsWithoutMarkers(objects: seq<Listed>)
    requires AllRecords(objects).Success?
    ensures PageRecords(objects) == Success(WithoutMarkers(AllRecords(objects).value))
    decreases |objects|
  {
    if objects != [] {
      var o, tail := objects[0], objects[1..];
      var rec := ToRecord(o).value;
      PagedIsWithoutMarkers(tail);
      var rest := AllRecords(tail).value;
      var all := [rec] + rest;
      assert AllRecords(objects).value == all;
      assert all[0] == rec && all[1..] == rest;
      assert rec.key == o.key;
      if IsDirectoryKey(o.key) {
        assert WithoutMarkers(all) == [] + WithoutMarkers(rest) == WithoutMarkers(rest);
      } else {
        assert WithoutMarkers(all) == [rec] + WithoutMarkers(rest);
        assert PageRecords(objects) == Then([rec], PageRecords(tail));
      }
    }
  }

  /**
   * The markers OSS lists never change a run: the diff against its listing
   * is the diff against the listing without them.
   */
  lemma MarkersChangeNothing(local: seq<ObjectRecord>, objects: seq<Listed>)
    requires AllRecords(objects).Success?
    ensures PageRecords(objects).Success?
    ensures DiffOf(local, AllRecords(objects).value) == DiffOf(local, PageRecords(objects).value)
  {
    PagedIsWithoutMarkers(objects);
    DiffIgnoresMarkers(local, AllRecords(objects).value);
  }
}

/**
 * The two backends on the S3 SDK: aws.py (a client for a region) and
 * cloudflare.py (a client for an R2 endpoint built from the region).
 * Their `upload`, `delete` and `list_all` are the same code: see
 * `Providers.PutFile`, `Providers.DeleteFile` and `Listing.ListAll` with
 * the rule `OnlyNonEmpty`.
 */
module S3 {
  import opened Wrappers
  import opened Text
  import opened Providers
  import opened EnvKeys

  const R2Suffix: string := ".r2.cloudflarestorage.com"

  /** The client of cloudflare.py: an endpoint under `.r2.cloudflarestorage.com`, no region. */
  function R2Client(vars: map<string, string>): (r: Result<Client, ProviderError>)
    ensures r.Success? <==> ReadSettings(vars).Success?
    ensures r.Failure? ==> r.error == ReadSettings(vars).error
    ensures r.Success? ==>
      && r.value.region == None
      && r.value.accessId == vars[SyncAccessId] && r.value.accessSecret == vars[SyncAccessSecret]
  {
    match ReadSettings(vars)
    case Failure(e) => Failure(e)
    case Success(s) => Success(Client(Some(Https(WithSuffix(s.region, R2Suffix))), None, s.accessId, s.accessSecret, None))
  }

  /** `init` of aws.py. */
  method InitAws(ctx: Context, vars: map<string, string>) returns (r: Result<Client, ProviderError>)
    modifies ctx
    ensures r == RegionClient(vars)
    ensures ctx.entries == if r.Success? then old(ctx.entries)["client" := r.value] else old(ctx.entries)
  {
    var region := Lookup(vars, SyncRegion);
    if region.Failure? {
      return Failure(region.error);
    }
    var accessId := Lookup(vars, SyncAccessId);
    if accessId.Failure? {
      return Failure(accessId.error);
    }
    var accessSecret := Lookup(vars, SyncAccessSecret);
    if accessSecret.Failure? {
      return Failure(accessSecret.error);
    }
    var client := Client(None, Some(region.value), accessId.value, accessSecret.value, None);
    r := StoreClient(ctx, Success(client));
  }

  /** `init` of cloudflare.py: the suffix is appended to the region unless it is already there. */
  method InitR2(ctx: Context, vars: map<string, string>) returns (r: Result<Client, ProviderError>)
    modifies ctx
    ensures r == R2Client(vars)
    ensures ctx.entries == if r.Success? then old(ctx.entries)["client" := r.value] else old(ctx.entries)
  {
    var region := Lookup(vars, SyncRegion);
    if region.Failure? {
      return Failure(region.error);
    }
    var host := region.value;
    if !EndsWith(host, R2Suffix) {
      host := host + R2Suffix;
    }
    var accessId := Lookup(vars, SyncAccessId);
    if accessId.Failure? {
      return Failure(accessId.error);
    }
    var accessSecret := Lookup(vars, SyncAccessSecret);
    if accessSecret.Failure? {
      return Failure(accessSecret.error);
    }
    var client := Client(Some(Https(host)), None, accessId.value, accessSecret.value, None);
    r := StoreClient(ctx, Success(client));
  }

  /**
   * The R2 endpoint is `https://` and a host ending in the R2 suffix: the
   * region itself when it already ends with it (an account's full host),
   * otherwise the region (an account id) with the suffix appended.
   */
  lemma R2Endpoint(vars: map<string, string>)
    requires R2Client(vars).Success?
    ensures var region, e := vars[SyncRegion], R2Client(vars).value.endpoint;
      && e.Some? && StartsWith(e.value, "https://") && EndsWith(e.value, R2Suffix)
      && (EndsWith(region, R2Suffix) ==> e.value == "https://" + region)
      && (!EndsWith(region, R2Suffix) ==> e.value == "https://" + region + R2Suffix)
  {
    SuffixedEndpoint(vars[SyncRegion], R2Suffix);
  }

  /** Both S3 backends build their client from the same settings and differ only in where they point. */
  lemma SameCredentials(vars: map<string, string>)
    ensures RegionClient(vars).Success? <==> R2Client(vars).Success?
    ensures RegionClient(vars).Success? ==>
      var a, c := RegionClient(vars).value, R2Client(vars).value;
      a.accessId == c.accessId && a.accessSecret == c.accessSecret && a.region.Some? && c.endpoint.Some?
  {
  }
}

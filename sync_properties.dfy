/**
 * What a run of the synchroniser promises: which settings stop it before
 * any backend call, where it looks for files, and which calls it makes in
 * which order under each unused-file policy.
 */
module SyncProperties {
  import opened Wrappers
  import opened Text
  import opened Records
  import opened DiffEngine
  import opened DiffProperties
  import opened LocalWalk
  import opened Sync
  import opened EnvKeys

  // ---------------------------------------------------------------------
  // Settings
  // ---------------------------------------------------------------------

  /**
   * A run goes ahead exactly when the region, the access id and the access
   * secret are all set and non-empty; otherwise the error names the first
   * one missing, in the order region, id, secret.
   */
  lemma ConfigChecks(env: map<string, string>, unused: Option<string>)
    ensures LoadConfig(env, unused).Success?
      <==> EnvGet(env, SyncRegion, "") != "" && EnvGet(env, SyncAccessId, "") != ""
           && EnvGet(env, SyncAccessSecret, "") != ""
    ensures EnvGet(env, SyncRegion, "") == "" ==> LoadConfig(env, unused) == Failure(MissingEnv("sync_region"))
    ensures EnvGet(env, SyncRegion, "") != "" && EnvGet(env, SyncAccessId, "") == "" ==>
      LoadConfig(env, unused) == Failure(MissingEnv("sync_access_id"))
    ensures (EnvGet(env, SyncRegion, "") != "" && EnvGet(env, SyncAccessId, "") != ""
             && EnvGet(env, SyncAccessSecret, "") == "") ==>
      LoadConfig(env, unused) == Failure(MissingEnv("sync_access_secret"))
  {
  }

  /** Without the optional settings: the directory `_site`, the backend `aws`, the policy `keep`. */
  lemma ConfigDefaults(env: map<string, string>)
    requires LoadConfig(env, None).Success?
    requires SyncDir !in env && SyncType !in env && Workspace !in env
    ensures LoadConfig(env, None).value == Config("_site", "aws", env[SyncRegion], "keep")
    ensures !LoadConfig(env, None).value.ForceDelete()
  {
  }

  /**
   * Under a GitHub workspace the directory is joined under it, so the keys
   * of the local inventory are the files' paths relative to the directory
   * and not to the workspace.
   */
  lemma ConfigWorkspace(env: map<string, string>, unused: Option<string>, rel: string)
    requires LoadConfig(env, unused).Success? && EnvGet(env, Workspace, "") != ""
    requires !StartsWith(EnvGet(env, SyncDir, "_site"), "/") && EnvGet(env, SyncDir, "_site") != []
    requires !EndsWith(EnvGet(env, SyncDir, "_site"), "/") && !StartsWith(rel, "/")
    ensures var dir := LoadConfig(env, unused).value.dir;
      && dir == Join(EnvGet(env, Workspace, ""), EnvGet(env, SyncDir, "_site"))
      && Key(Join(dir, rel), KeyStart(dir)) == rel
  {
    var ws, sub := EnvGet(env, Workspace, ""), EnvGet(env, SyncDir, "_site");
    var dir := Join(ws, sub);
    if EndsWith(ws, "/") {
      NoTrailingSlash(ws, sub);
    } else {
      NoTrailingSlash(ws + "/", sub);
    }
    assert dir != [];
    KeyOfJoin(dir, rel);
  }

  /** Deletion is switched on by the value `delete` and by nothing else. */
  lemma ForceDeleteOnlyOnDelete(env: map<string, string>, unused: Option<string>)
    requires LoadConfig(env, unused).Success?
    ensures LoadConfig(env, unused).value.ForceDelete() <==> unused == Some("delete")
  {
  }

  /**
   * As written, the policy's key is the attribute `SYNC_OPT_UNUSED` of
   * `util`, which util.py:6-11 does not define: every run whose other
   * settings are valid stops with an AttributeError, before any backend
   * call, and a run with invalid settings stops as before.
   */
  lemma AsWrittenNeverSyncs(env: map<string, string>)
    ensures LoadConfigAsWritten(env).Failure?
    ensures MissingSetting(env) == None ==>
      LoadConfigAsWritten(env) == Failure(UndefinedAttribute("SYNC_OPT_UNUSED"))
    ensures MissingSetting(env) != None ==> LoadConfigAsWritten(env) == LoadConfig(env, None)
  {
    assert "SYNC_OPT_UNUSED" !in UtilNames.Keys;
  }

  /**
   * With the policy given as a value, valid settings always let a run go
   * ahead, and the run keeps or deletes unused files as the value says.
   */
  lemma CorrectedConfigSyncs(env: map<string, string>, unused: Option<string>)
    requires MissingSetting(env) == None
    ensures LoadConfig(env, unused).Success?
    ensures LoadConfig(env, unused).value.policy == unused.GetOr("keep")
  {
  }

  // ---------------------------------------------------------------------
  // The calls of a run
  // ---------------------------------------------------------------------

  /**
   * A run first sets the backend up, then lists it, then uploads every
   * new file and then every changed file, each in list order, with its
   * path under the sync directory and its digest; deletes, if any, come
   * last.
   */
  lemma PlanOrder(cfg: Config, c: Changes)
    ensures var p, na, nu := Plan(cfg, c), |c.adds|, |c.updates|;
      && p[0] == InitCall && p[1] == ListCall
      && (forall i :: 0 <= i < na ==>
            p[2 + i] == UploadCall(c.adds[i].key, Join(cfg.dir, c.adds[i].key), c.adds[i].md5))
      && (forall i :: 0 <= i < nu ==>
            p[2 + na + i] == UploadCall(c.updates[i].key, Join(cfg.dir, c.updates[i].key), c.updates[i].md5))
      && (forall i, j :: 0 <= i < j < |p| && p[i].DeleteCall? ==> p[j].DeleteCall?)
      && (forall i :: 2 <= i < 2 + na + nu ==> p[i].UploadCall?)
      && (forall i :: 2 + na + nu <= i < |p| ==> p[i].DeleteCall?)
  {
    PlanKinds(cfg, c);
    PlanAdds(cfg, c);
    PlanUpdates(cfg, c);
  }

  /** A plan is the set-up, the two runs of uploads and the deletes, in this order. */
  lemma PlanParts(cfg: Config, c: Changes)
    ensures Plan(cfg, c) == [InitCall, ListCall]
      + (Uploads(cfg.dir, c.adds) + Uploads(cfg.dir, c.updates) + (if cfg.ForceDelete() then Deletes(c.deletes) else []))
  {
  }

  lemma PlanAdds(cfg: Config, c: Changes)
    ensures forall i :: 0 <= i < |c.adds| ==>
      Plan(cfg, c)[2 + i] == UploadCall(c.adds[i].key, Join(cfg.dir, c.adds[i].key), c.adds[i].md5)
  {
    PlanParts(cfg, c);
  }

  lemma PlanUpdates(cfg: Config, c: Changes)
    ensures forall i :: 0 <= i < |c.updates| ==>
      Plan(cfg, c)[2 + |c.adds| + i] == UploadCall(c.updates[i].key, Join(cfg.dir, c.updates[i].key), c.updates[i].md5)
  {
    var a, b := Uploads(cfg.dir, c.adds), Uploads(cfg.dir, c.updates);
    var d := if cfg.ForceDelete() then Deletes(c.deletes) else [];
    var p := Plan(cfg, c);
    PlanParts(cfg, c);
    forall i | 0 <= i < |c.updates|
      ensures p[2 + |c.adds| + i] == UploadCall(c.updates[i].key, Join(cfg.dir, c.updates[i].key), c.updates[i].md5)
    {
      var k := |a| + i;
      CallAfter(a, b, i);
      CallBefore(a + b, d, k);
      CallAfter([InitCall, ListCall], a + b + d, k);
    }
  }

  lemma CallAfter(x: seq<Call>, y: seq<Call>, i: int)
    requires 0 <= i < |y|
    ensures (x + y)[|x| + i] == y[i]
  {
  }

  lemma CallBefore(x: seq<Call>, y: seq<Call>, i: int)
    requires 0 <= i < |x|
    ensures (x + y)[i] == x[i]
  {
  }

  /** The set-up calls come first, the uploads next, the deletes last. */
  lemma PlanKinds(cfg: Config, c: Changes)
    ensures var p, n := Plan(cfg, c), 2 + |c.adds| + |c.updates|;
      && p[0] == InitCall && p[1] == ListCall
      && (forall i, j :: 0 <= i < j < |p| && p[i].DeleteCall? ==> p[j].DeleteCall?)
      && (forall i :: 2 <= i < n ==> p[i].UploadCall?)
      && (forall i :: n <= i < |p| ==> p[i].DeleteCall?)
  {
    var a, b := Uploads(cfg.dir, c.adds), Uploads(cfg.dir, c.updates);
    var d := if cfg.ForceDelete() then Deletes(c.deletes) else [];
    var p, n := Plan(cfg, c), 2 + |a| + |b|;
    var t := a + b + d;
    PlanParts(cfg, c);
    assert p[0] == InitCall && p[1] == ListCall;
    forall i | 2 <= i < |p| ensures p[i] == t[i - 2] { }
    forall i | 0 <= i < |t| ensures (i < |a| + |b| ==> t[i].UploadCall?) && (i >= |a| + |b| ==> t[i].DeleteCall?) {
      if i < |a| {
        assert t[i] == a[i];
      } else if i < |a| + |b| {
        assert t[i] == b[i - |a|];
      } else {
        assert t[i] == d[i - |a| - |b|];
      }
    }
    forall i, j | 0 <= i < j < |p| && p[i].DeleteCall? ensures p[j].DeleteCall? {
      assert n <= i;
    }
  }

  /** Under any policy but `delete`, a run deletes nothing. */
  lemma KeepDeletesNothing(cfg: Config, c: Changes)
    requires !cfg.ForceDelete()
    ensures |Plan(cfg, c)| == 2 + |c.adds| + |c.updates|
    ensures forall call :: call in Plan(cfg, c) ==> !call.DeleteCall?
  {
    PlanOrder(cfg, c);
  }

  /** Under `delete`, a run deletes each unused file once, in order, after all uploads. */
  lemma DeleteDeletesEach(cfg: Config, c: Changes)
    requires cfg.ForceDelete()
    ensures var p, n := Plan(cfg, c), 2 + |c.adds| + |c.updates|;
      && |p| == n + |c.deletes|
      && forall i :: 0 <= i < |c.deletes| ==> p[n + i] == DeleteCall(c.deletes[i].key)
  {
  }

  /** Every call of a plan after the listing is an upload of an add or an update, or a delete of a delete. */
  lemma PlanCallOrigin(cfg: Config, c: Changes, call: Call)
    requires call in Plan(cfg, c)
    ensures call.UploadCall? ==>
      exists r :: (r in c.adds || r in c.updates) && call == UploadCall(r.key, Join(cfg.dir, r.key), r.md5)
    ensures call.DeleteCall? ==> cfg.ForceDelete() && exists r :: r in c.deletes && r.key == call.key
  {
    var p := Plan(cfg, c);
    PlanOrder(cfg, c);
    var i :| 0 <= i < |p| && p[i] == call;
    var na, nu := |c.adds|, |c.updates|;
    if 2 <= i < 2 + na {
      assert c.adds[i - 2] in c.adds;
    } else if 2 + na <= i < 2 + na + nu {
      assert c.updates[i - 2 - na] in c.updates;
    } else if 2 + na + nu <= i {
      assert c.deletes[i - 2 - na - nu] in c.deletes;
    }
  }

  /** Adds and updates are local records. */
  lemma ChangedAreLocal(local: seq<ObjectRecord>, remote: seq<ObjectRecord>, r: ObjectRecord)
    requires r in DiffOf(local, remote).adds || r in DiffOf(local, remote).updates
    ensures r in local
  {
    var d := RemoteDict(remote);
    SortByKeyMembers(OfKind(local, d, Add), r);
    OfKindMembers(local, d, Add, r);
    SortByKeyMembers(OfKind(local, d, Update), r);
    OfKindMembers(local, d, Update, r);
  }

  /**
   * A run deletes only remote files whose key no local file has: each
   * deleted key is a key of the listing (not a directory marker) and not
   * a key of the local inventory.
   */
  lemma DeletesOnlyUnmatched(cfg: Config, local: seq<ObjectRecord>, remote: seq<ObjectRecord>, k: string)
    requires DeleteCall(k) in Plan(cfg, DiffOf(local, remote))
    ensures cfg.ForceDelete()
    ensures k in RemoteDict(remote) && k !in KeysOf(local) && !IsDirectoryKey(k)
  {
    var c := DiffOf(local, remote);
    PlanCallOrigin(cfg, c, DeleteCall(k));
    var r :| r in c.deletes && r.key == k;
    DeletesExactly(local, remote);
    RemoteDictKeys(remote);
  }

  /**
   * A run uploads only local files, each under its own key, from its path
   * under the sync directory, with its own digest.
   */
  lemma UploadsOnlyLocal(cfg: Config, local: seq<ObjectRecord>, remote: seq<ObjectRecord>,
                         k: string, path: string, md5: string)
    requires UploadCall(k, path, md5) in Plan(cfg, DiffOf(local, remote))
    ensures path == Join(cfg.dir, k)
    ensures exists r :: r in local && r.key == k && r.md5 == md5
  {
    var c := DiffOf(local, remote);
    PlanCallOrigin(cfg, c, UploadCall(k, path, md5));
    var r :| (r in c.adds || r in c.updates) && UploadCall(k, path, md5) == UploadCall(r.key, Join(cfg.dir, r.key), r.md5);
    ChangedAreLocal(local, remote, r);
  }

  /**
   * A directory already in step with the bucket (same records, distinct
   * keys, no directory markers) costs a run nothing but the set-up and the
   * listing.
   */
  lemma InStepRunsNothing(cfg: Config, a: seq<ObjectRecord>)
    requires DistinctKeys(a) && forall i :: 0 <= i < |a| ==> !IsDirectoryKey(a[i].key)
    ensures Plan(cfg, DiffOf(a, a)) == [InitCall, ListCall]
  {
    DiffOfSelf(a);
  }
}

/**
 * The synchroniser's entry point (`main` in sync.py): reads its settings
 * from the environment, then drives one storage backend through a fixed
 * sequence of calls — set up, list, upload every new file, upload every
 * changed file, and delete unused files only under the `delete` policy.
 */
module Sync {
  import opened Wrappers
  import opened Text
  import opened Records
  import opened DiffEngine
  import opened LocalWalk
  import opened EnvKeys

  // ---------------------------------------------------------------------
  // Settings (sync.py:15-36)
  // ---------------------------------------------------------------------

  const Workspace: string := "GITHUB_WORKSPACE"

  /** `os.environ.get(key, default)`. */
  function EnvGet(env: map<string, string>, key: string, default: string): (r: string)
    ensures key !in env ==> r == default
    ensures key in env ==> r == env[key]
  {
    if key in env then env[key] else default
  }

  datatype ConfigError =
    | MissingEnv(name: string)           // `exit(1)` after "ERROR: env not set"
    | UndefinedAttribute(name: string)   // an AttributeError on the `util` module

  /** The settings a run works with; `policy` is the unused-file policy. */
  datatype Config = Config(dir: string, kind: string, region: string, policy: string) {
    /** Unused remote files are deleted only under the policy `delete`. */
    predicate ForceDelete() {
      policy == "delete"
    }
  }

  /**
   * The first failing check of sync.py:17-26, if any: the region, then
   * the access id, then the access secret must be set and non-empty.
   */
  function MissingSetting(env: map<string, string>): Option<ConfigError> {
    if EnvGet(env, SyncRegion, "") == "" then Some(MissingEnv(SyncRegion))
    else if EnvGet(env, SyncAccessId, "") == "" then Some(MissingEnv(SyncAccessId))
    else if EnvGet(env, SyncAccessSecret, "") == "" then Some(MissingEnv(SyncAccessSecret))
    else None
  }

  /** The local directory: `sync_dir`, under the GitHub workspace when one is set. */
  function DirOf(env: map<string, string>): string {
    var dir := EnvGet(env, SyncDir, "_site");
    var ws := EnvGet(env, Workspace, "");
    if ws != "" then Join(ws, dir) else dir
  }

  /**
   * The settings sync.py:15-36 produce. The unused-file setting is given
   * as a value, `None` when it is not set (the environment key it is read
   * from is not defined); it defaults to `keep`.
   */
  function LoadConfig(env: map<string, string>, unused: Option<string>): Result<Config, ConfigError> {
    match MissingSetting(env)
    case Some(e) => Failure(e)
    case None =>
      Success(Config(DirOf(env), EnvGet(env, SyncType, "aws"), EnvGet(env, SyncRegion, ""), unused.GetOr("keep")))
  }

  /**
   * The settings as sync.py:15-36 reads them: the policy's key is looked
   * up as the attribute `SYNC_OPT_UNUSED` of `util`, which util.py does
   * not define.
   */
  function LoadConfigAsWritten(env: map<string, string>): Result<Config, ConfigError> {
    match MissingSetting(env)
    case Some(e) => Failure(e)
    case None =>
      if "SYNC_OPT_UNUSED" in UtilNames then
        var policy := EnvGet(env, UtilNames["SYNC_OPT_UNUSED"], "keep");
        Success(Config(DirOf(env), EnvGet(env, SyncType, "aws"), EnvGet(env, SyncRegion, ""), policy))
      else Failure(UndefinedAttribute("SYNC_OPT_UNUSED"))
  }

  // ---------------------------------------------------------------------
  // The backend and the run (sync.py:38-65)
  // ---------------------------------------------------------------------

  /** A call of the storage backend's interface. */
  datatype Call =
    | InitCall
    | ListCall
    | UploadCall(key: string, path: string, md5: string)
    | DeleteCall(key: string)

  /**
   * A storage backend chosen by `sync_type`. What it lists is fixed when
   * it is created; `trace` records the calls made on it, in order.
   */
  class Backend {
    const listing: seq<ObjectRecord>
    ghost var trace: seq<Call>

    constructor(listing: seq<ObjectRecord>)
      ensures this.listing == listing && trace == []
    {
      this.listing := listing;
      trace := [];
    }

    /** `init(ctx, env)`. */
    method Init(env: map<string, string>)
      modifies this
      ensures trace == old(trace) + [InitCall]
    {
      trace := trace + [InitCall];
    }

    /** `list_all(ctx, env)`. */
    method ListAll() returns (objs: seq<ObjectRecord>)
      modifies this
      ensures objs == listing && trace == old(trace) + [ListCall]
    {
      trace := trace + [ListCall];
      objs := listing;
    }

    /** `upload(ctx, env, objectKey, fpath, b64md5)`. */
    method Upload(key: string, path: string, md5: string)
      modifies this
      ensures trace == old(trace) + [UploadCall(key, path, md5)]
    {
      trace := trace + [UploadCall(key, path, md5)];
    }

    /** `delete(ctx, env, objectKey)`. */
    method Delete(key: string)
      modifies this
      ensures trace == old(trace) + [DeleteCall(key)]
    {
      trace := trace + [DeleteCall(key)];
    }
  }

  /** One upload per record, of the file at its key under `dir`. */
  function Uploads(dir: string, objs: seq<ObjectRecord>): (r: seq<Call>)
    ensures |r| == |objs|
  {
    seq(|objs|, i requires 0 <= i < |objs| => UploadCall(objs[i].key, Join(dir, objs[i].key), objs[i].md5))
  }

  /** One delete per record. */
  function Deletes(objs: seq<ObjectRecord>): (r: seq<Call>)
    ensures |r| == |objs|
  {
    seq(|objs|, i requires 0 <= i < |objs| => DeleteCall(objs[i].key))
  }

  /** The upload and delete calls for the changes `c`. */
  function Dispatched(dir: string, c: Changes, forceDelete: bool): seq<Call> {
    Uploads(dir, c.adds) + Uploads(dir, c.updates) + (if forceDelete then Deletes(c.deletes) else [])
  }

  /** The calls a run makes once its settings are valid. */
  function Plan(cfg: Config, c: Changes): seq<Call> {
    [InitCall, ListCall] + Dispatched(cfg.dir, c, cfg.ForceDelete())
  }

  /** The local inventory of a run: `walk` is what `os.walk` finds under the sync directory. */
  function LocalInventory(dir: string, walk: seq<DirEntry>, size: string -> int, md5: string -> string)
    : seq<ObjectRecord>
  {
    SortByKey(Collected(KeyStart(dir), walk, size, md5))
  }

  lemma CallsAssociative(a: seq<Call>, b: seq<Call>, c: seq<Call>)
    ensures a + b + c == a + (b + c)
  {
  }

  /** The step of one more upload. */
  lemma UploadsStep(dir: string, objs: seq<ObjectRecord>, i: int)
    requires 0 <= i < |objs|
    ensures Uploads(dir, objs[..i + 1])
      == Uploads(dir, objs[..i]) + [UploadCall(objs[i].key, Join(dir, objs[i].key), objs[i].md5)]
  {
  }

  /** The step of one more delete. */
  lemma DeletesStep(objs: seq<ObjectRecord>, i: int)
    requires 0 <= i < |objs|
    ensures Deletes(objs[..i + 1]) == Deletes(objs[..i]) + [DeleteCall(objs[i].key)]
  {
  }

  /**
   * The checks and defaults of sync.py:15-36, step by step: the exit
   * status 1 of a missing setting is a failure here.
   */
  method ReadConfig(env: map<string, string>, unused: Option<string>) returns (r: Result<Config, ConfigError>)
    ensures r == LoadConfig(env, unused)
  {
    var syncDir := EnvGet(env, SyncDir, "_site");
    var syncType := EnvGet(env, SyncType, "aws");
    var syncRegion := EnvGet(env, SyncRegion, "");
    if syncRegion == "" {
      return Failure(MissingEnv(SyncRegion));
    }
    var required := [SyncAccessId, SyncAccessSecret];
    assert required[0] == SyncAccessId && required[1] == SyncAccessSecret;
    for i := 0 to |required|
      invariant forall j :: 0 <= j < i ==> EnvGet(env, required[j], "") != ""
    {
      if EnvGet(env, required[i], "") == "" {
        return Failure(MissingEnv(required[i]));
      }
    }
    assert EnvGet(env, required[0], "") != "" && EnvGet(env, required[1], "") != "";
    var ws := EnvGet(env, Workspace, "");
    if ws != "" {
      syncDir := Join(ws, syncDir);
    }
    var optUnused := if unused.Some? then unused.value else "keep";
    return Success(Config(syncDir, syncType, syncRegion, optUnused));
  }

  /** The upload and delete loops of sync.py:52-63. */
  method Dispatch(backend: Backend, dir: string, c: Changes, forceDelete: bool)
    modifies backend
    ensures backend.trace == old(backend.trace) + Dispatched(dir, c, forceDelete)
  {
    ghost var t0 := backend.trace;
    for i := 0 to |c.adds|
      invariant backend.trace == t0 + Uploads(dir, c.adds[..i])
    {
      var obj := c.adds[i];
      backend.Upload(obj.key, Join(dir, obj.key), obj.md5);
      UploadsStep(dir, c.adds, i);
      CallsAssociative(t0, Uploads(dir, c.adds[..i]), [UploadCall(obj.key, Join(dir, obj.key), obj.md5)]);
    }
    assert c.adds[..|c.adds|] == c.adds;
    ghost var t1 := backend.trace;
    for i := 0 to |c.updates|
      invariant backend.trace == t1 + Uploads(dir, c.updates[..i])
    {
      var obj := c.updates[i];
      backend.Upload(obj.key, Join(dir, obj.key), obj.md5);
      UploadsStep(dir, c.updates, i);
      CallsAssociative(t1, Uploads(dir, c.updates[..i]), [UploadCall(obj.key, Join(dir, obj.key), obj.md5)]);
    }
    assert c.updates[..|c.updates|] == c.updates;
    ghost var t2 := backend.trace;
    for i := 0 to |c.deletes|
      invariant backend.trace == t2 + (if forceDelete then Deletes(c.deletes[..i]) else [])
    {
      var obj := c.deletes[i];
      if forceDelete {
        backend.Delete(obj.key);
        DeletesStep(c.deletes, i);
        CallsAssociative(t2, Deletes(c.deletes[..i]), [DeleteCall(obj.key)]);
      }
    }
    assert c.deletes[..|c.deletes|] == c.deletes;
    CallsAssociative(t0, Uploads(dir, c.adds), Uploads(dir, c.updates));
    CallsAssociative(t0, Uploads(dir, c.adds) + Uploads(dir, c.updates), if forceDelete then Deletes(c.deletes) else []);
  }

  /**
   * `main` as intended: exit status 1 and no backend call when a setting
   * is missing; otherwise exit status 0 after exactly the calls of `Plan`
   * for the diff of the local inventory against the backend's listing.
   * The unused-file policy is the parameter `unused`. As written, sync.py
   * reads it from `util.SYNC_OPT_UNUSED`, which util.py does not define,
   * so every run that passes the settings checks ends there with an
   * `AttributeError` and status 1 (`LoadConfigAsWritten`).
   */
  method Run(env: map<string, string>, unused: Option<string>, walk: seq<DirEntry>, size: string -> int,
             md5: string -> string, backend: Backend)
    returns (exitCode: int)
    modifies backend
    ensures LoadConfig(env, unused).Failure? ==> exitCode == 1 && backend.trace == old(backend.trace)
    ensures LoadConfig(env, unused).Success? ==>
      var cfg := LoadConfig(env, unused).value;
      && exitCode == 0
      && backend.trace == old(backend.trace)
           + Plan(cfg, DiffOf(LocalInventory(cfg.dir, walk, size, md5), backend.listing))
  {
    var loaded := ReadConfig(env, unused);
    if loaded.Failure? {
      return 1;
    }
    var cfg := loaded.value;
    var forceDelete := cfg.policy == "delete";
    ghost var t0 := backend.trace;
    backend.Init(env);
    var srcObjs := WalkDir(cfg.dir, walk, size, md5);
    var destObjs := backend.ListAll();
    var addObjs, updateObjs, deleteObjs := Diff(srcObjs, destObjs);
    var c := Changes(addObjs, updateObjs, deleteObjs);
    assert c == DiffOf(LocalInventory(cfg.dir, walk, size, md5), backend.listing);
    assert backend.trace == t0 + [InitCall, ListCall];
    Dispatch(backend, cfg.dir, c, forceDelete);
    CallsAssociative(t0, [InitCall, ListCall], Dispatched(cfg.dir, c, forceDelete));
    return 0;
  }
}

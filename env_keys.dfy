/**
 * The names of the settings the synchroniser reads from the environment,
 * as util.py defines them at module level (util.py:6-11).
 */
module EnvKeys {
  const SyncDir: string := "sync_dir"
  const SyncType: string := "sync_type"
  const SyncBucket: string := "sync_bucket"
  const SyncRegion: string := "sync_region"
  const SyncAccessId: string := "sync_access_id"
  const SyncAccessSecret: string := "sync_access_secret"

  /** The module-level names util.py defines, by attribute name. */
  const UtilNames: map<string, string> := map[
    "SYNC_DIR" := SyncDir, "SYNC_TYPE" := SyncType, "SYNC_BUCKET" := SyncBucket,
    "SYNC_REGION" := SyncRegion, "SYNC_ACCESS_ID" := SyncAccessId,
    "SYNC_ACCESS_SECRET" := SyncAccessSecret]
}

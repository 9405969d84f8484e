# sync-s3-compatible-action, modelled in Dafny

A model of the synchroniser that uploads a static site directory to an
S3-compatible bucket (Amazon S3, Cloudflare R2, Baidu BOS, Tencent COS,
Aliyun OSS) and, optionally, deletes what the directory no longer holds.
A run reads its settings from the environment, inventories the local
directory (key, size, base64 MD5 per file), lists the bucket through one
backend module, computes a diff (adds, updates, deletes, each sorted by
key), and then uploads and deletes accordingly.

Modules, one file each:

- `Wrappers` (wrappers.dfy): `Option` and `Result`. A Python exception
  becomes a `Failure`.
- `EnvKeys` (env_keys.dfy): the names of the settings, as util.py
  defines them.
- `Text` (text.dfy): prefix and suffix tests, ASCII lower-casing, and the
  code-point order of Python `str` used to sort keys.
- `Records` (records.dfy): the object record `{key, size, md5}` and the
  stable sort by key (`sorted_objs`), with stability and canonicity proved.
- `DiffEngine` and `DiffProperties` (diff.dfy, diff_properties.dfy):
  - `file_objs_to_dict` folded over the remote list, with Python's dict
    insertion order kept.
  - The `diff` loop as a method, proved equal to a specification function.
  - What each of the three result lists holds.
  - The order of the inputs does not matter when keys are distinct. With
    a repeated key it does: the last remote record with that key is kept,
    and a repeated local key is added again.
- `Codec` (codec.dfy): `bytes.fromhex` and base64 as in section 4 of
  RFC 4648, with the round trip proved.
- `ETag` (etag.dfy): `file_b64md5` (from a given digest) and `etag_to_md5`.
- `ETagExamples` (etag_examples.dfy): the docstring examples of both, for
  the digest of the repository's LICENSE file.
- `Mime` and `MimeExamples` (mime.dfy, mime_examples.dfy): `guess_mime`,
  with POSIX `os.path.splitext` and the three entries the program adds to
  the MIME table.
- `LocalWalk` (walk.dfy): `walkdir` over a given directory walk, with POSIX
  `os.path.join`.
- `Sync` and `SyncProperties` (sync.dfy, sync_properties.dfy): `main`,
  covering settings, exit status, and the calls made on the backend in
  order.
- `Providers` (providers.dfy): the parts every backend module shares:
  - the `ctx` dict and the environment as classes;
  - `KeyError` on a missing setting or a missing `ctx` entry;
  - the client built from the region and the keys, which aws.py and
    qcloud.py both use;
  - the endpoint suffix rule;
  - `put_object`, `delete_object` and the `Contents` loop of a listing.
- `Listing` (listing.dfy): the paginated `list_all` loop of aws.py,
  cloudflare.py and baidu.py. The first two use a continuation token;
  baidu.py uses a marker.
- `S3`, `Baidu`, `Qcloud`, `Aliyun` (s3.dfy, baidu.dfy, qcloud.dfy,
  aliyun.dfy): each backend's `init`, `upload`, `delete` and `list_all`.

## Model

| member | source | states |
|---|---|---|
| Text.Lower | util.py:136 | same length, each character lowered on its own |
| Text.LowerIdempotent | util.py:136 | lowering twice is lowering once |
| Text.KeyLeTotal | util.py:58-59 | any two keys are comparable in the sort order |
| Text.KeyLeAntisymmetric | util.py:58-59 | keys each at most the other are equal |
| Text.KeyLeTransitive | util.py:58-59 | the key order is transitive |
| Records.SortByKey | util.py:58-59 | the result is sorted by key and is a permutation (same multiset) of the input |
| Records.SortByKeyMembers | util.py:58-59 | a record is in the sorted list iff it is in the input |
| Records.SortByKeyStable | util.py:58-59 | records with equal keys keep their input order (`sorted` is stable) |
| Records.SortedDeterminedByKeys | util.py:58-59 | two sorted lists with the same per-key subsequences are equal |
| Records.SortByKeyCanonical | util.py:58-59 | inputs with the same per-key subsequences sort to the same list |
| Records.SortByKeyDistinct | util.py:58-59 | sorting keeps keys distinct |
| Records.SortByKeySameElements | util.py:103 | key-distinct lists with the same records sort to the same list, whatever their order |
| DiffEngine.Unmatched | util.py:98-102 | keeps exactly the keys not matched, in order |
| DiffEngine.FileObjsToDict | util.py:62-67 | the dict with the record stored under its key, or the dict unchanged when the key ends in `/` |
| DiffEngine.RemoteDict | util.py:89 | the fold of `file_objs_to_dict` over the remote list from the empty dict: each non-marker key mapped to its last listed record |
| DiffEngine.ReduceToDict | util.py:89 | the loop builds exactly the dict and the insertion order that folding `file_objs_to_dict` over the list builds |
| DiffEngine.RemoteDictKeys | util.py:62-67 | the dict's keys are exactly the listed keys not ending in `/`; each value is a listed record under its own key |
| DiffEngine.DictOrderKeys | util.py:102 | the insertion order lists every dict key once |
| DiffEngine.DiffOf | util.py:85-103 | the value of `diff`: the local records classified as adds, and as updates, against the remote dict less the keys already seen, and the remote dict values whose key no local record has, each list sorted by key |
| DiffEngine.Diff | util.py:70-103 | the method returns exactly the adds, updates and deletes of the specification `DiffOf` |
| DiffProperties.RemoteDictLastWins | util.py:62-67 | the last listed record with a key is the one kept |
| DiffProperties.RemoteDictValue | util.py:62-67 | every kept record is the last listed one with its key |
| DiffProperties.OfKindMembers | util.py:90-101 | a record is in a class iff some local position holding it is classified so |
| DiffProperties.LocalRecordClassified | util.py:90-101 | the first local record with a key is added iff the remote lacks the key, updated iff size or md5 differ, else in neither list |
| DiffProperties.FirstOccurrenceKind | util.py:90-101 | a first occurrence goes to the class its remote counterpart decides |
| DiffProperties.DirectoryKeyAdded | util.py:90-101 | a local key ending in `/` is always an add, since the remote dict never holds such a key |
| DiffProperties.RepeatedKeyAdded | util.py:98-101 | a repeated local key is an add once its remote counterpart was consumed |
| DiffProperties.DeletesOfMembers | util.py:98-102 | the deletes are exactly the kept remote records whose key no local record has, keys distinct |
| DiffProperties.DeletesExactly | util.py:102-103 | the sorted deletes hold exactly those records |
| DiffProperties.DeletesAreUnmatchedRemote | util.py:98-102 | every unmatched kept remote record is deleted |
| DiffProperties.DiffOfSelf | util.py:90-103 | diffing a key-distinct, marker-free list against itself changes nothing |
| DiffProperties.DiffOfDisjoint | util.py:90-103 | with no shared keys, all local records are adds and all kept remote ones deletes |
| DiffProperties.OfKindOfDistinct | util.py:90-101 | on key-distinct local records, a record is an add (an update) iff it is local and its classification against the whole remote dict is an add (an update) |
| DiffProperties.OfKindDistinct | util.py:90-101 | the adds and the updates of key-distinct local records have distinct keys |
| DiffProperties.RemoteDictShuffled | util.py:89 | key-distinct remote lists with the same records give the same dict, whatever their order |
| DiffProperties.DiffOfShuffled | util.py:85-103 | shuffling key-distinct local and remote lists leaves the adds, the updates and the deletes unchanged; distinct keys are needed, since with a repeated key the last remote record wins and a repeated local key is added again |
| DiffProperties.DiffExample | util.py:74-83 | the docstring example, for every key-distinct, marker-free inventory `objs` that starts with that `README.md` record and has no `z/update.txt` or `z/delete.txt`: `README.md` is the only add, the new `z/update.txt` the only update, `z/delete.txt` the only delete |
| DiffProperties.OfKindAtMost | util.py:90-101 | when only the record at one position is classified as a kind, that kind's list is exactly that record; when none is, it is empty |
| DiffProperties.WithoutMarkers | util.py:65 | keeps exactly the records whose key does not end in `/` |
| DiffProperties.RemoteDictWithoutMarkers | util.py:62-67 | dropping directory markers first changes neither the dict nor its order |
| DiffProperties.DiffIgnoresMarkers | util.py:62-67 | remote directory markers never affect the diff |
| Codec.HexDigit | util.py:137 | the digit written for a value reads back as that value |
| Codec.ToHex | util.py:137 | two lower-case hex digits per byte |
| Codec.HexPair | util.py:137 | a pair decodes iff both characters are hex digits |
| Codec.FromHex | util.py:137 | `bytes.fromhex`: one byte per pair of hex digits, white space skipped before each pair; `None` (the `ValueError`) on anything else |
| Codec.FromHexToHex | util.py:137 | `bytes.fromhex` reads the hex text of any bytes back |
| Codec.FromHexIgnoresCase | util.py:136-137 | lower-casing the text does not change what `bytes.fromhex` yields |
| Codec.FromHexLength | util.py:135-137 | text without spaces decodes to half as many bytes |
| Codec.B64ValueChar | util.py:116 | each base64 digit reads back as its value |
| Codec.Base64Encode | util.py:116 | four characters per started group of three bytes |
| Codec.Base64RoundTrip | util.py:116 | decoding the encoding of any bytes gives them back |
| Codec.Base64Injective | util.py:116 | different bytes never encode alike |
| Codec.Base64OfDigest | util.py:116 | a 16-byte digest encodes to 24 characters ending in exactly `==` |
| Codec.Base64Split | util.py:116 | encoding splits at any group boundary |
| ETag.FileB64Md5 | util.py:106-116 | the base64 MD5 is 24 characters whose only padding is the final `==` |
| ETag.Unquote | util.py:130-134 | at most two characters are removed |
| ETag.UnquoteQuoted | util.py:131-134 | a quoted E-Tag loses exactly its two quotes |
| ETag.UnquoteBare | util.py:131-134 | an unquoted E-Tag is kept as is |
| ETag.EtagIgnoresCase | util.py:136 | upper- and lower-case E-Tags convert alike |
| ETag.EtagIgnoresQuotes | util.py:123-126 | a quoted E-Tag converts like the bare one |
| ETag.EtagToMd5 | util.py:119-139 | after unquoting, a 32-character tag read as lower-cased hex and re-encoded in base64 (`None` where `bytes.fromhex` raises); any other length gives the all-`A` sentinel |
| ETag.EtagOfDigest | util.py:119-137 | the hex E-Tag of a digest, quoted or not, converts to that digest's `file_b64md5` |
| ETag.EtagNotMd5 | util.py:135-139 | an E-Tag of any other length gives the all-`A` sentinel |
| ETag.SentinelIsZeroDigest | util.py:138-139 | the sentinel is the base64 of sixteen zero bytes |
| ETag.EtagMd5Shape | util.py:135-137 | a successful conversion has the shape of a base64 MD5 |
| ETagExamples.LicenseHex | util.py:123 | the hexadecimal text of the LICENSE digest is the E-Tag `1ebbd3e34237af26da5dc08a4e440464` |
| ETagExamples.LicenseBase64 | util.py:116 | the base64 text of the LICENSE digest is `HrvT40I3rybaXcCKTkQEZA==` |
| ETagExamples.FileB64Md5Example | util.py:110-111 | `file_b64md5('LICENSE')` is `HrvT40I3rybaXcCKTkQEZA==`, given the digest of LICENSE |
| ETagExamples.EtagToMd5Examples | util.py:123-128 | the bare, quoted and quoted upper-case E-Tags all convert to `HrvT40I3rybaXcCKTkQEZA==` |
| Mime.RFind | util.py:54 | the last index of a character, or -1 |
| Mime.SplitExt | util.py:54 | root and extension concatenate to the path; the extension is empty or a dot followed by neither dots nor slashes |
| Mime.Registry | util.py:14-16 | the table holds the platform's extensions plus `.js`, `.woff`, `.woff2` |
| Mime.GuessMime | util.py:54-55 | the type is the default or a value of the table |
| Mime.ExtOfLastComponent | util.py:54 | only the last path component decides the extension |
| Mime.ExtLower | util.py:54-55 | the extension of the lowered path is the lowered extension |
| Mime.GuessMimeIgnoresCase | util.py:55 | the type does not depend on the case of the path |
| Mime.GuessMimeOfName | util.py:54-55 | a file's type does not depend on its directory |
| Mime.GuessMimeOverrides | util.py:14-16 | `.js`, `.woff`, `.woff2` get the program's own types, in any case |
| Mime.GuessMimeNoExt | util.py:54-55 | a path without an extension gets `application/octet-stream` |
| Mime.GuessMimeOfExtension | util.py:54-55 | a name with one inner dot is typed by that extension, lowered |
| MimeExamples.GuessMimeExamples | util.py:23-52 | the fifteen docstring examples, under a table holding their entries |
| LocalWalk.Join | util.py:163 | an absolute second part wins; otherwise the result ends with it (the same `os.path.join` joins the workspace in sync.py) |
| LocalWalk.KeyStart | util.py:157-159 | the key starts one past the directory, or at its end when it ends in `/` |
| LocalWalk.FilesOf | util.py:162-164 | one record per file |
| LocalWalk.DirFiles | util.py:162-164 | the inner loop yields exactly `FilesOf` for the directory |
| LocalWalk.Collected | util.py:160-164 | the records of every file of the walk, in walk order and then file order, before sorting |
| LocalWalk.WalkDir | util.py:157-165 | the result is the sorted collection of every walked file's record |
| LocalWalk.WalkDirInventory | util.py:160-165 | the inventory is sorted, a permutation of the collected records, with one record per file |
| LocalWalk.CollectedCount | util.py:160-164 | one record per walked file |
| LocalWalk.KeyOfJoin | util.py:157-164 | the key of a file joined under the directory is its relative path |
| LocalWalk.JoinAssociative | util.py:161-163 | joining step by step equals joining the relative path |
| LocalWalk.KeyInSubdirectory | util.py:157-164 | a file in a subdirectory gets the key `sub/name` |
| Sync.EnvGet | sync.py:15-17 | the value when set, else the default |
| Sync.ReadConfig | sync.py:15-35 | reads exactly the settings of `LoadConfig` |
| Sync.LoadConfig | sync.py:15-35 | the corrected settings: the first of region, id and secret that is missing or empty is the error; otherwise the directory (under the workspace when set), the type (default `aws`), the region and the given policy (default `keep`) |
| Sync.LoadConfigAsWritten | sync.py:15-35 | the settings as written: the same checks, then the `AttributeError` on `util.SYNC_OPT_UNUSED`, which util.py:6-11 does not define |
| Sync.Backend.Init | sync.py:41 | records the set-up call |
| Sync.Backend.ListAll | sync.py:44 | returns the bucket's listing and records the call |
| Sync.Backend.Upload | sync.py:54-57 | records the upload |
| Sync.Backend.Delete | sync.py:61 | records the delete |
| Sync.Dispatch | sync.py:52-63 | the calls made are the uploads of adds, then of updates, then the deletes under `delete` |
| Sync.Plan | sync.py:41-63 | the calls of a run past the checks: init, list, one upload per add and then per update in order, then one delete per delete only under `delete` |
| Sync.Run | sync.py:8-65 | the corrected `main`, with the policy a parameter: exit status 1 and no call on a missing setting; else status 0 after exactly the plan for the diff of the local inventory against the listing. As written, sync.py:35 ends such a run with `AttributeError` and status 1 (see Findings) |
| SyncProperties.ConfigChecks | sync.py:17-26 | a run goes ahead iff region, id and secret are non-empty; the error names the first missing one |
| SyncProperties.ConfigDefaults | sync.py:15-35 | the defaults `_site`, `aws`, `keep` |
| SyncProperties.ConfigWorkspace | sync.py:28-30 | under a workspace the directory is joined under it and keys stay relative to the directory |
| SyncProperties.ForceDeleteOnlyOnDelete | sync.py:48 | deletion is on iff the policy is `delete` |
| SyncProperties.AsWrittenNeverSyncs | sync.py:35 | as written, every run with valid settings stops with an AttributeError |
| SyncProperties.CorrectedConfigSyncs | sync.py:35 | with the policy read as a value, valid settings always let a run go ahead |
| SyncProperties.PlanOrder | sync.py:41-61 | set-up, listing, the uploads of adds then updates in order, deletes last |
| SyncProperties.KeepDeletesNothing | sync.py:58-63 | under `keep` nothing is deleted |
| SyncProperties.DeleteDeletesEach | sync.py:58-61 | under `delete` each delete is issued once, in order, after all uploads |
| SyncProperties.PlanCallOrigin | sync.py:52-61 | every upload is of an add or an update; every delete is of a delete under `delete` |
| SyncProperties.ChangedAreLocal | util.py:90-101 | adds and updates are local records |
| SyncProperties.DeletesOnlyUnmatched | sync.py:58-61 | a deleted key is listed remotely, is not a directory marker, and has no local file |
| SyncProperties.UploadsOnlyLocal | sync.py:52-57 | each upload sends a local file from its path under the directory, with its digest |
| SyncProperties.InStepRunsNothing | sync.py:46-63 | a directory in step with the bucket costs only the set-up and the listing |
| Providers.RegionClient | aws.py:15-21 | a client with the region and credentials, else the `KeyError` of the first missing setting; qcloud.py:9-13 builds the same |
| Providers.Lookup | aws.py:16 | a value when the key is set, else `KeyError`; `ctx[...]` (aws.py:75) is the same lookup |
| Providers.WithSuffix | cloudflare.py:14-15 | the result ends with the suffix |
| Providers.WithSuffixAppends | cloudflare.py:14-15 | kept iff already suffixed, else the suffix is appended |
| Providers.WithSuffixIdempotent | cloudflare.py:14-15 | suffixing twice is suffixing once |
| Providers.ReadSettings | aws.py:16-19 | the three settings when set, else `KeyError` on the first missing, in source order |
| Providers.StoreClient | aws.py:23 | `ctx["client"]` is set on success and `ctx` is untouched on failure |
| Providers.SuffixedEndpoint | cloudflare.py:14-20 | the endpoint is `https://` plus the region, ending with the suffix |
| Providers.PutFile | aws.py:37-42 | the put goes through the stored client to the configured bucket with the guessed type and the md5, else `KeyError` on the bucket, then the client; cloudflare.py and qcloud.py do the same |
| Providers.DeleteFile | aws.py:53-56 | the delete goes to the configured bucket, else `KeyError` on the bucket, then the client; cloudflare.py, baidu.py and qcloud.py do the same |
| Providers.ListTarget | aws.py:73-75 | the bucket and the client, else `KeyError` in that order |
| Providers.PutThenDeleteSameObject | aws.py:37-56 | a put and a delete of one key succeed together and address the same object |
| Providers.PutAfterInit | aws.py:23-42 | after `init` a put with a bucket set goes through the new client, its type depending on the key and not the local path |
| Providers.UploadHeaders | baidu.py:22 | exactly the headers `Content-Type` (the guessed type) and `Content-MD5`, as aliyun.py also sends them |
| Providers.ToRecord | aws.py:89-90 | the record of a listed object, or the failure of its E-Tag |
| Providers.Then | aws.py:90 | appending records after an accumulator, failures passed on |
| Providers.ThenThen | aws.py:90 | appending in two steps is appending once |
| Providers.PageRecords | aws.py:85-90 | the records of a page's non-marker objects in order, or the E-Tag failure of the first that does not convert |
| Providers.AppendFiles | aws.py:87-90 | the loop appends the records of one page's files to the accumulator; the same loop is in cloudflare.py and baidu.py |
| Providers.Files | aws.py:88 | exactly the listed objects whose key does not end in `/` |
| Providers.PageRecordsFiles | aws.py:87-90 | one page's records are the records of its files, one for one, in order |
| Providers.PageRecordsPlain | aws.py:87-90 | files whose E-Tag is not an MD5 get the all-`A` sentinel and keep key and size |
| Providers.FilesAll | aws.py:88 | a page without markers keeps every object |
| Listing.NextToken | aws.py:82-83 | under the S3 rule, an empty token is never sent |
| Listing.Tokens | aws.py:78-92 | one token per request, the first being the initial one |
| Listing.TokensFollowAnswers | aws.py:82-92 | each request after the first carries the token of the answer before it; baidu.py passes its marker the same way |
| Listing.S3TokensNonEmpty | aws.py:78-83 | the first S3 request has no token and no later one an empty token |
| Listing.DrainStopsAtComplete | aws.py:80-91 | nothing after an untruncated answer is requested |
| Listing.DrainExhausted | aws.py:80-91 | a source that never completes yields no listing |
| Listing.EmptyAnswerContinues | aws.py:85-91 | a truncated answer without contents adds nothing and the listing goes on |
| Listing.DrainInOrder | aws.py:79-93 | records come out page by page, in order |
| Listing.DrainRecordsListed | aws.py:87-90 | every record comes from a listed object that is not a directory marker |
| Listing.Drain | aws.py:80-92 | what `list_all` returns for the answers: the records of every answer up to the first untruncated one, in order; the first conversion error; or `Exhausted` when the answers run out still truncated |
| Listing.Absorb | aws.py:85-90 | a page's records are appended, none when it has no contents |
| Listing.ListAll | aws.py:72-93 | the records of all pages and the tokens sent, or `KeyError` with no request; cloudflare.py and baidu.py run the same loop |
| S3.R2Client | cloudflare.py:12-20 | a client with the suffixed endpoint and credentials, else `KeyError` |
| S3.InitAws | aws.py:8-23 | builds `Providers.RegionClient` and stores it on success |
| S3.InitR2 | cloudflare.py:8-22 | builds `R2Client` and stores it on success |
| S3.R2Endpoint | cloudflare.py:14-20 | the endpoint starts with `https://` plus the region and ends with the R2 suffix |
| S3.SameCredentials | cloudflare.py:13-20 | R2 and S3 clients succeed on the same settings and carry the same credentials |
| Baidu.BosClient | baidu.py:10-16 | a client with the suffixed endpoint and credentials, else `KeyError` |
| Baidu.Init | baidu.py:10-17 | builds `BosClient` and stores it on success |
| Baidu.BosEndpoint | baidu.py:12-16 | the endpoint ends with the BOS suffix |
| Baidu.Upload | baidu.py:20-23 | the put to the configured bucket with the two headers, else `KeyError` |
| Baidu.UploadMatchesS3 | baidu.py:20-23 | fails exactly when the S3 put of aws.py fails and sends the same type and md5 |
| Baidu.MarkersAsGiven | baidu.py:34-46 | the first request has no marker and later ones the marker of the answer before |
| Qcloud.Init | qcloud.py:9-14 | builds `Providers.RegionClient` and stores it on success |
| Qcloud.ParseInt | qcloud.py:39 | a value iff the text is an optional sign and digits; negative only with `-` |
| Qcloud.Decimal | qcloud.py:39 | the decimal text of a number is digits only |
| Qcloud.ParseIntRoundTrip | qcloud.py:39 | `int` reads back every printed integer |
| Qcloud.ToRecord | qcloud.py:37-39 | the record, else the E-Tag failure, checked before the size failure |
| Qcloud.Markers | qcloud.py:30-43 | one marker per request, the first empty |
| Qcloud.EntryRecords | qcloud.py:36-39 | the records of an answer's non-marker objects with parsed sizes, or the first E-Tag or size failure |
| Qcloud.AppendFiles | qcloud.py:36-39 | the loop appends the records of one answer's files |
| Qcloud.Absorb | qcloud.py:34-39 | an answer's records are appended, none without contents |
| Qcloud.Drain | qcloud.py:32-43 | what `list_all` returns: the records up to the first answer flagged `"false"`; the first conversion error; `MissingNextMarker` (the `KeyError`) for another answer without `NextMarker`; `Exhausted` when the answers run out |
| Qcloud.ListAll | qcloud.py:27-44 | the records of all answers and the markers sent, or `KeyError` with no request |
| Qcloud.OnlyFalseStops | qcloud.py:40-43 | any `IsTruncated` other than `"false"` continues, and without `NextMarker` fails |
| Qcloud.FalseIsLast | qcloud.py:40-41 | `"false"` ends the listing |
| Qcloud.DrainInOrder | qcloud.py:31-44 | records come out answer by answer, in order |
| Qcloud.EntryRecordsListed | qcloud.py:36-39 | every record comes from a listed object that is not a directory marker |
| Qcloud.SizeReadBack | qcloud.py:39 | a size printed as decimal is read back exactly |
| Aliyun.OssInit | aliyun.py:9-17 | the handle and the environment with the credential copies, else `KeyError` on the first missing key |
| Aliyun.Init | aliyun.py:9-17 | copies the credentials into the environment and stores the handle under `bucket` |
| Aliyun.InitCredentials | aliyun.py:14-16 | the handle's credentials equal the two copies added to the environment, which equal the access id and secret; every other variable is kept |
| Aliyun.OssEndpoint | aliyun.py:11-17 | the endpoint ends with the OSS suffix |
| Aliyun.Upload | aliyun.py:20-23 | the put through the stored handle with the two headers, else `KeyError` |
| Aliyun.Delete | aliyun.py:26-28 | the delete through the stored handle, else `KeyError` |
| Aliyun.CallsAfterInit | aliyun.py:17-28 | after `init` uploads and deletes go to the configured bucket |
| Aliyun.AllRecords | aliyun.py:34-38 | one record per object the iterator yields, directory markers included, in order, or the first E-Tag failure |
| Aliyun.ListAll | aliyun.py:31-39 | the records of all objects, or `KeyError` |
| Aliyun.AllRecordsEach | aliyun.py:34-38 | one record per object, directory markers included |
| Aliyun.AgreesWithoutMarkers | aliyun.py:34-38 | without directory markers, the OSS records equal the records the S3 loop of aws.py keeps |
| Aliyun.PagedIsWithoutMarkers | aliyun.py:34-38 | the S3 loop's records are the OSS records minus the directory markers |
| Aliyun.MarkersChangeNothing | aliyun.py:34-38 | keeping directory markers in the listing never changes the diff |

## Left out

- Hashing, reading files, `os.walk` and `os.path.getsize` are parameters:
  - the MD5 digest and the size of a file are given functions of its path;
  - the directory walk is a given sequence of (root, files) entries.
- The platform's MIME table (`mimetypes` defaults) is a parameter. The
  docstring examples of `guess_mime` are proved under a table holding
  their entries.
- The concrete digests in the docstring of `walkdir` are not evaluated:
  the digests of those files are a parameter. The `file_b64md5` example
  is proved from the LICENSE digest, which the `etag_to_md5` examples
  spell out; MD5 itself is not computed.
- Printing, loading `.env`, and the module lookup by `__import__` are not
  modelled. The backend is a `Sync.Backend` object that records the calls
  made on it.
- Exceptions raised by SDK calls and by opening files are not modelled.
  - Sync.Run: every backend call is taken to succeed, so in the model a
    run of the corrected program that passes the settings checks always
    ends with status 0. The program itself can still fail there: besides
    SDK and file errors, each backend's `init` or `list_all` raises
    `KeyError` when `sync_bucket` is not set (aws.py:73, cloudflare.py:53,
    baidu.py:32, qcloud.py:28, aliyun.py:13), and `Sync.Backend` does not
    pass that on to `Run`. The program as written never gets that far:
    see Findings.
- `rmdir` and `mkdirs` of util.py are not used by a run and are not
  modelled.
- Text.Lower: ASCII letters only. Python lowers every Unicode letter.
  - E-Tag conversion is unaffected: no non-ASCII character lowers to a hex
    digit, so such an E-Tag fails `bytes.fromhex` either way.
  - The type lookup can differ. The model keeps characters whose Unicode
    lower case is ASCII, such as U+212A KELVIN SIGN (lowered to `k`) and
    U+0130 (lowered to `i` and U+0307). So `Mime.GuessMime` gives
    `application/octet-stream` for `a.\u212Ash`, where Python looks up
    `.ksh`.
- Qcloud.ParseInt: it does not accept surrounding whitespace, `_`
  separators or non-ASCII digits, which Python's `int` does.
- Listing.ListAll and Qcloud.ListAll take the server's answers as a
  finite sequence. Running out while the listing is still truncated gives
  the failure `Exhausted`, where the source would keep requesting.
- Aliyun.ListAll: the object sequence stands for what `oss2.ObjectIterator`
  yields, so its own paging is not modelled.
- Aliyun.BucketName: a handle made by `init` always names its bucket. The
  empty default is never used.
- Sync.ReadConfig: the policy for unused files is an `Option<string>`
  parameter, because its environment key is not defined (see Findings).

## Findings

| source | as written | input that shows it | evidently intended | confidence | as-written member | corrected member |
|---|---|---|---|---|---|---|
| sync.py:35 | reads `util.SYNC_OPT_UNUSED`, which util.py:6-11 never defines, so `AttributeError` is raised | any environment with `sync_region`, `sync_access_id` and `sync_access_secret` set | read the unused-file policy from an environment key, defaulting to `keep` | not executed | SyncProperties.AsWrittenNeverSyncs | SyncProperties.CorrectedConfigSyncs |

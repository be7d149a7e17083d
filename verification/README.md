# FileHub: a verified model of the file store

FileHub keeps files in a database (`files`, `file_versions`, `tus_uploads`) and their bytes in an object store,
while user requests and a background retention worker change both. This project models that core in Dafny and
proves what it promises. `dafny verify dfyconfig.toml` checks everything.

## Layout

| files | what they hold |
|---|---|
| `Common`, `Strings`, `Decimal` | optional values, errors, splitting and joining text, decimal printing |
| `ObjectKeys` | sanitised names and object keys, and how keys decode |
| `Storage` | the encrypting wrapper in front of an object store |
| `FsPaths`, `FsStore`, `FsRuns`, `FsDisk` | the file-system store: paths, crash semantics, concurrent system calls, the calls as made |
| `Schema`, `Quota`, `Lifecycle`, `FileServer` | rows and settings, caps, the operations as functions on the tables, the handlers that run them |
| `KeyInvariants`, `History`, `QuotaRuns` | invariants over whole runs of those operations, renames, moves and finalised resumable uploads included |
| `FirstNames` | what is simpler in runs without renames |
| `Rows` | what each operation leaves in the tables, column by column, and what a row owes to its upload |
| `ReadBack` | what downloads return over whole runs |
| `Relocation` | renames and moves |
| `Policies`, `Rotation`, `RotationRecovery`, `RotationPass`, `RotationRace` | retention: resolution, effects, recovery, whole passes, interleaving |
| `Tus`, `TusMetadata` | resumable uploads and their metadata header |
| `TusRuns`, `TusOrigins` | the invariants and the read-back over runs in which resumable uploads take part; sessions, HEAD and finished files tied to the request that announced them |
| `Worker` | one tick of the retention worker: rotation, then reaping |
| `Windows`, `LoginThrottle`, `UploadThrottle` | the two rate limits |
| `Sql`, `ListQuery`, `Paging`, `Access` | query text and binds, sorted pages, who may read what |
| `Folders`, `FileView` | the folder forest and the files page |
| `Ranges`, `Tokens`, `Workflow` | byte ranges, signature comparison, approval workflows |
| `Setting`, `KeyCounterexamples`, `Counterexamples` | a small server, and for each property that the code does not keep an input that reaches the failing side |

Handlers that update rows, files or maps in place are classes whose methods are proved equal to functions on the
old state; the theorems are about those functions, over all inputs, all runs or all interleavings.

## What is assumed

- One SQL statement, or one committed transaction, is one atomic step; deleting a `files` row takes its versions.
- The constraints of the schema hold, among them the UNIQUE bucket of a system; ids of file rows are UUIDs.
- File ids and session ids are fresh, temp-file suffixes are never reused, and temp names are never object keys.
- Clocks do not run backwards. Requests are atomic except in `RotationRace` and `FsRuns`, which are about interleaving.
- AES-GCM is a pair of functions with the round-trip and length laws, MD5 an uninterpreted function, base64 a pair
  of functions with the round-trip law.
- After a crash, a directory entry has one of the values it had since its directory was last fsynced, a file that
  was not fsynced has any bytes at all, and a directory whose entry was never stored may vanish.
- A collation ranks texts; it may tie.

Inputs that the program reads from its surroundings are parameters: clocks, ids, nonces, the order in which rows
come back, which removals fail (`stuck`, `removed`), and what a crash leaves.

## Where the code differs from what it says

A member whose name ends in `Iff` proves the exact condition; one in `Counterexamples` or `KeyCounterexamples` gives an
input that fails.

- Suffix ranges (`bytes=-1024`) take the end from the suffix length, not from the body
  (`Ranges.SuffixRangesFollowStandardIff`, `Counterexamples.DocumentedSuffixIsRefused`).
- `upload_version` writes its history row before the quota check. Refused, it leaves a row that names the live
  object, and a later pruning deletes the live bytes (`KeyInvariants.NewVersionKeepsInvIff`,
  `Counterexamples.RefusedVersionBreaksInv`).
- A new version, uploaded or saved, is stored over every version of its file whose key its number and name spell
  (`KeyInvariants.NewVersionKeepsKeysDistinctIff`, `KeyInvariants.WopiSaveKeepsKeysDistinctIff`,
  `KeyCounterexamples.ThirdVersionOverwritesFirst`, `KeyCounterexamples.FourthVersionOverwritesSecond`,
  `KeyCounterexamples.SaveAfterRenameOverwritesFirst`). Without renames only the first version can be hit, and never by
  a save (`FirstNames.OnlyFirstIsHit`, `FirstNames.SavesNeverOverwrite`).
- `patch_file` moves bytes before it checks the folder (`Relocation.RefusedPatchKeepsBytesIff`,
  `Counterexamples.RefusedPatchLosesBytes`) and keeps the encrypted flag (`Relocation.RelocationReadsBackIff`,
  `Counterexamples.RenameAfterSwitchGarbles`).
- It can move a file onto the key of one of its own stored versions, and onto no other
  (`Relocation.RelocationKeepsKeysDistinctIff`, `Relocation.OnlyOwnVersionIsHit`,
  `KeyCounterexamples.RenameOverwritesFirst`, `KeyCounterexamples.RenameBackOverwritesSecond`).
- It does not check a folder that stays the same when the system changes (`Relocation.PatchKeepsFolderInSystemIff`,
  `Counterexamples.MoveLeavesFolderBehind`).
- A WOPI save keeps the encrypted flag as well, and labels the archived version with the new body's size and etag
  (`ReadBack.WopiSaveReadsBackIff`, `ReadBack.WopiSaveLabelsArchivedIff`, `Counterexamples.SaveAfterSwitchGarbles`).
- Restores and moves are not checked against caps, and new versions are checked for the uploader, not the creator
  (`QuotaRuns.RestoreKeepsCapsIff`, `QuotaRuns.PatchKeepsCapsIff`, `QuotaRuns.NewVersionKeepsCapsIff`,
  `Counterexamples.RestoreOverrunsCap`, `Counterexamples.MoveOverrunsCap`,
  `Counterexamples.OthersVersionOverrunsCap`).
- A pass longer than `delete_after_days` can purge a file that was restored and trashed again since its snapshot
  (`RotationRace.RetrashedFilePurgedIff`, `Counterexamples.RestoredFileIsPurged`).
- `put` fsyncs the parent directory but not the directories above it, so the first object in a new bucket may be
  lost with its directory after `put` returned (`FsDisk.FinishedPutSurvivesIff`,
  `Counterexamples.FirstPutCanVanish`).
- If the temp blob of a completed upload cannot be removed, an empty PATCH inserts a second row
  (`Tus.LeftoverBlobFinalisesAgainIff`, `Counterexamples.LeftoverBlobMakesSecondFile`).
- A finalised resumable upload does not fall back on the user's default org, as a one-shot upload does
  (`Tus.OneShotIsPersistUploadIff`, `Counterexamples.SessionIgnoresDefaultOrg`).
- The limits "10 per rolling minute" and "60 per rolling minute" are fixed windows: 18 and 119 are the tight
  bounds for a sliding minute (`LoginThrottle.AtMost18FailuresPerMinute`, `LoginThrottle.EighteenFailuresHappen`,
  `UploadThrottle.AtMost119UploadsPerMinute`, `UploadThrottle.UploadsCanReach119`).
- Deciding a workflow step again can leave the state behind the roll-up (`Workflow.DecisionKeepsRollUpIff`,
  `Counterexamples.TakenBackRejectionSticks`).
- The standard's 409 for a wrong TUS offset is a 400 here, as in the code.

## Model

| member | source | states |
|---|---|---|
| `ObjectKeys.SanitizeIsSafe` | backend/src/handlers.rs:454-485 | every sanitised name has 1 to 200 characters, no slash, backslash, quote or control character, no leading dot and no doubled underscore |
| `ObjectKeys.SafeIffFixed` | backend/src/handlers.rs:454-485 | a name is left alone if and only if it is safe; so sanitising is idempotent and its image is exactly the safe names |
| `ObjectKeys.ReplaceBad` | backend/src/handlers.rs:455-468 | the replacing loop computes the replacement function on every input, the leading-dot state included |
| `ObjectKeys.CollapseRuns` | backend/src/handlers.rs:470-480 | the collapsing loop computes the collapsing function on every input |
| `ObjectKeys.SanitizeFilename` | backend/src/handlers.rs:454-485 | the two loops, the trim and the default together give the sanitised, safe name |
| `ObjectKeys.DecodeKeyOf` | backend/src/handlers.rs:709 | bucket, file id and tail are recovered from any generated key, also when the bucket contains separators |
| `ObjectKeys.VersionKeysDistinct` | backend/src/handlers.rs:1232 | version keys are injective in bucket, file, version number and sanitised name |
| `ObjectKeys.VersionLikeExact` | backend/src/handlers.rs:709 | a first-version key equals some version key of its file if and only if its sanitised name spells `v<number>-<safe name>` |
| `Decimal.DecInjective` | backend/src/handlers.rs:1232 | printed version numbers are injective |
| `FirstNames.KeyTellsVersion` | backend/src/handlers.rs:702-737 | a generated key determines its file, and its version unless one of two versions compared is a first one |
| `KeyInvariants.InsertFileStep` | backend/src/handlers.rs:697-737 | an upload, accepted, refused or failing on a foreign key, keeps the key invariant and every byte that a row names |
| `KeyInvariants.UploadVersionStep` | backend/src/handlers.rs:1219-1254 | a new version that is neither refused for quota nor given a key that a row names keeps the key invariant and every byte that a row names |
| `KeyInvariants.WopiSaveStep` | backend/src/wopi.rs:263-289 | a WOPI save that is not given a key that a row names, whatever its outcome, keeps the key invariant and every byte that a row names |
| `KeyInvariants.EvictAllStep` | backend/src/rotation.rs:225-233 | evicting any versions of a file removes no byte that a remaining row names, whichever removals fail |
| `KeyInvariants.HardDeleteStep` | backend/src/rotation.rs:250-295 | hard deletion removes no byte that a remaining row names |
| `KeyInvariants.PatchStep` | backend/src/handlers.rs:1275-1384 | a rename or move that is not refused after its copy and whose target key no row names keeps the key invariant and every byte but those of the object it moves |
| `KeyInvariants.StepIsGood` | backend/src/handlers.rs:961-1029 | every event that is not refused after its side effects and writes under no key that a row names keeps the invariant, the key and raw bytes of every surviving row but a moved one, and never brings a version back |
| `KeyInvariants.RunIsGood` | backend/src/rotation.rs:211-295 | the same over whole runs of uploads, finalisations, new versions, WOPI saves, renames, moves, trash, restore, prune, archive and both hard deletes |
| `KeyInvariants.EveryRowOwnsItsObject` | backend/src/rotation.rs:211-295 | after any such run from an empty server all keys of files and file_versions rows are pairwise distinct and each names a stored object |
| `KeyInvariants.NewVersionKeepsInvIff` | backend/src/handlers.rs:1219-1237 | `upload_version` keeps the invariant if and only if it stops before its quota check, or passes it and no row names the new key; stopped by the check it leaves a history row naming the live key, and pruning to one version then deletes the live bytes |
| `KeyInvariants.NewVersionKeepsKeysDistinctIff` | backend/src/handlers.rs:1229-1254 | a successful new version keeps keys pairwise distinct if and only if no row names its key, on every state with distinct keys, renamed files included |
| `KeyInvariants.WopiSaveKeepsKeysDistinctIff` | backend/src/wopi.rs:263-289 | the same for a successful WOPI save |
| `KeyInvariants.PromotionKeepsDistinctIff` | backend/src/handlers.rs:1229-1254 | otherwise every row that names the key now names the new object, and its bytes are the new ones |
| `KeyInvariants.OnlyOwnKeyIsHit` | backend/src/handlers.rs:1229-1311 | a row that names a key generated for a file is a row of that file, also after renames and moves |
| `FirstNames.OnlyFirstIsHit` | backend/src/handlers.rs:1229-1239 | in every run without renames a new version's key is named by some row if and only if the first version is stored and its sanitised name is `v<number>-` and the new one's |
| `FirstNames.SavesNeverOverwrite` | backend/src/wopi.rs:263-289 | in every run without renames no row names the key that a WOPI save gets |
| `FirstNames.PlainRunIsAdmissible` | backend/src/handlers.rs:1229-1239 | a run without renames whose new versions are not refused for quota and not named like the first version's key satisfies what the run theorems ask, whatever its saves do |
| `Rows.UploadByColumns` | backend/src/handlers.rs:667-737 | an upload is accepted if and only if form or defaults give name, body and a known system, the quotas have room, and org, folder and user exist; the row has exactly the name, size, etag, system, org, folder, creator, time and key asked for, and no other row changes |
| `Rows.InsertedFile` | backend/src/tus.rs:263-303 | the same for a finalisation, which has no defaults |
| `Rows.NewVersionByColumns` | backend/src/handlers.rs:1187-1254 | when a new version is accepted, what its row and the archived row say, and that no other column or row changes |
| `Rows.SaveByColumns` | backend/src/wopi.rs:224-289 | the same for a WOPI save |
| `Rows.PatchByColumns` | backend/src/handlers.rs:1275-1384 | an accepted patch changes exactly the columns it names, and the bucket and key that follow from them |
| `Rows.PatchAcceptedIff` | backend/src/handlers.rs:1275-1384 | a patch is accepted if and only if the file is live, a system it names exists, the bytes to copy can be read, a changed folder is a live folder of the new system, and the row's references exist |
| `Rows.TrashByColumns` | backend/src/handlers.rs:983-1019 | trashing stamps the row, again when it was trashed before, restoring clears it, archiving leaves a trashed row alone, and nothing else changes |
| `Rows.HardDeleteByColumns` | backend/src/handlers.rs:972-981 | a hard delete removes the file, its whole history and exactly the objects they named, those whose removal fails excepted |
| `Rows.PruneByColumns` | backend/src/rotation.rs:211-233 | pruning removes exactly the versions with `keep - 1` or more newer ones |
| `Rows.PrunedObjects` | backend/src/rotation.rs:225-233 | and exactly the objects that those named, those whose removal fails excepted |
| `Rows.FileOrigin` | backend/src/handlers.rs:667-737 | in every run each file's creator and creation time are those of the request that uploaded it, and so are name, system, org and folder until the file is patched |
| `ReadBack.EveryVersionReadsBack` | backend/src/handlers.rs:702-737 | over every admissible run under one key setting, renames and moves included, each stored version, current or old, reads back as exactly the body it was created with, and the size, etag and flag of each `files` row describe its body |
| `ReadBack.DownloadIsNewestBody` | backend/src/handlers.rs:1238-1254 | a download returns the newest body of the file, whose size and etag are in the row |
| `ReadBack.WopiSaveReadsBackIff` | backend/src/wopi.rs:263-289 | a saved body reads back if and only if the row's flag, which the save keeps, matches the key setting |
| `ReadBack.StepReadsBack` | backend/src/wopi.rs:263-289 | every event adds exactly the version it reports, or none, and disturbs no version's contents; a rename or move copies them unchanged |
| `ReadBack.WrittenOnce` | backend/src/handlers.rs:1229-1254 | no event writes a version number of a file a second time, also after the version or the file is gone |
| `History.NewestOfIsTop` | backend/src/rotation.rs:214-223 | the kept versions are the min(n, count) highest ones |
| `History.NewestByCount` | backend/src/rotation.rs:214-223 | a version is kept if and only if fewer than n are newer |
| `History.PruneKeepsNewest` | backend/src/rotation.rs:211-233 | pruning with keep n > 0 leaves exactly the min(n - 1, count) highest stored versions and touches no other row |
| `History.ContiguousBlock` | backend/src/rotation.rs:211-233 | contiguity means: the stored versions are exactly the numbers from version - count to version - 1 |
| `History.StepContiguous` | backend/src/handlers.rs:1219-1254 | every event but a new version refused for quota keeps each file's history a contiguous block below its current version |
| `History.RunKeepsHistoryContiguous` | backend/src/wopi.rs:263-287 | after any run without such refusals every file's history is a contiguous block ending at version - 1, or empty |
| `Lifecycle.Descending` | backend/src/rotation.rs:214-221 | the ordered version list is a strictly descending enumeration of the set |
| `Quota.UsageWithout` | backend/src/handlers.rs:581-583 | usage is a sum: it does not depend on the order in which rows are added |
| `Quota.UsageUpdate` | backend/src/handlers.rs:581-583 | replacing one row changes the usage of each scope by the difference of the two weights |
| `Quota.EnforceAgreesWithReport` | backend/src/handlers.rs:1869-1909 | an upload is accepted if and only if every scope of the caller's quota report with a positive limit has room for it |
| `Quota.EnforceByColumns` | backend/src/handlers.rs:567-638 | the check accepts if and only if the workspace cap and the quota columns of the system, the org and the user, each where positive, leave room beside the sum of the live rows of that system, org or user |
| `Quota.ReportByColumns` | backend/src/handlers.rs:1869-1909 | each line of a report shows the quota in its table and that sum |
| `Quota.AcceptedRowKeepsCaps` | backend/src/handlers.rs:567-638 | a row that passed the check keeps every capped workspace, system, org and user scope, and so every quota of the tables, above the sum of its live rows |
| `QuotaRuns.StepKeepsCapsIff` | backend/src/handlers.rs:567-638 | an event keeps all caps if and only if what the code does not check fits all the same: a restore, a move, a new version of someone else's file |
| `QuotaRuns.RunKeepsCaps` | backend/src/handlers.rs:567-638 | over whole serial runs in which every such step fits, finalisations and moves included, no positive quota of `systems`, `orgs`, `users` or the workspace is overrun by the live rows |
| `QuotaRuns.RestoreKeepsCapsIff` | backend/src/handlers.rs:1006-1019 | a restore, which is not checked, keeps the caps if and only if the check would have accepted the file |
| `QuotaRuns.NewVersionKeepsCapsIff` | backend/src/handlers.rs:1234-1237 | an accepted new version keeps the caps if and only if the check covered the creator or the creator has room for the difference |
| `QuotaRuns.PatchKeepsCapsIff` | backend/src/handlers.rs:1275-1384 | a change of system or org, which is not checked, keeps the caps if and only if every scope that the file enters has room for it |
| `FileServer.FileServer.SumLive` | backend/src/handlers.rs:581-583 | the row loop computes the usage of a scope |
| `FileServer.FileServer.EnforceQuota` | backend/src/handlers.rs:567-638 | the four checks in order compute the specified verdict |
| `FileServer.FileServer.InsertFile` | backend/src/handlers.rs:697-737 | quota, object, row: the new state and answer on every path, the failing insert included |
| `FileServer.FileServer.PersistUpload` | backend/src/handlers.rs:667-737 | the same behind the defaults remembered for the user |
| `FileServer.FileServer.UploadVersion` | backend/src/handlers.rs:1179-1254 | the whole new state and answer on every path, the history row before the quota check included |
| `FileServer.FileServer.WopiPutFile` | backend/src/wopi.rs:224-289 | the whole new state and answer on every path |
| `FileServer.FileServer.PatchFile` | backend/src/handlers.rs:1275-1384 | the whole new state and answer on every path of a rename or move, bytes before the folder check |
| `FileServer.FileServer.TrashFile` | backend/src/handlers.rs:983-985 | trashing stamps the row and changes nothing else |
| `FileServer.FileServer.RestoreFile` | backend/src/handlers.rs:1006-1019 | restoring clears the trash time and changes nothing else |
| `FileServer.FileServer.HardDelete` | backend/src/handlers.rs:972-981 | rows first, then a best-effort removal of each key |
| `FileServer.FileServer.HardDeleteFile` | backend/src/rotation.rs:250-295 | the recheck in the transaction, the cascade and the removals after the commit |
| `FileServer.FileServer.PruneVersions` | backend/src/rotation.rs:211-233 | the eviction loop computes the pruned state and counts the rows |
| `Storage.ReadBackIffFlagMatches` | backend/src/storage.rs:75-121 | bytes written under a key setting read back as themselves if and only if the row's flag matches the setting |
| `Storage.StoredForm` | backend/src/storage.rs:75-96 | with a key the stored bytes are the nonce and the sealed body, 28 bytes longer; without one they are the body |
| `Storage.ObservablyPlaintext` | backend/src/storage.rs:75-125 | under one key setting no sequence of put, get and delete distinguishes the encrypting wrapper from a plaintext map with an etag of the plaintext |
| `Storage.Storage.Put` | backend/src/storage.rs:75-96 | the framed bytes, 12-byte nonce first, go to the backend; the etag is the MD5 of the plaintext |
| `Storage.Storage.Get` | backend/src/storage.rs:98-121 | every error path of a read: no key configured, blob too short, failed authentication |
| `Relocation.RelocationReadsBackIff` | backend/src/handlers.rs:1299-1320 | a successful rename or move reads back the same bytes if and only if the row's encrypted flag matches the key setting |
| `Relocation.RefusedPatchKeepsBytesIff` | backend/src/handlers.rs:1303-1362 | on the rows that runs reach, a refused patch changes no row, and loses the file's bytes if and only if it had moved them and the old object was removed |
| `Relocation.RunKeepsRooted` | backend/src/handlers.rs:1275-1384 | after every run each file's bucket is its system's, and its key is below that bucket and carries its id |
| `Relocation.MovesChangeTheKey` | backend/src/handlers.rs:1303-1310 | buckets being unique, a change of system always changes the key of such a row, so no file is copied onto itself and then removed |
| `Relocation.PatchKeepsFolderInSystemIff` | backend/src/handlers.rs:1351-1362 | a successful patch leaves the file in a folder of its own system if and only if it does not change the system under a kept folder |
| `Relocation.OthersKeepBytesIff` | backend/src/handlers.rs:1303-1320 | another row's stored object keeps its bytes, unless the file moved onto its key: then it holds the moved ones |
| `Relocation.OnlyOwnVersionIsHit` | backend/src/handlers.rs:1311-1320 | the only keys a file can move onto are those of its own stored versions |
| `Relocation.RelocationKeepsKeysDistinctIff` | backend/src/handlers.rs:1364-1384 | after a successful relocation keys are pairwise distinct if and only if no row named the target key, on every state with distinct keys |
| `Relocation.PatchKeepsInvIff` | backend/src/handlers.rs:1275-1384 | a patch keeps the invariant if and only if it copies no bytes, or is accepted and no row names the target key, or is refused and the old object's removal fails |
| `Policies.AxisIsMostSpecificPositive` | backend/src/rotation.rs:185-209 | each axis independently takes the positive value of the most specific policy that has one, in the order user, org, system, workspace, else 0 |
| `Policies.ResolvedIsInForce` | backend/src/rotation.rs:185-209 | by the columns of `rotation_policies`: each number is that of the user's policy if positive, else the org's, else the system's, else the workspace's, else 0 |
| `Policies.NonPositivePolicyIsInert` | backend/src/rotation.rs:201-207 | a policy whose value on an axis is not positive never affects that axis |
| `Policies.IndexBy` | backend/src/rotation.rs:89-94 | the hash index holds exactly the policies of its scope type |
| `Policies.MergeChain` | backend/src/rotation.rs:202-207 | the mutating merge loop takes the first positive value per axis |
| `Policies.Resolve` | backend/src/rotation.rs:185-209 | indexes and merge loop together equal a direct scan of the policy list |
| `Rotation.RotateFileIsItsEffects` | backend/src/rotation.rs:100-134 | rotating one file is exactly its list of single effects, in the source's order |
| `Rotation.PassIsItsEffects` | backend/src/rotation.rs:100-134 | a pass is exactly its list of single effects |
| `RotationRecovery.LegitKeepsSettled` | backend/src/rotation.rs:211-295 | no single effect of a pass changes the rows that the pass will end with |
| `RotationRecovery.PrefixKeepsSettled` | backend/src/rotation.rs:211-295 | nor does any prefix of a pass, and every object named by those rows stays as it was |
| `RotationPass.PassSettles` | backend/src/rotation.rs:84-142 | a whole pass ends in exactly the settled rows, from any state with the same policies |
| `RotationPass.PassDecidesFiles` | backend/src/rotation.rs:109-133 | a pass stamps a live file if and only if it was created more than its archive days ago, removes a trashed one if and only if it was trashed more than its delete days ago, and leaves every other row as it is |
| `RotationPass.PassDecidesVersions` | backend/src/rotation.rs:104-107 | of the history of a file that stays it keeps exactly the versions with fewer than `keep - 1` newer ones |
| `RotationPass.StoppedPassRecovers` | backend/src/rotation.rs:236-249 | stop a pass between any two effects and run a full pass in any order: the rows are those of one uninterrupted pass and every object they name is intact |
| `RotationPass.SecondPassIsIdle` | backend/src/rotation.rs:84-142 | a further pass at the same clock has no effect at all |
| `RotationPass.NeverArchivedAndPurged` | backend/src/rotation.rs:109-133 | no file is both archived and purged in one pass |
| `RotationPass.CountersAreRowDifferences` | backend/src/rotation.rs:106-132 | without interference the three counters are the differences in row counts |
| `RotationPass.RunsAreSound` | backend/src/rotation.rs:84-142 | the states that admissible runs reach are the ones the pass theorems ask for |
| `RotationPass.RotateOne` | backend/src/rotation.rs:100-134 | the loop body computes the rotated state and its counts |
| `RotationPass.RotateFiles` | backend/src/rotation.rs:84-134 | indexes, snapshot and loop are the specified pass with the specified counters |
| `Worker.RunInner` | backend/src/rotation.rs:84-142 | a whole tick: the rotation pass, then exactly the expired sessions reaped, with all four counters |
| `Worker.TickDoesBoth` | backend/src/rotation.rs:84-166 | a tick rotates the files and takes exactly the open sessions that have expired, with every blob whose removal succeeds |
| `RotationRace.TrashOrigin` | backend/src/handlers.rs:983-985 | a file's trash time is the time of a state since which it has been in the trash without a break |
| `RotationRace.PurgedOnlyAfterFullWindow` | backend/src/rotation.rs:255-270 | however the stale worker interleaves with requests, it removes only files that have been in the trash without a break for longer than their `delete_after_days` |
| `RotationRace.FileOutOfTrashSurvives` | backend/src/rotation.rs:255-270 | a file out of the trash when the worker reaches it is never removed, whatever the snapshot said |
| `RotationRace.RestoredFileSurvives` | backend/src/rotation.rs:120-134 | a file out of the trash at any moment since the snapshot, also if trashed again, survives every pass no longer than its `delete_after_days` |
| `RotationRace.RetrashedFilePurgedIff` | backend/src/rotation.rs:120-134 | that bound is exact: restored and trashed again, a due file is purged by the same pass if and only if more than `delete_after_days` go by |
| `RotationRace.WorkerKeepsTrashTimes` | backend/src/rotation.rs:111-119 | archiving never overwrites an existing trash time |
| `RotationRace.CreationOrigin` | backend/src/handlers.rs:736 | in every run a file's creation time is the time of the step that uploaded or finalised it |
| `RotationRace.ArchivedOnlyWhenOld` | backend/src/rotation.rs:109-119 | in every run the worker archives only live files whose upload lies more than their `archive_after_days` before, and stamps them with the time |
| `RotationRace.UndisturbedIsPass` | backend/src/rotation.rs:84-134 | without interference the worker's steps, one file after another, are exactly the pass that the recovery theorems are about |
| `RotationRace.RaceKeepsKeyInvariant` | backend/src/rotation.rs:84-142 | the key invariant holds in every state of every interleaving, finalisations, renames and moves included |
| `Tus.RejectedPatchChangesNothing` | backend/src/tus.rs:191-223 | a PATCH that fails any check changes nothing at all |
| `Tus.StepKeepsInv` | backend/src/tus.rs:82-350 | an open session's blob is as long as its offset, at most the announced length; a completed one has inserted exactly one row |
| `Tus.BlobIsAcceptedChunks` | backend/src/tus.rs:191-250 | in every run the blob of an open session is the concatenation of the chunks accepted for it |
| `Tus.CompletedSessionIsOneShotUpload` | backend/src/tus.rs:251-329 | a completed session announced exactly the bytes received, inserted one row, and changed the file server as one upload of those bytes would |
| `Tus.OneShotIsPersistUploadIff` | backend/src/handlers.rs:667-737 | an accepted finalisation is `persist_upload_for` itself if and only if the org is given or the owner has no default org |
| `Tus.FailedFinaliseKeepsBytes` | backend/src/tus.rs:279-318 | a finalisation refused for quota or failing otherwise loses no byte and leaves the session open at its full offset |
| `Tus.EmptyPatchRetriesFinalise` | backend/src/tus.rs:234-241 | an empty PATCH at the full offset finalises the bytes already there, and succeeds if and only if they fit the quotas and the foreign keys hold |
| `Tus.LeftoverBlobFinalisesAgainIff` | backend/src/tus.rs:327 | an empty PATCH on a completed session inserts a second row if and only if its temp blob was left behind, the bytes fit the quotas and the foreign keys hold |
| `Tus.TusServer.CreateSession` | backend/src/tus.rs:82-141 | the whole new state and answer on every path |
| `Tus.TusServer.AppendChunk` | backend/src/tus.rs:191-246 | checks in order, append, offset, finalisation: the whole new state and answer |
| `Tus.TusServer.FinaliseSession` | backend/src/tus.rs:251-329 | the whole new state and answer, the best-effort blob removal included |
| `Tus.TusServer.TerminateSession` | backend/src/tus.rs:334-350 | the whole new state and answer |
| `Tus.TusServer.ReapSessions` | backend/src/rotation.rs:147-166 | exactly the expired, uncompleted sessions go, with every blob whose removal succeeds, and the count is theirs |
| `TusOrigins.SessionOrigin` | backend/src/tus.rs:82-141 | in every run a session has the owner, length, file name, system, org, folder and expiry of the request that created it, empty metadata counting as none |
| `TusOrigins.OpenedIff` | backend/src/tus.rs:82-141 | a session is opened if and only if length, system and user are there and org and folder, if given, exist |
| `TusOrigins.HeadAnswers` | backend/src/tus.rs:166-182 | in every run HEAD tells the owner the number of bytes received and the announced length, and refuses everyone else |
| `TusOrigins.ChunkTakenIff` | backend/src/tus.rs:191-223 | an open session takes a chunk if and only if it is its owner's, at the current offset, of the right type and within the announced length |
| `TusOrigins.FinishedFileIsAsAnnounced` | backend/src/tus.rs:251-303 | a completed session inserted a row with the announced name, system, org, folder, size and user, created at that step, with the etag of the bytes received |
| `TusOrigins.TerminatedIff` | backend/src/tus.rs:334-350 | a session is taken back if and only if it is open and the request is its owner's |
| `TusOrigins.ReapedAfterADay` | backend/src/rotation.rs:147-166 | reaping takes a session if and only if it is open and was created more than a day before |
| `TusRuns.StoreFollowsLifecycle` | backend/src/tus.rs:191-329 | seen from the file server, every run of sessions and other operations is a lifecycle run in which a finalisation is one event |
| `TusRuns.RunIsGood` | backend/src/tus.rs:251-329 | over runs in which resumable uploads take part: the key invariant, the bytes of every surviving row but moved ones, no version brought back |
| `TusRuns.RunKeepsHistoryContiguous` | backend/src/tus.rs:251-329 | over such runs: contiguous histories |
| `TusRuns.RunKeepsCaps` | backend/src/tus.rs:274-279 | over such runs no quota of the tables is overrun, finalisations being checked |
| `TusRuns.EveryVersionReadsBack` | backend/src/tus.rs:251-329 | over such runs: every stored version reads back as the body it was created with |
| `TusRuns.FinishedUploadReadsBack` | backend/src/tus.rs:191-329 | as long as the first version of a completed session's file is stored, it reads back as the concatenation of all chunks the session received |
| `TusMetadata.HeaderIsReadBack` | backend/src/tus.rs:52-66 | parsing undoes printing for every list of metadata items, empty values and repeated keys included |
| `TusMetadata.ParseUploadMetadata` | backend/src/tus.rs:52-66 | the inserting loop computes the specified map |
| `FsPaths.AllowedKeysStayBelowRoot` | backend/src/store/fs.rs:27-34 | a key without a `..` segment never leads outside the storage root |
| `FsPaths.PlainKeysAreDistinctFiles` | backend/src/store/fs.rs:27-34 | plain keys lead to the same file if and only if they are equal |
| `FsPaths.PathFor` | backend/src/store/fs.rs:27-34 | the segment loop refuses exactly the keys with a `..` segment |
| `FsStore.CrashPicks` | backend/src/store/fs.rs:44-73 | a crash leaves a key with one of its possible contents, and afterwards no other is possible |
| `FsStore.MayIsExact` | backend/src/store/fs.rs:44-73 | a content is possible after a crash if and only if some crash leaves it |
| `FsStore.RenameStep` | backend/src/store/fs.rs:63-64 | the rename makes the whole body the key's content and adds nothing else that may survive |
| `FsStore.SyncDirStep` | backend/src/store/fs.rs:68-72 | a directory fsync changes no content and settles every key of that directory |
| `FsStore.SettledSurvivesIff` | backend/src/store/fs.rs:65-72 | a settled key survives every crash if and only if the directories above it are on disk |
| `FsRuns.ActionRefinesRegister` | backend/src/store/fs.rs:39-93 | every system call of any number of concurrent puts, gets and deletes, and every crash, acts on each key as on an atomic register |
| `FsRuns.StepKeepsInv` | backend/src/store/fs.rs:39-93 | unfinished files stay private to their writer and hold a prefix of its body; opened files are complete |
| `FsRuns.OnlyWholeBodies` | backend/src/store/fs.rs:44-64 | whatever a key holds, now or after any crashes, is one whole body put there earlier in the run |
| `FsRuns.ViewsAreWholeBodies` | backend/src/store/fs.rs:77-84 | so a reader never finds a mix or a prefix |
| `FsRuns.ReadsAreAtomic` | backend/src/store/fs.rs:77-84 | a read that runs to its end returns exactly what the key held when the read opened it |
| `FsRuns.FinishedPutIsDurable` | backend/src/store/fs.rs:63-74 | once a put returned with its directory fsync done, in a directory that is on disk, its bytes survive any crashes until a later put or delete of the key |
| `FsDisk.FinishedPutSurvivesIff` | backend/src/store/fs.rs:41-72 | a finished put survives every crash if and only if the key's directory was on disk before: only the parent directory is fsynced |
| `FsDisk.Disk.WriteTmp` | backend/src/store/fs.rs:49-62 | a failure before the rename changes no key, now or after a crash |
| `FsDisk.Disk.Put` | backend/src/store/fs.rs:39-75 | success puts exactly this key; every failure leaves every key as it was, even across a crash |
| `FsDisk.Disk.Get` | backend/src/store/fs.rs:77-84 | a read returns the key's content, or nothing |
| `FsDisk.Disk.Delete` | backend/src/store/fs.rs:86-93 | a deletion removes exactly this key; a missing file is no error |
| `Windows.SpanBound` | backend/src/auth.rs:822-831 | any log in fixed windows of at most n entries has at most 2n - 1 entries in a half-open minute, and 2n - 2 with a cooldown after full windows |
| `LoginThrottle.CollectionIsUnobservable` | backend/src/auth.rs:804-820 | every `check` answers as a private counter per email without collection would |
| `LoginThrottle.LogIsWindowed` | backend/src/auth.rs:822-831 | the failures recorded for an email fall into windows of at most ten with a cooldown |
| `LoginThrottle.AtMost18FailuresPerMinute` | backend/src/auth.rs:790-831 | serial attempts without success record at most 18 failures in any half-open minute |
| `LoginThrottle.EighteenFailuresHappen` | backend/src/auth.rs:822-831 | the bound is tight: a run that reaches it |
| `LoginThrottle.Throttle.CheckEmail` | backend/src/auth.rs:804-820 | the verdict and the collected map |
| `LoginThrottle.Throttle.RecordFailure` | backend/src/auth.rs:822-831 | the in-place updates of the entry compute the specified map |
| `LoginThrottle.Throttle.RecordSuccess` | backend/src/auth.rs:833-836 | a success forgets exactly this email |
| `LoginThrottle.Throttle.Login` | backend/src/auth.rs:226-255 | check, verify, record: a refused attempt records nothing, a failed one exactly one failure |
| `UploadThrottle.SharedMapIsPrivateCounters` | backend/src/auth.rs:879-894 | every call is answered as the user's private counter would answer it, whatever other users do |
| `UploadThrottle.LogIsWindowed` | backend/src/auth.rs:879-894 | the uploads accepted for a user fall into windows of at most sixty |
| `UploadThrottle.AtMost119UploadsPerMinute` | backend/src/auth.rs:866-894 | a user has at most 119 accepted uploads in any half-open minute |
| `UploadThrottle.UploadsCanReach119` | backend/src/auth.rs:879-894 | the bound is tight: a run that reaches it |
| `UploadThrottle.Throttle.CheckAndRecord` | backend/src/auth.rs:879-894 | the verdict and the new map |
| `Sql.ParseAllOf` | backend/src/handlers.rs:359-386 | reading assembled clauses gives back exactly them, with their placeholder numbers, and what follows |
| `Sql.ReadBack` | backend/src/handlers.rs:359-409 | reading an assembled statement from its WHERE on gives back its clauses, its order, and the placeholder numbers of limit and offset |
| `Sql.ReadOrderOf` | backend/src/handlers.rs:407 | reading an ORDER BY text gives back its columns and directions |
| `ListQuery.MeaningIsAsked` | backend/src/handlers.rs:388-415 | a statement whose placeholders match its binds asks for exactly the rows that meet its conditions, in the order and within the limits asked for |
| `ListQuery.AddEquals` | backend/src/handlers.rs:365-369 | an optional equality filter appends one conjunct, one placeholder and one string bind |
| `ListQuery.AddFolder` | backend/src/handlers.rs:372-380 | a folder filter of `null` or empty asks for the root and binds nothing |
| `ListQuery.AddScope` | backend/src/handlers.rs:382-386 | the caller's scope appends one vector, bound after every string |
| `ListQuery.ListFiles` | backend/src/handlers.rs:343-424 | count and page, bound, select exactly the live rows that pass every filter and the scope; the page is sorted, limited and offset as requested |
| `ListQuery.FilesByColumns` | backend/src/handlers.rs:359-386 | by columns: undeleted, equal to every filter given, in the root when the folder is `null` or empty, and in a system of the scope |
| `ListQuery.OrderIsPagings` | backend/src/handlers.rs:395-407 | the order that the assembled text asks for is, column by column, the strict total order from which pages are cut |
| `ListQuery.OrderByParameters` | backend/src/handlers.rs:395-405 | the `sort` and `dir` parameters choose column and direction as listed, the newest modification first by default |
| `ListQuery.SearchFiles` | backend/src/handlers.rs:1103-1155 | the same for search, whose first two placeholders belong to the text match and whose last one is the limit; an empty term is refused |
| `ListQuery.SearchByColumns` | backend/src/handlers.rs:1108-1143 | the same for search: the text match is asked for the term and for the term between percent signs |
| `ListQuery.ListFolders` | backend/src/handlers.rs:1404-1441 | the same for folders, all of them by name |
| `ListQuery.FoldersByColumns` | backend/src/handlers.rs:1415-1436 | the same for folders |
| `ListQuery.AddPaging` | backend/src/handlers.rs:408-414 | the limit and offset placeholders bind the limit and the offset |
| `Access.ScopeIsAccess` | backend/src/auth.rs:675-713 | for existing systems the listing scope is exactly what the access check allows |
| `Access.ForbiddenIff` | backend/src/auth.rs:675-695 | access is refused if and only if the system exists, is personal and belongs to somebody else, and the caller is no administrator |
| `Access.ListedRowsAreReadable` | backend/src/auth.rs:697-713 | no file listing, search or folder list shows a non-administrator a row of a system that the caller may not read, or a trashed row |
| `Paging.EverySortIsStrictTotal` | backend/src/handlers.rs:395-407 | every sort column and direction is a strict total order on rows, whatever ties the collation has |
| `Paging.ListingIsUnique` | backend/src/handlers.rs:407 | filter, column and direction determine the listing |
| `Paging.DescendingIsReversed` | backend/src/handlers.rs:405-407 | keys ascend in the ascending listing, and the descending one is its reverse, ties included |
| `Paging.ListingIsSorted` | backend/src/handlers.rs:395-407 | the ascending listing is sorted by the column that its sort names |
| `Paging.PagesJoinToTheListing` | backend/src/handlers.rs:388-424 | pages fetched by separate queries join to the whole listing with no gap or repeat, as many rows as `x-total-count` |
| `Paging.PageSize` | backend/src/handlers.rs:408-409 | every page but the last is full |
| `Paging.Limit` | backend/src/handlers.rs:348 | the limit is the standard one if none is requested, else the requested one cut to between 1 and the maximum |
| `Paging.Offset` | backend/src/handlers.rs:349 | the offset is the requested one, or 0 if none or a negative one is requested |
| `Folders.StepKeepsForest` | backend/src/handlers.rs:1443-1498 | creating and deleting a folder keep the folder graph a forest |
| `Folders.RunKeepsForest` | backend/src/handlers.rs:1443-1498 | the same over whole runs |
| `Folders.CreatedIff` | backend/src/handlers.rs:1443-1476 | a folder is created if and only if its system and parent exist and its id is new; it has that system and parent and nothing else changes |
| `Folders.FolderOrigin` | backend/src/handlers.rs:1443-1498 | in every run a folder has the system and parent of the request that created it and is deleted if and only if a later request deleted it |
| `Folders.FolderTrail` | frontend/app/files/page.tsx:75-82 | on any folder list, a cyclic one included, the walk ends with a duplicate-free parent chain that ends at the open folder and cannot be extended |
| `Folders.TrailReachesTheTop` | frontend/app/files/page.tsx:75-82 | on a forest a chain that cannot be extended starts at a root or below a parent that is not in the list |
| `Folders.FullChainIsUnique` | frontend/app/files/page.tsx:75-82 | on a forest there is one such chain, so the trail is the full ancestor chain present in the list |
| `Folders.FolderServer.NewFolder` | backend/src/handlers.rs:1443-1476 | the whole new table and answer: unknown system, unknown parent, success |
| `Folders.FolderServer.RemoveFolder` | backend/src/handlers.rs:1478-1498 | the whole new table and answer |
| `Ranges.ParsedRangeInBounds` | backend/src/handlers.rs:934-952 | every range returned satisfies start <= end < total |
| `Ranges.IntRangesFollowStandard` | backend/src/handlers.rs:934-952 | for printed `a-b` and `a-` headers the result is the range of RFC 9110 section 14.1.2, clamped |
| `Ranges.SuffixRangesFollowStandardIff` | backend/src/handlers.rs:938-949 | a suffix range is the standard's if and only if it is empty or reaches back to the first or second byte |
| `Ranges.SuffixRangeOutcome` | backend/src/handlers.rs:938-949 | what every other suffix range gets instead |
| `Ranges.PartitionReassembles` | backend/src/handlers.rs:907-920 | the 206 slices of any consecutive partition join to the body |
| `FileView.GroupRows` | frontend/app/files/page.tsx:143-151 | the grouping loop makes one group per value in order of first appearance, each with its rows in order |
| `FileView.GroupsPartitionRows` | frontend/app/files/page.tsx:143-151 | grouping loses and repeats nothing |
| `FileView.EveryRowHasOnePage` | frontend/app/files/page.tsx:122-130 | the page shown exists and is not empty unless there is nothing to show, and every row is on a page |
| `Tokens.ConstantTimeEq` | backend/src/wopi.rs:114-119 | the accumulating loop answers true if and only if the two texts are equal |
| `Workflow.DecidedOnceIsRollUp` | backend/src/p1.rs:398-416 | while each step is decided at most once, state and file status are the roll-up of the decisions |
| `Workflow.StateIsTheDecisions` | backend/src/p1.rs:398-416 | while each step is decided at most once, the workflow is rejected if and only if some reviewer rejected, and approved if and only if there are reviewers and all approved |
| `Workflow.DecisionKeepsRollUpIff` | backend/src/p1.rs:398-416 | a decision leaves the state equal to the roll-up if and only if it takes back no final outcome |
| `Workflow.FinalDecisionsShow` | backend/src/p1.rs:398-416 | whatever is decided again, a standing rejection shows as rejected and full approval as approved |
| `Workflow.Review.StartWorkflow` | backend/src/p1.rs:294-340 | one pending step per reviewer, in order; no reviewer is an error |
| `Workflow.Review.DecideStep` | backend/src/p1.rs:375-416 | the whole new state and answer, other reviewers refused |
| `Counterexamples.RefusedVersionBreaksInv` | backend/src/handlers.rs:1219-1237 | one byte in a system with a quota of one, then a version of two bytes refused: two rows name one object, and pruning deletes it |
| `KeyCounterexamples.ThirdVersionOverwritesFirst` | backend/src/handlers.rs:1229-1239 | a first version called `v3-c`, then versions `x` and `c`: the third is stored over the first |
| `KeyCounterexamples.SaveAfterRenameOverwritesFirst` | backend/src/wopi.rs:263-289 | a first version called `v3-c`, a second one, a rename to `c`, a save: the third is stored over the first |
| `KeyCounterexamples.FourthVersionOverwritesSecond` | backend/src/handlers.rs:1229-1239 | a second version renamed to `v4-y`, a third one, then a version `y`: the fourth is stored over the second |
| `KeyCounterexamples.RenameOverwritesFirst` | backend/src/handlers.rs:1311-1320 | after a second version, a rename from `a_` to `a/` stores it over the first |
| `KeyCounterexamples.RenameBackOverwritesSecond` | backend/src/handlers.rs:1311-1320 | a second version renamed to `b`, a third one renamed to `c` and back to `b`: it is stored over the second |
| `Counterexamples.RefusedPatchLosesBytes` | backend/src/handlers.rs:1311-1362 | a rename into an unknown folder answers 400 and the file no longer reads back |
| `Counterexamples.RenameAfterSwitchGarbles` | backend/src/handlers.rs:1311-1320 | a plaintext file renamed after encryption was switched on no longer reads back |
| `Counterexamples.SaveAfterSwitchGarbles` | backend/src/wopi.rs:263-289 | a plaintext file saved after encryption was switched on no longer reads back, and its archived version has the new size |
| `Counterexamples.MoveLeavesFolderBehind` | backend/src/handlers.rs:1351-1362 | a file in a folder moved to another system stays in the folder of the first |
| `Counterexamples.RestoreOverrunsCap` | backend/src/handlers.rs:1006-1019 | upload, trash, upload and restore of one byte each under a quota of one |
| `Counterexamples.OthersVersionOverrunsCap` | backend/src/handlers.rs:1234-1237 | a version by another user overruns the creator's quota |
| `Counterexamples.MoveOverrunsCap` | backend/src/handlers.rs:1275-1384 | a move overruns the quota of a full system |
| `Counterexamples.RestoredFileIsPurged` | backend/src/rotation.rs:120-134 | a whole interleaving in which a file restored during a pass is purged by it |
| `Counterexamples.LeftoverBlobMakesSecondFile` | backend/src/tus.rs:327 | one session makes two files rows |
| `Counterexamples.SessionIgnoresDefaultOrg` | backend/src/tus.rs:251-329 | a user's default org is given to a one-shot upload and not to a resumable one of the same bytes |
| `Counterexamples.FirstPutCanVanish` | backend/src/store/fs.rs:41-72 | after a first put into a new bucket some crash loses the object |
| `Counterexamples.TakenBackRejectionSticks` | backend/src/p1.rs:398-416 | a rejection taken back leaves the workflow rejected with no step rejected |
| `Counterexamples.DocumentedSuffixIsRefused` | backend/src/handlers.rs:934-952 | `bytes=-1024` on 10000 bytes is refused |

## Left out

- KeyInvariants.RunIsGood: the steps that are refused after their side effects or write under a key that a row names are excluded, because the invariant fails there; the `Iff` lemmas named above say exactly when.
- KeyInvariants.WopiSaveStep: speaks of keys and raw bytes only; what a save makes of the flag and the archived version's labels is in `ReadBack.WopiSaveReadsBackIff` and `ReadBack.WopiSaveLabelsArchivedIff`.
- ReadBack.EveryVersionReadsBack: the runs are those of KeyInvariants.RunIsGood, under one key setting; switching encryption on or off between runs is covered by `Storage.ReadBackIffFlagMatches` alone.
- QuotaRuns.RunKeepsCaps: the steps that do not fit are excluded, because the caps fail there (`QuotaRuns.StepKeepsCapsIff`); the import of legacy files is not part of these runs.
- RotationPass.StoppedPassRecovers: objects whose removal was lost with the stopped pass stay behind, named by no row; the program never removes them.
- RotationRace.PurgedOnlyAfterFullWindow: pruning a file is one step here and so is purging it with its unlinks, and the two clock readings of one archive decision are one.
- FsRuns.FinishedPutIsDurable: asks that the key's directory is on disk, because the code does not see to it; `FsDisk.FinishedPutSurvivesIff` is the exact condition.
- FsPaths.PlainKeysAreDistinctFiles: keys with empty or `.` segments alias other keys on a file system; the crash model is about plain relative keys, which all generated keys are when the bucket is plain.
- LoginThrottle.AtMost18FailuresPerMinute: attempts for one email that overlap in time can all pass the check before any failure is recorded, so the bound is for serial attempts.
- Access.ListedRowsAreReadable: administrators are not scoped and see every system.
- Workflow.Review.DecideStep: one workflow; the file's status is shared with other workflows of the same file, which are not modelled.
- Storage errors of a `put` or `get` other than the modelled ones abort a request halfway in the code; only failing removals, and the failing system calls of the file-system `put`, are modelled.
- Session, role and access checks around the handlers, rate limiting of uploads inside them, activity, notification and preview rows, tags, file types, status, owner and project fields.
- The 64-bit width of sizes, offsets and counters; only the parsing of range bounds has it.
- Whitespace trimming of a search term (a parameter) and full-text matching (the text match is a clause whose verdict on a row is a parameter). The queries are modelled from their WHERE on, without the column list.
- Unicode whitespace in metadata headers; header values are ASCII.
- Concurrent PATCH requests on one TUS session, a crash between its append and its offset update, and two requests racing between a quota check and its insert: the code does not serialise these.
- The S3 object store, the legacy import, share links, permissions, members, API keys, WOPI tokens beyond their comparison, office conversion, thumbnails, and the rest of the user interface.
- `slugify_bucket` and `detect_file_type`.

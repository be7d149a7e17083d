/**
 Renaming and moving a file (`patch_file`): the bytes are copied to a key generated for the new name and
 system before the folder is checked and the row updated. When the file keeps its bytes, and whom it disturbs.
 */
module Relocation {
  import opened Common
  import opened ObjectKeys
  import opened Storage
  import opened Schema
  import opened Lifecycle
  import opened KeyInvariants
  import History

  // ---------------------------------------------------------------------------
  // Keys live in the bucket of their file's system
  // ---------------------------------------------------------------------------

  /** The row's bucket is its system's, and its key is below that bucket and carries the file's id. */
  predicate RootedRow(c: Config, id: Uuid, row: FileRow) {
    && row.systemId in c.systems && row.bucket == c.systems[row.systemId].bucket
    && match DecodeKey(row.objectKey)
       case None => false
       case Some(parts) => parts.bucket == row.bucket && parts.id == id
  }

  ghost predicate Rooted(c: Config, s: Store) { forall id | id in s.files :: RootedRow(c, id, s.files[id]) }

  /** Replacing or adding one row. */
  lemma RowRooted(c: Config, s: Store, s': Store, id: Uuid)
    requires Rooted(c, s) && (s'.files == s.files || (id in s'.files && s'.files == s.files[id := s'.files[id]]))
    requires s'.files != s.files ==> RootedRow(c, id, s'.files[id])
    ensures Rooted(c, s')
  {
    forall x | x in s'.files
      ensures RootedRow(c, x, s'.files[x])
    {
      if x in s.files { assert RootedRow(c, x, s.files[x]); }
    }
  }

  /** What the writing operations do to the `files` table. */
  lemma InsertedFiles(c: Config, s: Store, actor: string, f: UploadFields, id: Uuid, now: int, nonce: Nonce)
    ensures var (s', r) := InsertFile(c, s, actor, f, id, now, nonce);
            if r.Ok? then
              && id in s'.files && s'.files == s.files[id := s'.files[id]]
              && s'.files[id].systemId in c.systems && f.name.Some?
              && s'.files[id].bucket == c.systems[s'.files[id].systemId].bucket
              && s'.files[id].objectKey == FirstKey(s'.files[id].bucket, id, f.name.value)
            else s'.files == s.files
  {
  }

  /** The file's row is superseded by one under a version key in the same bucket. */
  predicate Renewed(s: Store, s': Store, id: Uuid, name: string) {
    && id in s.files && id in s'.files && s'.files == s.files[id := s'.files[id]]
    && s'.files[id].systemId == s.files[id].systemId && s'.files[id].bucket == s.files[id].bucket
    && s'.files[id].objectKey == VersionKey(s.files[id].bucket, id, s.files[id].version + 1, name)
  }

  lemma VersionedFiles(
    c: Config, s: Store, user: string, id: Uuid, filename: Option<string>, body: Option<Bytes>, nonce: Nonce)
    ensures var (s', r) := UploadVersion(c, s, user, id, filename, body, nonce);
            if r.Ok? then id in s.files && Renewed(s, s', id, DisplayName(s.files[id], filename))
            else s'.files == s.files
  {
  }

  lemma SavedFiles(c: Config, s: Store, id: Uuid, body: Bytes, nonce: Nonce)
    ensures var (s', r) := WopiPutFile(c, s, id, body, nonce);
            if r.Ok? then id in s.files && Renewed(s, s', id, s.files[id].name) else s'.files == s.files
  {
  }

  lemma RenewedRooted(c: Config, s: Store, s': Store, id: Uuid, name: string)
    requires Rooted(c, s) && Renewed(s, s', id, name)
    ensures Rooted(c, s')
  {
    assert RootedRow(c, id, s.files[id]);
    DecodeVersionKey(s.files[id].bucket, id, s.files[id].version + 1, name);
    RowRooted(c, s, s', id);
  }

  lemma InsertedRooted(c: Config, s: Store, s': Store, id: Uuid, name: string)
    requires Rooted(c, s) && id in s'.files && s'.files == s.files[id := s'.files[id]]
    requires s'.files[id].systemId in c.systems && s'.files[id].bucket == c.systems[s'.files[id].systemId].bucket
    requires s'.files[id].objectKey == FirstKey(s'.files[id].bucket, id, name)
    ensures Rooted(c, s')
  {
    DecodeFirstKey(s'.files[id].bucket, id, name);
    RowRooted(c, s, s', id);
  }

  lemma InsertFileRooted(c: Config, s: Store, actor: string, f: UploadFields, id: Uuid, now: int, nonce: Nonce)
    requires Rooted(c, s)
    ensures Rooted(c, InsertFile(c, s, actor, f, id, now, nonce).0)
  {
    var (s', r) := InsertFile(c, s, actor, f, id, now, nonce);
    InsertedFiles(c, s, actor, f, id, now, nonce);
    if r.Ok? { InsertedRooted(c, s, s', id, f.name.value); }
  }

  lemma UploadVersionRooted(
    c: Config, s: Store, user: string, id: Uuid, filename: Option<string>, body: Option<Bytes>, nonce: Nonce)
    requires Rooted(c, s)
    ensures Rooted(c, UploadVersion(c, s, user, id, filename, body, nonce).0)
  {
    var (s', r) := UploadVersion(c, s, user, id, filename, body, nonce);
    VersionedFiles(c, s, user, id, filename, body, nonce);
    if r.Ok? { RenewedRooted(c, s, s', id, DisplayName(s.files[id], filename)); }
  }

  lemma WopiSaveRooted(c: Config, s: Store, id: Uuid, body: Bytes, nonce: Nonce)
    requires Rooted(c, s)
    ensures Rooted(c, WopiPutFile(c, s, id, body, nonce).0)
  {
    var (s', r) := WopiPutFile(c, s, id, body, nonce);
    SavedFiles(c, s, id, body, nonce);
    if r.Ok? { RenewedRooted(c, s, s', id, s.files[id].name); }
  }

  /** Rows that stay keep their place. */
  lemma KeptRooted(c: Config, s: Store, s': Store)
    requires Rooted(c, s)
    requires forall id | id in s'.files :: id in s.files && SamePlace(s.files[id], s'.files[id])
    ensures Rooted(c, s')
  {
    forall id | id in s'.files
      ensures RootedRow(c, id, s'.files[id])
    {
      assert RootedRow(c, id, s.files[id]);
    }
  }

  predicate SamePlace(a: FileRow, b: FileRow) {
    a.systemId == b.systemId && a.bucket == b.bucket && a.objectKey == b.objectKey
  }

  lemma TrashRooted(c: Config, s: Store, id: Uuid, deletedAt: Option<int>)
    requires Rooted(c, s) && id in s.files
    ensures Rooted(c, s.(files := s.files[id := s.files[id].(deletedAt := deletedAt)]))
  {
    KeptRooted(c, s, s.(files := s.files[id := s.files[id].(deletedAt := deletedAt)]));
  }

  lemma HardDeleteRooted(c: Config, s: Store, id: Uuid, stuck: set<string>)
    requires Rooted(c, s)
    ensures Rooted(c, HardDelete(s, id, stuck))
  {
    KeptRooted(c, s, HardDelete(s, id, stuck));
  }

  lemma RemovalRooted(c: Config, s: Store, e: Event)
    requires Rooted(c, s) && History.OnlyRemoves(e)
    ensures Rooted(c, Step(c, s, e))
  {
    match e {
      case PruneVersions(id, keep, stuck) => History.PruneKeepsFiles(s, id, keep, stuck);
      case TrashFile(id, now) => if id in s.files { TrashRooted(c, s, id, Some(now)); }
      case RestoreFile(id) => if id in s.files { TrashRooted(c, s, id, None); }
      case ArchiveFile(id, now) => if Live(s, id) { TrashRooted(c, s, id, Some(now)); }
      case HardDeleteFile(id, stuck) => HardDeleteRooted(c, s, id, stuck);
      case PurgeFile(id, cutoff, stuck) => HardDeleteRooted(c, s, id, stuck);
    }
  }

  lemma EventRooted(c: Config, s: Store, e: Event)
    requires Rooted(c, s)
    ensures Rooted(c, Step(c, s, e))
  {
    match e {
      case Upload(actor, fields, id, now, nonce) =>
        InsertFileRooted(c, s, actor, WithDefaults(c, actor, fields), id, now, nonce);
      case FinishUpload(actor, fields, id, now, nonce) => InsertFileRooted(c, s, actor, fields, id, now, nonce);
      case NewVersion(user, id, filename, body, nonce) =>
        UploadVersionRooted(c, s, user, id, filename, body, nonce);
      case WopiSave(id, body, nonce) => WopiSaveRooted(c, s, id, body, nonce);
      case PatchFile(id, q) => PatchRooted(c, s, id, q);
      case _ => RemovalRooted(c, s, e);
    }
  }

  lemma PatchedRowRooted(c: Config, id: Uuid, file: FileRow, p: PatchFields)
    requires RootedRow(c, id, file) && (ChangesSystem(file, p) ==> p.systemId.value in c.systems)
    ensures RootedRow(c, id, PatchedRow(c, id, file, p))
  {
    DecodeFirstKey(Target(c, id, file, p).0, id, NewName(file, p));
  }

  lemma PatchRooted(c: Config, s: Store, id: Uuid, q: Request)
    requires Rooted(c, s)
    ensures Rooted(c, ApplyPatch(c, s, id, q).0)
  {
    PatchOutcome(c, s, id, q);
    if ApplyPatch(c, s, id, q).1.Ok? {
      assert RootedRow(c, id, s.files[id]);
      PatchedRowRooted(c, id, s.files[id], q.fields);
    }
    RowRooted(c, s, ApplyPatch(c, s, id, q).0, id);
  }

  /** After every run each file's key is in its own system's bucket. */
  lemma {:induction false} RunKeepsRooted(c: Config, events: seq<Event>)
    ensures Rooted(c, Run(c, EMPTY, events))
  {
    if events != [] {
      var n := |events| - 1;
      RunKeepsRooted(c, events[..n]);
      EventRooted(c, Run(c, EMPTY, events[..n]), events[n]);
    }
  }

  /** Buckets are unique, so a change of system always changes the key: no file is copied onto itself and removed. */
  lemma MovesChangeTheKey(c: Config, s: Store, id: Uuid, p: PatchFields)
    requires Rooted(c, s) && Live(s, id) && ChangesSystem(s.files[id], p) && p.systemId.value in c.systems
    ensures Relocates(c, s, id, p)
  {
    assert RootedRow(c, id, s.files[id]);
    assert c.systems[p.systemId.value].bucket != s.files[id].bucket;
    DecodeFirstKey(c.systems[p.systemId.value].bucket, id, NewName(s.files[id], p));
  }

  // ---------------------------------------------------------------------------
  // The file itself
  // ---------------------------------------------------------------------------

  /** A successful rename or move reads back the same bytes exactly when the row's flag matches the key setting. */
  lemma RelocationReadsBackIff(c: Config, s: Store, id: Uuid, q: Request, body: Bytes)
    requires Lawful(c.cipher) && Relocates(c, s, id, q.fields) && ReadFile(c, s, id) == Ok(Some(body))
    requires ApplyPatch(c, s, id, q).1.Ok?
    ensures ReadFile(c, ApplyPatch(c, s, id, q).0, id) == Ok(Some(body)) <==> s.files[id].encrypted == c.cipher.Some?
  {
    ReadBackIffFlagMatches(c.cipher, q.nonce, body, s.files[id].encrypted);
  }

  /** What a refused patch has done to the objects. */
  lemma RefusedPatchObjects(c: Config, s: Store, id: Uuid, q: Request, body: Bytes)
    requires id in s.files && ReadFile(c, s, id) == Ok(Some(body)) && ApplyPatch(c, s, id, q).1.Err?
    requires Live(s, id) && ChangesSystem(s.files[id], q.fields) && q.fields.systemId.value in c.systems ==>
               Relocates(c, s, id, q.fields)
    ensures var s', key := ApplyPatch(c, s, id, q).0, s.files[id].objectKey;
            && s'.files == s.files
            && s'.objects == if Relocates(c, s, id, q.fields) then
                               Copied(c, s.objects, key, Target(c, id, s.files[id], q.fields).1, body, q.nonce, q.stuck)
                             else s.objects
  {
  }

  /** A refused patch loses the bytes exactly when it had already moved them and the old object was removed. */
  lemma RefusedPatchKeepsBytesIff(c: Config, s: Store, id: Uuid, q: Request, body: Bytes)
    requires Rooted(c, s) && id in s.files && ReadFile(c, s, id) == Ok(Some(body)) && ApplyPatch(c, s, id, q).1.Err?
    ensures var s' := ApplyPatch(c, s, id, q).0;
            && s'.files == s.files
            && (ReadFile(c, s', id) == Ok(Some(body))
                <==> !Relocates(c, s, id, q.fields) || s.files[id].objectKey in q.stuck)
  {
    var p := q.fields;
    if Live(s, id) && ChangesSystem(s.files[id], p) && p.systemId.value in c.systems { MovesChangeTheKey(c, s, id, p); }
    RefusedPatchObjects(c, s, id, q, body);
  }

  /** The file's folder, if any, is a folder of the file's system. */
  predicate FolderInSystem(c: Config, row: FileRow) {
    row.folderId.Some? ==> row.folderId.value in c.folders && c.folders[row.folderId.value] == row.systemId
  }

  /** A folder that is kept is not checked: it ends up in a foreign system exactly when the system changes under it. */
  lemma PatchKeepsFolderInSystemIff(c: Config, s: Store, id: Uuid, q: Request)
    requires ApplyPatch(c, s, id, q).1.Ok? && FolderInSystem(c, s.files[id])
    ensures var s', file := ApplyPatch(c, s, id, q).0, s.files[id];
            && id in s'.files
            && (FolderInSystem(c, s'.files[id]) <==>
                  !(ChangesSystem(file, q.fields) && file.folderId.Some? && NewFolder(file, q.fields) == file.folderId))
  {
  }

  // ---------------------------------------------------------------------------
  // Everyone else
  // ---------------------------------------------------------------------------

  lemma PatchMoves(c: Config, s: Store, id: Uuid, q: Request)
    requires Relocates(c, s, id, q.fields)
    ensures var (s', r) := ApplyPatch(c, s, id, q); var key := TargetKey(c, s, id, q.fields);
            && (forall body | ReadFile(c, s, id) == Ok(Some(body)) ::
                  Moved(s, s', id, key, Framed(c.cipher, q.nonce, body), q.stuck))
            && (r.Ok? ==> s'.versions == s.versions && MovedRow(s, s', id, key))
  {
  }

  /** Another row's object keeps its bytes unless the file moves onto its key, and then it holds the moved bytes. */
  lemma OthersKeepBytesIff(c: Config, s: Store, id: Uuid, q: Request, body: Bytes, r: VersionId)
    requires KeysDistinct(s) && Relocates(c, s, id, q.fields) && ReadFile(c, s, id) == Ok(Some(body))
    requires IsRef(s, r) && r != (id, s.files[id].version) && RefKey(s, r) in s.objects
    ensures var s', key, target := ApplyPatch(c, s, id, q).0, RefKey(s, r), TargetKey(c, s, id, q.fields);
            && key in s'.objects
            && s'.objects[key] == if key == target then Framed(c.cipher, q.nonce, body) else s.objects[key]
  {
    PatchMoves(c, s, id, q);
    MovedSparesOthers(s, ApplyPatch(c, s, id, q).0, id, TargetKey(c, s, id, q.fields), Framed(c.cipher, q.nonce, body),
                      q.stuck, r);
  }

  /** The only keys that a file can move onto are those of its own stored versions. */
  lemma OnlyOwnVersionIsHit(c: Config, s: Store, id: Uuid, p: PatchFields, r: VersionId)
    requires WellFormed(s) && Relocates(c, s, id, p) && IsRef(s, r) && RefKey(s, r) == TargetKey(c, s, id, p)
    ensures r.0 == id && r in s.versions
  {
    OnlyOwnKeyIsHit(s, Target(c, id, s.files[id], p).0, id, 1, NewName(s.files[id], p), r);
  }

  /** After a successful relocation keys are still pairwise distinct exactly when nobody's key was the target. */
  lemma RelocationKeepsKeysDistinctIff(c: Config, s: Store, id: Uuid, q: Request)
    requires KeysDistinct(s) && Relocates(c, s, id, q.fields) && ApplyPatch(c, s, id, q).1.Ok?
    ensures KeysDistinct(ApplyPatch(c, s, id, q).0) <==> Unused(s, TargetKey(c, s, id, q.fields))
  {
    PatchMoves(c, s, id, q);
    MovedRowKeepsKeysDistinctIff(s, ApplyPatch(c, s, id, q).0, id, TargetKey(c, s, id, q.fields));
  }

  /** A copy is always to another key. */
  lemma CopiesChangeTheKey(c: Config, s: Store, id: Uuid, p: PatchFields)
    requires Rooted(c, s) && Copying(c, s, id, p)
    ensures Relocates(c, s, id, p)
  {
    if ChangesSystem(s.files[id], p) { MovesChangeTheKey(c, s, id, p); }
  }

  /**
   A patch breaks the invariant exactly when it copies the bytes and then either succeeds although some row names the
   new key, or is refused with the old object removed.
   */
  lemma PatchKeepsInvIff(c: Config, s: Store, id: Uuid, q: Request)
    requires Inv(s) && Rooted(c, s)
    ensures Inv(ApplyPatch(c, s, id, q).0) <==>
              (Copying(c, s, id, q.fields) ==>
                 if PatchFits(c, s, id, q) then Unused(s, TargetKey(c, s, id, q.fields))
                 else s.files[id].objectKey in q.stuck)
  {
    if !Copying(c, s, id, q.fields) {
      PatchStep(c, s, id, q);
    } else if PatchFits(c, s, id, q) {
      AcceptedPatchKeepsInvIff(c, s, id, q);
    } else {
      RefusedPatchKeepsInvIff(c, s, id, q);
    }
  }

  lemma AcceptedPatchKeepsInvIff(c: Config, s: Store, id: Uuid, q: Request)
    requires Inv(s) && Rooted(c, s) && Copying(c, s, id, q.fields) && PatchFits(c, s, id, q)
    ensures Inv(ApplyPatch(c, s, id, q).0) <==> Unused(s, TargetKey(c, s, id, q.fields))
  {
    PatchOutcome(c, s, id, q);
    CopiesChangeTheKey(c, s, id, q.fields);
    RelocationKeepsKeysDistinctIff(c, s, id, q);
    if Unused(s, TargetKey(c, s, id, q.fields)) { PatchStep(c, s, id, q); }
  }

  lemma RefusedPatchKeepsInvIff(c: Config, s: Store, id: Uuid, q: Request)
    requires Inv(s) && Rooted(c, s) && Copying(c, s, id, q.fields) && !PatchFits(c, s, id, q)
    ensures Inv(ApplyPatch(c, s, id, q).0) <==> s.files[id].objectKey in q.stuck
  {
    var own: VersionId := (id, s.files[id].version);
    assert IsRef(s, own) && RefKey(s, own) == s.files[id].objectKey;
    PatchOutcome(c, s, id, q);
    CopiesChangeTheKey(c, s, id, q.fields);
    RefusedKeepsInvIff(s, ApplyPatch(c, s, id, q).0, id, q.stuck);
  }

  /** Rows as they were, and at most one object fewer: the file's own, unless it is stuck. */
  lemma RefusedKeepsInvIff(s: Store, s': Store, id: Uuid, stuck: set<string>)
    requires Inv(s) && id in s.files && s'.files == s.files && s'.versions == s.versions && s'.issued == s.issued
    requires s.files[id].objectKey in s'.objects <==> s.files[id].objectKey in stuck
    requires forall k | k in s.objects && k != s.files[id].objectKey :: k in s'.objects
    ensures Inv(s') <==> s.files[id].objectKey in stuck
  {
    var own: VersionId := (id, s.files[id].version);
    assert IsRef(s', own) && RefKey(s', own) == s.files[id].objectKey;
    assert forall r: VersionId :: (IsRef(s', r) <==> IsRef(s, r)) && (IsRef(s, r) ==> RefKey(s', r) == RefKey(s, r));
    forall r: VersionId ensures Owned(s', r) { assert Owned(s, r); }
    forall q: VersionId, r: VersionId ensures Apart(s', q, r) { assert Apart(s, q, r); }
  }
}

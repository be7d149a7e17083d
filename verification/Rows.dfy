/**
 What each operation leaves in the tables, column by column, when it is accepted, and what every file's row owes to the
 request that uploaded it.
 */
module Rows {
  import opened Common
  import opened Decimal
  import opened ObjectKeys
  import opened Storage
  import opened Schema
  import opened Quota
  import opened Lifecycle
  import opened KeyInvariants
  import opened History

  // ---------------------------------------------------------------------------
  // Uploads
  // ---------------------------------------------------------------------------

  /** The system and the org that an upload goes to: those of the form, else the user's defaults, else none. */
  predicate GoesTo(c: Config, actor: string, f: UploadFields, system: Option<string>, org: Option<string>) {
    && system == (if f.systemId.Some? then f.systemId
                  else if actor in c.userDefaults then c.userDefaults[actor].systemId else None)
    && org == (if f.orgId.Some? then f.orgId
               else if actor in c.userDefaults then c.userDefaults[actor].orgId else None)
  }

  /** The row of a new file. */
  predicate IsNewRow(
    c: Config, row: FileRow, name: string, body: Bytes, system: string, org: Option<string>, folder: Option<string>,
    actor: string, id: Uuid, now: int)
  {
    && system in c.systems && row.systemId == system && row.bucket == c.systems[system].bucket
    && row.name == name && row.objectKey == row.bucket + "/" + id + "-" + Sanitize(name)
    && row.size == |body| && row.etag == c.md5(body) && row.version == 1 && row.encrypted == c.cipher.Some?
    && row.orgId == org && row.folderId == folder && row.createdBy == Some(actor)
    && row.createdAt == now && row.deletedAt == None
  }

  /** No row but the file's own changes. */
  ghost predicate OnlyFileChanges(s: Store, s': Store, id: Uuid) {
    && (forall x | x != id :: x in s'.files <==> x in s.files)
    && (forall x | x != id && x in s.files :: s'.files[x] == s.files[x])
    && (forall r | r in s.versions && r.0 != id :: r in s'.versions && s'.versions[r] == s.versions[r])
    && (forall r | r in s'.versions && r.0 != id :: r in s.versions)
  }

  lemma InsertedFile(c: Config, s: Store, actor: string, f: UploadFields, id: Uuid, now: int, nonce: Nonce)
    ensures var (s', r) := InsertFile(c, s, actor, f, id, now, nonce);
            && (r.Ok? <==>
                  && f.name.Some? && f.body.Some? && f.systemId.Some? && f.systemId.value in c.systems
                  && Enforce(c, s.files, |f.body.value|, f.systemId, f.orgId, Some(actor)).Ok?
                  && (f.orgId.Some? ==> f.orgId.value in c.orgQuota)
                  && (f.folderId.Some? ==> f.folderId.value in c.folders) && actor in c.userQuota)
            && (r.Ok? ==>
                  && r.value == id && id in s'.files && s'.versions == s.versions && OnlyFileChanges(s, s', id)
                  && IsNewRow(c, s'.files[id], f.name.value, f.body.value, f.systemId.value, f.orgId, f.folderId, actor,
                              id, now))
            && (r.Err? ==> s'.files == s.files && s'.versions == s.versions)
  {
    if f.name.Some? && f.systemId.Some? && f.systemId.value in c.systems {
      var bucket := c.systems[f.systemId.value].bucket;
      assert FirstKey(bucket, id, f.name.value) == bucket + "/" + id + "-" + Sanitize(f.name.value);
    }
  }

  /** An upload is accepted exactly when form or defaults give what it needs, it fits and its references exist. */
  lemma UploadByColumns(
    c: Config, s: Store, actor: string, f: UploadFields, id: Uuid, now: int, nonce: Nonce, system: Option<string>,
    org: Option<string>)
    requires GoesTo(c, actor, f, system, org)
    ensures var (s', r) := PersistUpload(c, s, actor, f, id, now, nonce);
            && (r.Ok? <==>
                  && f.name.Some? && f.body.Some? && system.Some? && system.value in c.systems
                  && Enforce(c, s.files, |f.body.value|, system, org, Some(actor)).Ok?
                  && (org.Some? ==> org.value in c.orgQuota)
                  && (f.folderId.Some? ==> f.folderId.value in c.folders) && actor in c.userQuota)
            && (r.Ok? ==>
                  && r.value == id && id in s'.files && s'.versions == s.versions && OnlyFileChanges(s, s', id)
                  && IsNewRow(c, s'.files[id], f.name.value, f.body.value, system.value, org, f.folderId, actor, id,
                              now))
            && (r.Err? ==> s'.files == s.files && s'.versions == s.versions)
  {
    InsertedFile(c, s, actor, WithDefaults(c, actor, f), id, now, nonce);
  }

  // ---------------------------------------------------------------------------
  // New versions and saves
  // ---------------------------------------------------------------------------

  /** The row of the next version: what concerns the body is new, the rest stays. */
  predicate IsNextRow(c: Config, before: FileRow, row: FileRow, id: Uuid, name: string, body: Bytes, encrypted: bool) {
    && row.version == before.version + 1 && row.size == |body| && row.etag == c.md5(body)
    && row.objectKey == before.bucket + "/" + id + "-v" + Dec(before.version + 1) + "-" + Sanitize(name)
    && row.encrypted == encrypted
    && row.name == before.name && row.bucket == before.bucket && row.systemId == before.systemId
    && row.orgId == before.orgId && row.folderId == before.folderId && row.createdBy == before.createdBy
    && row.createdAt == before.createdAt && row.deletedAt == before.deletedAt
  }

  lemma NextKeyText(bucket: string, id: Uuid, n: nat, name: string)
    ensures VersionKey(bucket, id, n, name) == bucket + "/" + id + "-v" + Dec(n) + "-" + Sanitize(name)
  {
  }

  /** `upload_version` archives the row as it was and takes the rest from the upload. */
  lemma NewVersionByColumns(
    c: Config, s: Store, user: string, id: Uuid, filename: Option<string>, body: Option<Bytes>, nonce: Nonce)
    ensures var (s', r) := UploadVersion(c, s, user, id, filename, body, nonce);
            && (r.Ok? <==>
                  && id in s.files && s.files[id].deletedAt.None? && body.Some?
                  && (id, s.files[id].version) !in s.versions
                  && Enforce(c, s.files, |body.value|, Some(s.files[id].systemId), s.files[id].orgId, Some(user)).Ok?)
            && (r.Ok? ==>
                  var before := s.files[id];
                  && r.value == before.version + 1 && id in s'.files && OnlyFileChanges(s, s', id)
                  && IsNextRow(c, before, s'.files[id], id,
                               if filename.Some? then filename.value else before.name, body.value, c.cipher.Some?)
                  && s'.versions
                     == s.versions[(id, before.version) := VersionRow(before.objectKey, before.size, before.etag)])
            && (r.Err? ==> s'.files == s.files)
  {
    if id in s.files {
      var before := s.files[id];
      NextKeyText(before.bucket, id, before.version + 1, if filename.Some? then filename.value else before.name);
    }
  }

  /** A WOPI save is charged to the creator, keeps the flag and labels the archived row with the new body. */
  lemma SaveByColumns(c: Config, s: Store, id: Uuid, body: Bytes, nonce: Nonce)
    ensures var (s', r) := WopiPutFile(c, s, id, body, nonce);
            && (r.Ok? <==>
                  && id in s.files && s.files[id].deletedAt.None? && (id, s.files[id].version) !in s.versions
                  && Enforce(c, s.files, |body|, Some(s.files[id].systemId), s.files[id].orgId,
                             s.files[id].createdBy).Ok?)
            && (r.Ok? ==>
                  var before := s.files[id];
                  && r.value == before.version + 1 && id in s'.files && OnlyFileChanges(s, s', id)
                  && IsNextRow(c, before, s'.files[id], id, before.name, body, before.encrypted)
                  && s'.versions
                     == s.versions[(id, before.version) := VersionRow(before.objectKey, |body|, c.md5(body))])
            && (r.Err? ==> s'.files == s.files && s'.versions == s.versions)
  {
    if id in s.files { NextKeyText(s.files[id].bucket, id, s.files[id].version + 1, s.files[id].name); }
  }

  // ---------------------------------------------------------------------------
  // Renames and moves
  // ---------------------------------------------------------------------------

  /** The row after a patch: what the patch names is new, the rest stays. */
  predicate IsPatchedRow(c: Config, before: FileRow, row: FileRow, id: Uuid, p: PatchFields) {
    && row.name == (if p.name.Some? then p.name.value else before.name)
    && row.systemId == (if p.systemId.Some? then p.systemId.value else before.systemId)
    && row.orgId == (if p.orgId.Some? then p.orgId else before.orgId)
    && row.folderId == (if p.folder.Some? then p.folder.value else before.folderId)
    && row.version == before.version && row.size == before.size && row.etag == before.etag
    && row.encrypted == before.encrypted && row.createdBy == before.createdBy
    && row.createdAt == before.createdAt && row.deletedAt == before.deletedAt
    && (if row.systemId != before.systemId then
          row.systemId in c.systems && row.bucket == c.systems[row.systemId].bucket
        else row.bucket == before.bucket)
    && row.objectKey == (if row.systemId != before.systemId || row.name != before.name
                         then row.bucket + "/" + id + "-" + Sanitize(row.name) else before.objectKey)
  }

  lemma FirstKeyText(bucket: string, id: Uuid, name: string)
    ensures FirstKey(bucket, id, name) == bucket + "/" + id + "-" + Sanitize(name)
  {
  }

  /** An accepted patch changes this row only, and only the columns it names. */
  lemma PatchByColumns(c: Config, s: Store, id: Uuid, q: Request)
    requires ApplyPatch(c, s, id, q).1.Ok?
    ensures var s' := ApplyPatch(c, s, id, q).0;
            && id in s.files && id in s'.files && s'.versions == s.versions && OnlyFileChanges(s, s', id)
            && IsPatchedRow(c, s.files[id], s'.files[id], id, q.fields)
  {
    PatchOutcome(c, s, id, q);
    var row := PatchedRow(c, id, s.files[id], q.fields);
    FirstKeyText(row.bucket, id, row.name);
  }

  /**
   A patch is accepted exactly when the file is live, a system it names exists, the bytes it has to copy can be read, a
   folder that changes is a live folder of the new system, and the references of the new row exist.
   */
  lemma PatchAcceptedIff(c: Config, s: Store, id: Uuid, q: Request)
    ensures ApplyPatch(c, s, id, q).1.Ok? <==>
              && id in s.files && s.files[id].deletedAt.None?
              && var file, p := s.files[id], q.fields;
                 var system := if p.systemId.Some? then p.systemId.value else file.systemId;
                 var name := if p.name.Some? then p.name.value else file.name;
                 var org := if p.orgId.Some? then p.orgId else file.orgId;
                 var folder := if p.folder.Some? then p.folder.value else file.folderId;
                 && (system != file.systemId ==> system in c.systems)
                 && (system != file.systemId
                     || (name != file.name && file.bucket + "/" + id + "-" + Sanitize(name) != file.objectKey)
                     ==> Fetch(c.cipher, s.objects, file.objectKey, file.encrypted).Ok?)
                 && (folder.Some? && folder != file.folderId ==>
                       && folder.value in c.folders && c.folders[folder.value] == system
                       && folder.value !in q.trashed)
                 && (org.Some? ==> org.value in c.orgQuota)
                 && (folder.Some? ==> folder.value in c.folders)
                 && (file.createdBy.Some? ==> file.createdBy.value in c.userQuota)
  {
    PatchOutcome(c, s, id, q);
    if Patchable(c, s, id, q.fields) {
      CopiesByColumns(c, s, id, q.fields);
    }
  }

  lemma CopiesByColumns(c: Config, s: Store, id: Uuid, p: PatchFields)
    requires Patchable(c, s, id, p)
    ensures var file := s.files[id];
            var name := if p.name.Some? then p.name.value else file.name;
            Copies(c, id, file, p) <==>
              || (p.systemId.Some? && p.systemId.value != file.systemId)
              || (name != file.name && file.bucket + "/" + id + "-" + Sanitize(name) != file.objectKey)
  {
    FirstKeyText(s.files[id].bucket, id, if p.name.Some? then p.name.value else s.files[id].name);
  }

  // ---------------------------------------------------------------------------
  // Trash and removal
  // ---------------------------------------------------------------------------

  /** Rows and objects after a hard delete: the file is gone with its history, and so is every object they named. */
  lemma HardDeleteByColumns(s: Store, id: Uuid, stuck: set<string>)
    ensures var s' := HardDelete(s, id, stuck);
            && id !in s'.files && (id in s.files ==> forall r | r in s'.versions :: r.0 != id)
            && OnlyFileChanges(s, s', id)
            && forall k | k in s.objects ::
                 (k in s'.objects ==> s'.objects[k] == s.objects[k])
                 && (k !in s'.objects <==>
                       && id in s.files && k !in stuck
                       && (k == s.files[id].objectKey
                           || exists r :: r in s.versions && r.0 == id && s.versions[r].objectKey == k))
  {
  }

  /** Objects after a pruning: exactly those that the evicted rows named are gone. */
  lemma {:induction false} EvictedObjects(s: Store, id: Uuid, vs: seq<nat>, stuck: set<string>, k: string)
    requires forall i, j | 0 <= i < j < |vs| :: vs[i] != vs[j]
    requires k in s.objects
    ensures var s' := EvictAll(s, id, vs, stuck);
            && (k in s'.objects ==> s'.objects[k] == s.objects[k])
            && (k !in s'.objects <==>
                  k !in stuck && exists v :: v in vs && (id, v) in s.versions && s.versions[(id, v)].objectKey == k)
    decreases |vs|
  {
    if vs != [] {
      var t := EvictOne(s, id, vs[0], stuck);
      assert forall v | v in vs[1..] ::
               (id, v) in t.versions <==> (id, v) in s.versions;
      if k in t.objects {
        EvictedObjects(t, id, vs[1..], stuck, k);
      } else {
        EvictAllShrinks(t, id, vs[1..], stuck);
      }
    }
  }

  /** Pruning evicts the versions with `keep - 1` or more newer ones, row and object, and nothing else. */
  lemma PruneByColumns(s: Store, id: Uuid, keep: int, stuck: set<string>, v: nat)
    requires (id, v) in s.versions
    ensures var newer := set w | w in Stored(s, id) && w > v;
            (id, v) !in Prune(s, id, keep, stuck).versions <==> keep > 0 && |newer| >= keep - 1
    ensures Prune(s, id, keep, stuck).files == s.files && OnlyFileChanges(s, Prune(s, id, keep, stuck), id)
  {
    if keep > 0 {
      PruneKeepsNewest(s, id, keep, stuck);
      EvictedOrKept(s, id, keep);
      NewestByCount(Stored(s, id), keep - 1, v);
    }
  }

  lemma PrunedObjects(s: Store, id: Uuid, keep: int, stuck: set<string>, k: string)
    requires k in s.objects
    ensures var s' := Prune(s, id, keep, stuck);
            && (k in s'.objects ==> s'.objects[k] == s.objects[k])
            && (k !in s'.objects <==>
                  k !in stuck && exists v :: (id, v) in s.versions && (id, v) !in s'.versions
                                             && s.versions[(id, v)].objectKey == k)
  {
    if keep > 0 {
      var d := Descending(Stored(s, id));
      PruneKeepsNewest(s, id, keep, stuck);
      EvictedObjects(s, id, ToEvict(s, id, keep), stuck, k);
      forall v: nat
        ensures v in ToEvict(s, id, keep) && (id, v) in s.versions
                <==> (id, v) in s.versions && (id, v) !in Prune(s, id, keep, stuck).versions
      {
      }
    }
  }

  /** Trashing stamps the row, again if it was trashed before; restoring clears it; neither touches anything else. */
  lemma TrashByColumns(s: Store, id: Uuid, now: int)
    requires id in s.files
    ensures var row := s.files[id];
            && Trash(s, id, now) == s.(files := s.files[id := row.(deletedAt := Some(now))])
            && Restore(s, id) == s.(files := s.files[id := row.(deletedAt := None)])
            && Archive(s, id, now) == (if row.deletedAt.Some? then s else Trash(s, id, now))
            && Trash(Trash(s, id, now - 1), id, now) == Trash(s, id, now)
            && Restore(Trash(s, id, now), id) == Restore(s, id)
  {
  }

  // ---------------------------------------------------------------------------
  // Where a row comes from
  // ---------------------------------------------------------------------------

  /** The event is an upload of the file. */
  predicate Uploads(e: Event, id: Uuid) { (e.Upload? || e.FinishUpload?) && e.id == id }

  /** What a row still has of its upload: creator and time always, the rest while nobody patches the file. */
  predicate OwesTo(c: Config, row: FileRow, e: Event, patched: bool)
    requires e.Upload? || e.FinishUpload?
  {
    && row.createdBy == Some(e.actor) && row.createdAt == e.now
    && (!patched ==>
          && e.fields.name == Some(row.name) && row.folderId == e.fields.folderId
          && (e.FinishUpload? ==> e.fields.systemId == Some(row.systemId) && row.orgId == e.fields.orgId)
          && (e.Upload? ==> GoesTo(c, e.actor, e.fields, Some(row.systemId), row.orgId)))
  }

  /** The event patches the file. */
  predicate Patches(e: Event, id: Uuid) { e.PatchFile? && e.id == id }

  /** Columns that only an upload and a patch set. */
  predicate SamePlace(a: FileRow, b: FileRow) {
    a.name == b.name && a.systemId == b.systemId && a.orgId == b.orgId && a.folderId == b.folderId
    && a.createdBy == b.createdBy && a.createdAt == b.createdAt
  }

  lemma RemovalKeepsPlace(c: Config, s: Store, e: Event, id: Uuid)
    requires OnlyRemoves(e) && id in s.files && id in Step(c, s, e).files
    ensures SamePlace(s.files[id], Step(c, s, e).files[id])
  {
    if e.PruneVersions? { PruneKeepsFiles(s, e.id, e.keep, e.stuck); }
  }

  lemma InsertKeepsPlace(
    c: Config, s: Store, actor: string, f: UploadFields, x: Uuid, now: int, nonce: Nonce, id: Uuid)
    requires id in s.files && x != id
    ensures var s' := InsertFile(c, s, actor, f, x, now, nonce).0; id in s'.files && s'.files[id] == s.files[id]
  {
  }

  lemma VersionKeepsPlace(
    c: Config, s: Store, user: string, x: Uuid, filename: Option<string>, body: Option<Bytes>, nonce: Nonce, id: Uuid)
    requires id in s.files
    ensures var s' := UploadVersion(c, s, user, x, filename, body, nonce).0;
            id in s'.files && SamePlace(s.files[id], s'.files[id])
  {
  }

  lemma SaveKeepsPlace(c: Config, s: Store, x: Uuid, body: Bytes, nonce: Nonce, id: Uuid)
    requires id in s.files
    ensures var s' := WopiPutFile(c, s, x, body, nonce).0; id in s'.files && SamePlace(s.files[id], s'.files[id])
  {
  }

  lemma OtherStepsKeepPlace(c: Config, s: Store, e: Event, id: Uuid)
    requires Shaped(s) && Orderly(c, s, e) && !Patches(e, id) && id in s.files && id in Step(c, s, e).files
    ensures SamePlace(s.files[id], Step(c, s, e).files[id])
  {
    match e {
      case Upload(actor, fields, x, now, nonce) =>
        InsertKeepsPlace(c, s, actor, WithDefaults(c, actor, fields), x, now, nonce, id);
      case FinishUpload(actor, fields, x, now, nonce) =>
        InsertKeepsPlace(c, s, actor, fields, x, now, nonce, id);
      case NewVersion(user, x, filename, body, nonce) => VersionKeepsPlace(c, s, user, x, filename, body, nonce, id);
      case WopiSave(x, body, nonce) => SaveKeepsPlace(c, s, x, body, nonce, id);
      case PatchFile(x, q) => PatchOutcome(c, s, x, q);
      case _ => RemovalKeepsPlace(c, s, e, id);
    }
  }

  lemma PatchKeepsCreator(c: Config, s: Store, e: Event, id: Uuid)
    requires Patches(e, id) && id in s.files && id in Step(c, s, e).files
    ensures Step(c, s, e).files[id].createdBy == s.files[id].createdBy
    ensures Step(c, s, e).files[id].createdAt == s.files[id].createdAt
  {
    PatchOutcome(c, s, id, e.q);
    if ApplyPatch(c, s, id, e.q).1.Ok? { PatchByColumns(c, s, id, e.q); }
  }

  lemma NewRowOwes(c: Config, s: Store, e: Event, id: Uuid)
    requires Shaped(s) && Orderly(c, s, e) && id !in s.files && id in Step(c, s, e).files
    ensures Uploads(e, id) && OwesTo(c, Step(c, s, e).files[id], e, false)
  {
    match e {
      case Upload(actor, fields, x, now, nonce) =>
        InsertedFile(c, s, actor, WithDefaults(c, actor, fields), x, now, nonce);
      case FinishUpload(actor, fields, x, now, nonce) => InsertedFile(c, s, actor, fields, x, now, nonce);
      case NewVersion(user, x, filename, body, nonce) => NewVersionByColumns(c, s, user, x, filename, body, nonce);
      case WopiSave(x, body, nonce) => SaveByColumns(c, s, x, body, nonce);
      case PatchFile(x, q) => PatchOutcome(c, s, x, q);
      case PruneVersions(x, keep, stuck) => PruneKeepsFiles(s, x, keep, stuck);
      case _ =>
    }
  }

  /** Whether a file was patched after step `j`. */
  ghost predicate PatchedAfter(events: seq<Event>, j: nat, id: Uuid) {
    exists k :: j < k < |events| && Patches(events[k], id)
  }

  /**
   In every run each file was uploaded by one of its steps; its creator and creation time are that request's, and until
   the file is patched its name, system, org and folder are too.
   */
  lemma {:induction false} FileOrigin(c: Config, events: seq<Event>, id: Uuid) returns (j: nat)
    requires OrderlyRun(c, EMPTY, events) && id in Run(c, EMPTY, events).files
    ensures j < |events| && Uploads(events[j], id)
    ensures OwesTo(c, Run(c, EMPTY, events).files[id], events[j], PatchedAfter(events, j, id))
  {
    var n := |events| - 1;
    var s, e := Run(c, EMPTY, events[..n]), events[n];
    OrderlyPrefix(c, EMPTY, events);
    RunKeepsHistoryContiguous(c, events[..n]);
    if id !in s.files {
      NewRowOwes(c, s, e, id);
      j := n;
    } else {
      j := FileOrigin(c, events[..n], id);
      if Patches(e, id) {
        PatchKeepsCreator(c, s, e, id);
        assert j < n < |events| && Patches(events[n], id);
      } else {
        OtherStepsKeepPlace(c, s, e, id);
        SamePatches(events, j, id);
      }
    }
  }

  lemma SamePatches(events: seq<Event>, j: nat, id: Uuid)
    requires events != [] && !Patches(events[|events| - 1], id)
    ensures PatchedAfter(events, j, id) <==> PatchedAfter(events[..|events| - 1], j, id)
  {
    var prefix := events[..|events| - 1];
    if k :| j < k < |events| && Patches(events[k], id) { assert k < |prefix| && Patches(prefix[k], id); }
    if k :| j < k < |prefix| && Patches(prefix[k], id) { assert Patches(events[k], id); }
  }
}

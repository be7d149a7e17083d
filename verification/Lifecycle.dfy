/**
 The operations that change `files`, `file_versions` and the object store, as functions on those three
 tables. `FileServer` runs them statement by statement; the invariants are in `KeyInvariants`,
 `History` and `QuotaRuns`.
 */
module Lifecycle {
  import opened Common
  import opened ObjectKeys
  import opened Storage
  import opened Schema
  import opened Quota

  datatype UploadFields = UploadFields(
    name: Option<string>, body: Option<Bytes>, systemId: Option<string>, orgId: Option<string>,
    folderId: Option<string>)

  function Or<T>(a: Option<T>, b: Option<T>): Option<T> { if a.Some? then a else b }

  /** Missing system or org come from the defaults remembered for the user. */
  function WithDefaults(c: Config, actor: string, f: UploadFields): UploadFields {
    if actor in c.userDefaults then
      f.(systemId := Or(f.systemId, c.userDefaults[actor].systemId), orgId := Or(f.orgId, c.userDefaults[actor].orgId))
    else f
  }

  function NewRow(c: Config, actor: string, f: UploadFields, id: Uuid, now: int): FileRow
    requires f.name.Some? && f.body.Some? && f.systemId.Some? && f.systemId.value in c.systems
  {
    var bucket := c.systems[f.systemId.value].bucket;
    FileRow(f.name.value, bucket, FirstKey(bucket, id, f.name.value), |f.body.value|, 1, f.systemId.value,
            f.orgId, f.folderId, Some(actor), now, None, c.md5(f.body.value), c.cipher.Some?)
  }

  /** The part of `persist_upload_for` that `tus::finalise` repeats: quota, object, row. */
  ghost function InsertFile(c: Config, s: Store, actor: string, f: UploadFields, id: Uuid, now: int, nonce: Nonce)
    : (Store, Result<Uuid>)
  {
    if f.name.None? || f.body.None? || f.systemId.None? || f.systemId.value !in c.systems then (s, Err(BadRequest))
    else if Enforce(c, s.files, |f.body.value|, f.systemId, f.orgId, Some(actor)).Err? then (s, Err(PayloadTooLarge))
    else
      var row := NewRow(c, actor, f, id, now);
      var stored := s.(objects := s.objects[row.objectKey := Framed(c.cipher, nonce, f.body.value)],
                       issued := s.issued + {id});
      if !ForeignKeysHold(c, row) then (stored, Err(Other))
      else (stored.(files := s.files[id := row]), Ok(id))
  }

  ghost function PersistUpload(c: Config, s: Store, actor: string, f: UploadFields, id: Uuid, now: int, nonce: Nonce)
    : (Store, Result<Uuid>)
  {
    InsertFile(c, s, actor, WithDefaults(c, actor, f), id, now, nonce)
  }

  predicate Live(s: Store, id: Uuid) { id in s.files && s.files[id].deletedAt.None? }

  /** The new version's name: that of the uploaded part, else the file's. */
  function DisplayName(file: FileRow, filename: Option<string>): string {
    if filename.Some? then filename.value else file.name
  }

  /** The quota guard of `upload_version`, in the state before the call. */
  ghost predicate VersionFits(c: Config, s: Store, user: string, id: Uuid, body: Bytes)
    requires id in s.files
  {
    Enforce(c, s.files, |body|, Some(s.files[id].systemId), s.files[id].orgId, Some(user)).Ok?
  }

  /** `upload_version`: archives the current row before it asks for quota. */
  ghost function UploadVersion(
    c: Config, s: Store, user: string, id: Uuid, filename: Option<string>, body: Option<Bytes>, nonce: Nonce)
    : (Store, Result<nat>)
  {
    if !Live(s, id) then (s, Err(NotFound))
    else if body.None? then (s, Err(BadRequest))
    else
      var file := s.files[id];
      if (id, file.version) in s.versions then (s, Err(Other))
      else
        var row := VersionRow(file.objectKey, file.size, file.etag);
        var archived := s.(versions := s.versions[(id, file.version) := row]);
        if !VersionFits(c, s, user, id, body.value) then (archived, Err(PayloadTooLarge))
        else
          var key := VersionKey(file.bucket, id, file.version + 1, DisplayName(file, filename));
          (Promote(c, archived, id, key, body.value, nonce, c.cipher.Some?), Ok(file.version + 1))
  }

  /** Writes the new object and points the row at it. */
  function Promote(c: Config, s: Store, id: Uuid, key: string, body: Bytes, nonce: Nonce, encrypted: bool): Store
    requires id in s.files
  {
    var file := s.files[id];
    s.(objects := s.objects[key := Framed(c.cipher, nonce, body)],
       files := s.files[id := file.(version := file.version + 1, objectKey := key, size := |body|,
                                    etag := c.md5(body), encrypted := encrypted)])
  }

  /** The quota guard of a WOPI save; it charges the file's creator. */
  ghost predicate SaveFits(c: Config, s: Store, id: Uuid, body: Bytes)
    requires id in s.files
  {
    Enforce(c, s.files, |body|, Some(s.files[id].systemId), s.files[id].orgId, s.files[id].createdBy).Ok?
  }

  /** `wopi::put_file`: quota first, then the object, then the archived row, then the promotion. */
  ghost function WopiPutFile(c: Config, s: Store, id: Uuid, body: Bytes, nonce: Nonce): (Store, Result<nat>) {
    if !Live(s, id) then (s, Err(NotFound))
    else
      var file := s.files[id];
      if !SaveFits(c, s, id, body) then (s, Err(PayloadTooLarge))
      else
        var key := VersionKey(file.bucket, id, file.version + 1, file.name);
        if (id, file.version) in s.versions then
          (s.(objects := s.objects[key := Framed(c.cipher, nonce, body)]), Err(Other))
        else
          var row := VersionRow(file.objectKey, |body|, c.md5(body));
          var archived := s.(versions := s.versions[(id, file.version) := row]);
          (Promote(c, archived, id, key, body, nonce, file.encrypted), Ok(file.version + 1))
  }

  /** `delete_file` without `hard`: also restarts the clock of a file already in the trash. */
  function Trash(s: Store, id: Uuid, now: int): Store {
    if id in s.files then s.(files := s.files[id := s.files[id].(deletedAt := Some(now))]) else s
  }

  function Restore(s: Store, id: Uuid): Store {
    if id in s.files then s.(files := s.files[id := s.files[id].(deletedAt := None)]) else s
  }

  /** The rotation worker's guarded soft delete. */
  function Archive(s: Store, id: Uuid, now: int): Store {
    if Live(s, id) then Trash(s, id, now) else s
  }

  /** Best-effort unlink: keys in `stuck` are those whose removal fails. */
  function Unlink(objects: map<string, Bytes>, key: string, stuck: set<string>): map<string, Bytes> {
    if key in stuck then objects else objects - {key}
  }

  function UnlinkAll(objects: map<string, Bytes>, keys: set<string>, stuck: set<string>): map<string, Bytes> {
    objects - (keys - stuck)
  }

  /** Version numbers stored for a file. */
  function Stored(s: Store, id: Uuid): set<nat> {
    set r | r in s.versions && r.0 == id :: r.1
  }

  function VersionKeys(s: Store, id: Uuid): set<string> {
    set r | r in s.versions && r.0 == id :: s.versions[r].objectKey
  }

  /** Deleting a `files` row takes its versions with it. */
  function DropFile(s: Store, id: Uuid): Store {
    s.(files := s.files - {id}, versions := map r | r in s.versions && r.0 != id :: s.versions[r])
  }

  /** `delete_file` with `hard`, and the effect of the rotation worker's `hard_delete_file`. */
  function HardDelete(s: Store, id: Uuid, stuck: set<string>): Store {
    if id !in s.files then s
    else
      DropFile(s, id).(objects := UnlinkAll(s.objects, {s.files[id].objectKey} + VersionKeys(s, id), stuck))
  }

  predicate TrashedBefore(s: Store, id: Uuid, cutoff: int) {
    id in s.files && s.files[id].deletedAt.Some? && s.files[id].deletedAt.value < cutoff
  }

  /** `hard_delete_file`: rechecks the window inside the transaction. */
  function Purge(s: Store, id: Uuid, cutoff: int, stuck: set<string>): Store {
    if TrashedBefore(s, id, cutoff) then HardDelete(s, id, stuck) else s
  }

  // ---------------------------------------------------------------------------
  // patch_file
  // ---------------------------------------------------------------------------

  /** `folder` is absent, an explicit null, or a folder id. */
  datatype PatchFields = PatchFields(
    name: Option<string>, systemId: Option<string>, orgId: Option<string>, folder: Option<Option<string>>)

  function NewName(file: FileRow, p: PatchFields): string { if p.name.Some? then p.name.value else file.name }

  predicate ChangesSystem(file: FileRow, p: PatchFields) { p.systemId.Some? && p.systemId.value != file.systemId }

  /** The bucket and key that the file has afterwards. */
  function Target(c: Config, id: Uuid, file: FileRow, p: PatchFields): (string, string)
    requires ChangesSystem(file, p) ==> p.systemId.value in c.systems
  {
    if ChangesSystem(file, p) then
      var bucket := c.systems[p.systemId.value].bucket;
      (bucket, FirstKey(bucket, id, NewName(file, p)))
    else if p.name.Some? && p.name.value != file.name then (file.bucket, FirstKey(file.bucket, id, NewName(file, p)))
    else (file.bucket, file.objectKey)
  }

  /** Bytes are copied on every change of system, and on renames that change the key. */
  predicate Copies(c: Config, id: Uuid, file: FileRow, p: PatchFields)
    requires ChangesSystem(file, p) ==> p.systemId.value in c.systems
  {
    ChangesSystem(file, p) || Target(c, id, file, p).1 != file.objectKey
  }

  function NewFolder(file: FileRow, p: PatchFields): Option<string> {
    if p.folder.Some? then p.folder.value else file.folderId
  }

  /** A folder that changes must be a live folder of the file's new system. */
  predicate FolderFits(c: Config, trashedFolders: set<string>, file: FileRow, p: PatchFields) {
    var folder := NewFolder(file, p);
    folder.Some? && folder != file.folderId ==>
      && folder.value in c.folders && folder.value !in trashedFolders
      && c.folders[folder.value] == (if p.systemId.Some? then p.systemId.value else file.systemId)
  }

  function PatchedRow(c: Config, id: Uuid, file: FileRow, p: PatchFields): FileRow
    requires ChangesSystem(file, p) ==> p.systemId.value in c.systems
  {
    var (bucket, key) := Target(c, id, file, p);
    file.(name := NewName(file, p), bucket := bucket, objectKey := key, orgId := Or(p.orgId, file.orgId),
          systemId := (if p.systemId.Some? then p.systemId.value else file.systemId), folderId := NewFolder(file, p))
  }

  /** The object store after the copy: put under the new key, then remove the old one. */
  function Copied(
    c: Config, objects: map<string, Bytes>, from: string, to: string, body: Bytes, nonce: Nonce, stuck: set<string>)
    : map<string, Bytes>
  {
    Unlink(objects[to := Framed(c.cipher, nonce, body)], from, stuck)
  }

  /** A request to patch: its fields, and what it meets: trashed folders, the nonce drawn, removals that fail. */
  datatype Request = Request(fields: PatchFields, trashed: set<string>, nonce: Nonce, stuck: set<string>)

  function ApplyPatch(c: Config, s: Store, id: Uuid, q: Request): (Store, Result<()>) {
    if !Live(s, id) then (s, Err(NotFound))
    else
      var file, p := s.files[id], q.fields;
      if ChangesSystem(file, p) && p.systemId.value !in c.systems then (s, Err(BadRequest))
      else
        var read := Fetch(c.cipher, s.objects, file.objectKey, file.encrypted);
        if Copies(c, id, file, p) && read.Err? then (s, Err(Other))
        else
          var moved := if Copies(c, id, file, p) && read.value.Some? then
                         s.(objects := Copied(c, s.objects, file.objectKey, Target(c, id, file, p).1, read.value.value,
                                              q.nonce, q.stuck))
                       else s;
          var row := PatchedRow(c, id, file, p);
          if !FolderFits(c, q.trashed, file, p) then (moved, Err(BadRequest))
          else if !ForeignKeysHold(c, row) then (moved, Err(Other))
          else (moved.(files := s.files[id := row]), Ok(()))
  }

  /** What a download of the file returns. */
  function ReadFile(c: Config, s: Store, id: Uuid): Result<Option<Bytes>>
    requires id in s.files
  {
    Fetch(c.cipher, s.objects, s.files[id].objectKey, s.files[id].encrypted)
  }

  /** The patch is for a live file and names a system that exists. */
  predicate Patchable(c: Config, s: Store, id: Uuid, p: PatchFields) {
    Live(s, id) && (ChangesSystem(s.files[id], p) ==> p.systemId.value in c.systems)
  }

  function TargetKey(c: Config, s: Store, id: Uuid, p: PatchFields): string
    requires Patchable(c, s, id, p)
  {
    Target(c, id, s.files[id], p).1
  }

  /** The patch gets as far as copying the bytes. */
  predicate Copying(c: Config, s: Store, id: Uuid, p: PatchFields) {
    Patchable(c, s, id, p) && Copies(c, id, s.files[id], p) && ReadFile(c, s, id).Ok?
  }

  /** The checks that follow the copy. */
  predicate PatchFits(c: Config, s: Store, id: Uuid, q: Request)
    requires Patchable(c, s, id, q.fields)
  {
    FolderFits(c, q.trashed, s.files[id], q.fields) && ForeignKeysHold(c, PatchedRow(c, id, s.files[id], q.fields))
  }

  /** The patch copies to a key other than the file's own. */
  predicate Relocates(c: Config, s: Store, id: Uuid, p: PatchFields) {
    Patchable(c, s, id, p) && TargetKey(c, s, id, p) != s.files[id].objectKey
  }

  // ---------------------------------------------------------------------------
  // prune_versions
  // ---------------------------------------------------------------------------

  lemma HasMaximum(vs: set<nat>)
    requires vs != {}
    ensures exists m :: m in vs && forall v | v in vs :: v <= m
  {
    var pick :| pick in vs;
    if vs == {pick} {
      assert pick in vs && forall v | v in vs :: v <= pick;
    } else {
      HasMaximum(vs - {pick});
      var m :| m in vs - {pick} && forall v | v in vs - {pick} :: v <= m;
      var w := Max(m, pick);
      assert forall v | v in vs :: v == pick || v in vs - {pick};
      assert w in vs && forall v | v in vs :: v <= w;
    }
  }

  function Newest(vs: set<nat>): (m: nat)
    requires vs != {}
    ensures m in vs && forall v | v in vs :: v <= m
  {
    HasMaximum(vs);
    var m :| m in vs && forall v | v in vs :: v <= m;
    m
  }

  lemma ConsDescends(vs: set<nat>, m: nat, rest: seq<nat>)
    requires m in vs && (forall v | v in vs :: v <= m)
    requires |rest| == |vs - {m}| && (forall v :: v in rest <==> v in vs - {m})
    requires forall i, j | 0 <= i < j < |rest| :: rest[i] > rest[j]
    ensures var d := [m] + rest;
            && |d| == |vs| && (forall v :: v in d <==> v in vs)
            && forall i, j | 0 <= i < j < |d| :: d[i] > d[j]
  {
    var d := [m] + rest;
    forall i, j | 0 <= i < j < |d|
      ensures d[i] > d[j]
    {
      assert d[j] in rest;
    }
  }

  /** `ORDER BY version DESC`. */
  function Descending(vs: set<nat>): (d: seq<nat>)
    ensures |d| == |vs| && (forall v :: v in d <==> v in vs)
    ensures forall i, j | 0 <= i < j < |d| :: d[i] > d[j]
  {
    if vs == {} then []
    else
      var m := Newest(vs);
      var rest := Descending(vs - {m});
      ConsDescends(vs, m, rest);
      [m] + rest
  }

  /** The versions `prune_versions` selects: the newest first, past the first `keep - 1`. */
  function ToEvict(s: Store, id: Uuid, keep: int): seq<nat> {
    var d := Descending(Stored(s, id));
    d[Min(Max(keep - 1, 0), |d|)..]
  }

  /** Object first, then the row. */
  function EvictOne(s: Store, id: Uuid, v: nat, stuck: set<string>): Store {
    if (id, v) !in s.versions then s
    else s.(objects := Unlink(s.objects, s.versions[(id, v)].objectKey, stuck), versions := s.versions - {(id, v)})
  }

  function EvictAll(s: Store, id: Uuid, vs: seq<nat>, stuck: set<string>): Store
    decreases |vs|
  {
    if vs == [] then s else EvictAll(EvictOne(s, id, vs[0], stuck), id, vs[1..], stuck)
  }

  /** Called by the worker only when the policy keeps a positive number of versions. */
  function Prune(s: Store, id: Uuid, keep: int, stuck: set<string>): Store {
    if keep > 0 then EvictAll(s, id, ToEvict(s, id, keep), stuck) else s
  }

  // ---------------------------------------------------------------------------
  // Runs
  // ---------------------------------------------------------------------------

  datatype Event =
    | Upload(actor: string, fields: UploadFields, id: Uuid, now: int, nonce: Nonce)
    | FinishUpload(actor: string, fields: UploadFields, id: Uuid, now: int, nonce: Nonce)   // `tus::finalise`
    | NewVersion(user: string, id: Uuid, filename: Option<string>, body: Option<Bytes>, nonce: Nonce)
    | WopiSave(id: Uuid, wopiBody: Bytes, nonce: Nonce)
    | TrashFile(id: Uuid, now: int)
    | RestoreFile(id: Uuid)
    | PatchFile(id: Uuid, q: Request)
    | PruneVersions(id: Uuid, keep: int, stuck: set<string>)
    | ArchiveFile(id: Uuid, now: int)
    | HardDeleteFile(id: Uuid, stuck: set<string>)
    | PurgeFile(id: Uuid, cutoff: int, stuck: set<string>)

  ghost function Step(c: Config, s: Store, e: Event): Store {
    match e
    case Upload(actor, fields, id, now, nonce) => PersistUpload(c, s, actor, fields, id, now, nonce).0
    case FinishUpload(actor, fields, id, now, nonce) => InsertFile(c, s, actor, fields, id, now, nonce).0
    case NewVersion(user, id, filename, body, nonce) => UploadVersion(c, s, user, id, filename, body, nonce).0
    case WopiSave(id, body, nonce) => WopiPutFile(c, s, id, body, nonce).0
    case TrashFile(id, now) => Trash(s, id, now)
    case RestoreFile(id) => Restore(s, id)
    case PatchFile(id, q) => ApplyPatch(c, s, id, q).0
    case PruneVersions(id, keep, stuck) => Prune(s, id, keep, stuck)
    case ArchiveFile(id, now) => Archive(s, id, now)
    case HardDeleteFile(id, stuck) => HardDelete(s, id, stuck)
    case PurgeFile(id, cutoff, stuck) => Purge(s, id, cutoff, stuck)
  }

  /** Ids of new files are fresh. */
  predicate FreshId(s: Store, e: Event) { e.Upload? || e.FinishUpload? ==> e.id !in s.issued }

  ghost function Run(c: Config, s: Store, events: seq<Event>): Store {
    if events == [] then s else Step(c, Run(c, s, events[..|events| - 1]), events[|events| - 1])
  }
}

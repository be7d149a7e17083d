/**
 The request handlers and the worker's per-file operations as they run: one SQL statement or one object
 store call at a time on the three tables. Every method is tied to its function in `Lifecycle`.
 */
module FileServer {
  import opened Common
  import opened ObjectKeys
  import opened Storage
  import opened Schema
  import opened Quota
  import opened Lifecycle

  class FileServer {
    var files: map<Uuid, FileRow>
    var versions: map<VersionId, VersionRow>
    var objects: map<string, Bytes>
    ghost var issued: set<Uuid>

    ghost function State(): Store
      reads this
    {
      Store(files, versions, objects, issued)
    }

    constructor ()
      ensures State() == EMPTY
    {
      files, versions, objects, issued := map[], map[], map[], {};
    }

    /** `SELECT SUM(size_bytes)` over a scope, row by row in any order. */
    method SumLive(scope: Scope) returns (used: nat)
      ensures used == Usage(files, scope)
    {
      used := 0;
      var rest := files;
      while rest != map[]
        invariant used + Usage(rest, scope) == Usage(files, scope)
        decreases |rest|
      {
        var id :| id in rest;
        UsageWithout(rest, id, scope);
        assert (rest - {id}).Keys == rest.Keys - {id};
        used := used + Weight(rest[id], scope);
        rest := rest - {id};
      }
    }

    method EnforceQuota(
      c: Config, incoming: nat, systemId: Option<string>, orgId: Option<string>, userId: Option<string>)
      returns (r: Result<()>)
      ensures r == Enforce(c, files, incoming, systemId, orgId, userId)
    {
      if c.workspaceCap.Some? && c.workspaceCap.value > 0 {
        var used := SumLive(Workspace);
        if used + incoming > c.workspaceCap.value { return Err(PayloadTooLarge); }
      }
      if systemId.Some? {
        var cap := if systemId.value in c.systems then c.systems[systemId.value].quota else 0;
        if cap > 0 {
          var used := SumLive(InSystem(systemId.value));
          if used + incoming > cap { return Err(PayloadTooLarge); }
        }
      }
      if orgId.Some? {
        var cap := if orgId.value in c.orgQuota then c.orgQuota[orgId.value] else 0;
        if cap > 0 {
          var used := SumLive(InOrg(orgId.value));
          if used + incoming > cap { return Err(PayloadTooLarge); }
        }
      }
      if userId.Some? {
        var cap := if userId.value in c.userQuota then c.userQuota[userId.value] else 0;
        if cap > 0 {
          var used := SumLive(OfUser(userId.value));
          if used + incoming > cap { return Err(PayloadTooLarge); }
        }
      }
      r := Ok(());
    }

    /** `Storage::put` on this server's object store. */
    method PutObject(c: Config, key: string, body: Bytes, nonce: Nonce) returns (etag: string)
      modifies this`objects
      ensures objects == old(objects)[key := Framed(c.cipher, nonce, body)]
      ensures etag == c.md5(body)
    {
      objects := objects[key := Framed(c.cipher, nonce, body)];
      etag := c.md5(body);
    }

    method DeleteObject(key: string, stuck: set<string>)
      modifies this`objects
      ensures objects == Unlink(old(objects), key, stuck)
    {
      if key !in stuck { objects := objects - {key}; }
    }

    /** The statements that uploads and finished TUS sessions share: system lookup, quota, object, row. */
    method InsertFile(c: Config, actor: string, f: UploadFields, id: Uuid, now: int, nonce: Nonce)
      returns (r: Result<Uuid>)
      modifies this
      ensures (State(), r) == Lifecycle.InsertFile(c, old(State()), actor, f, id, now, nonce)
    {
      if f.name.None? || f.body.None? || f.systemId.None? { return Err(BadRequest); }
      if f.systemId.value !in c.systems { return Err(BadRequest); }
      var bucket := c.systems[f.systemId.value].bucket;
      var size := |f.body.value|;
      var quota := EnforceQuota(c, size, f.systemId, f.orgId, Some(actor));
      if quota.Err? { return Err(PayloadTooLarge); }
      issued := issued + {id};
      var safe := SanitizeFilename(f.name.value);
      var objectKey := bucket + "/" + id + "-" + safe;
      var etag := PutObject(c, objectKey, f.body.value, nonce);
      var row := FileRow(f.name.value, bucket, objectKey, size, 1, f.systemId.value, f.orgId, f.folderId, Some(actor),
                         now, None, etag, c.cipher.Some?);
      assert row == NewRow(c, actor, f, id, now);
      if !ForeignKeysHold(c, row) { return Err(Other); }
      files := files[id := row];
      r := Ok(id);
    }

    method PersistUpload(c: Config, actor: string, f: UploadFields, id: Uuid, now: int, nonce: Nonce)
      returns (r: Result<Uuid>)
      modifies this
      ensures (State(), r) == Lifecycle.PersistUpload(c, old(State()), actor, f, id, now, nonce)
    {
      var full := f;
      if (f.systemId.None? || f.orgId.None?) && actor in c.userDefaults {
        var d := c.userDefaults[actor];
        if f.systemId.None? { full := full.(systemId := d.systemId); }
        if f.orgId.None? { full := full.(orgId := d.orgId); }
      }
      assert full == WithDefaults(c, actor, f);
      r := InsertFile(c, actor, full, id, now, nonce);
    }

    method UploadVersion(c: Config, user: string, id: Uuid, filename: Option<string>, body: Option<Bytes>, nonce: Nonce)
      returns (r: Result<nat>)
      modifies this
      ensures (State(), r) == Lifecycle.UploadVersion(c, old(State()), user, id, filename, body, nonce)
    {
      if id !in files || files[id].deletedAt.Some? { return Err(NotFound); }
      var file := files[id];
      if body.None? { return Err(BadRequest); }
      if (id, file.version) in versions { return Err(Other); }
      versions := versions[(id, file.version) := VersionRow(file.objectKey, file.size, file.etag)];
      var newVersion := file.version + 1;
      var displayName := if filename.Some? then filename.value else file.name;
      var safe := SanitizeFilename(displayName);
      var newObjectKey := KeyOf(file.bucket, id, VersionTail(newVersion, safe));
      var quota := EnforceQuota(c, |body.value|, Some(file.systemId), file.orgId, Some(user));
      if quota.Err? { return Err(PayloadTooLarge); }
      var etag := PutObject(c, newObjectKey, body.value, nonce);
      files := files[id := file.(version := newVersion, objectKey := newObjectKey, size := |body.value|,
                                 etag := etag, encrypted := c.cipher.Some?)];
      r := Ok(newVersion);
    }

    method WopiPutFile(c: Config, id: Uuid, body: Bytes, nonce: Nonce) returns (r: Result<nat>)
      modifies this
      ensures (State(), r) == Lifecycle.WopiPutFile(c, old(State()), id, body, nonce)
    {
      if id !in files || files[id].deletedAt.Some? { return Err(NotFound); }
      var file := files[id];
      var quota := EnforceQuota(c, |body|, Some(file.systemId), file.orgId, file.createdBy);
      if quota.Err? { return Err(PayloadTooLarge); }
      var newVersion := file.version + 1;
      var safe := SanitizeFilename(file.name);
      var newKey := KeyOf(file.bucket, id, VersionTail(newVersion, safe));
      var etag := PutObject(c, newKey, body, nonce);
      if (id, file.version) in versions { return Err(Other); }
      versions := versions[(id, file.version) := VersionRow(file.objectKey, |body|, etag)];
      files := files[id := file.(objectKey := newKey, size := |body|, version := newVersion, etag := etag)];
      r := Ok(newVersion);
    }

    /** `Storage::get` on this server's object store. */
    method GetObject(c: Config, key: string, encrypted: bool) returns (r: Result<Option<Bytes>>)
      ensures r == Fetch(c.cipher, objects, key, encrypted)
    {
      if key !in objects { return Ok(None); }
      var raw := Unframed(c.cipher, encrypted, objects[key]);
      if raw.Err? { return Err(raw.error); }
      r := Ok(Some(raw.value));
    }

    /** get, put under the new key, best-effort removal of the old one. */
    method CopyObject(c: Config, from: string, encrypted: bool, to: string, nonce: Nonce, stuck: set<string>)
      returns (r: Result<()>)
      modifies this`objects
      ensures var read := Fetch(c.cipher, old(objects), from, encrypted);
              && r == (if read.Ok? then Ok(()) else Err(Other))
              && objects == if read.Ok? && read.value.Some? then
                              Copied(c, old(objects), from, to, read.value.value, nonce, stuck)
                            else old(objects)
    {
      var read := GetObject(c, from, encrypted);
      if read.Err? { return Err(Other); }
      if read.value.Some? {
        var etag := PutObject(c, to, read.value.value, nonce);
        DeleteObject(from, stuck);
      }
      r := Ok(());
    }

    method TargetKey(c: Config, id: Uuid, file: FileRow, p: PatchFields)
      returns (bucket: string, key: string)
      requires ChangesSystem(file, p) ==> p.systemId.value in c.systems
      ensures (bucket, key) == Target(c, id, file, p)
    {
      var newName := if p.name.Some? then p.name.value else file.name;
      bucket, key := file.bucket, file.objectKey;
      if p.systemId.Some? && p.systemId.value != file.systemId {
        bucket := c.systems[p.systemId.value].bucket;
        var safe := SanitizeFilename(newName);
        key := bucket + "/" + id + "-" + safe;
      } else if p.name.Some? && newName != file.name {
        var safe := SanitizeFilename(newName);
        key := file.bucket + "/" + id + "-" + safe;
      }
    }

    method CheckFolder(c: Config, trashedFolders: set<string>, file: FileRow, p: PatchFields)
      returns (ok: bool)
      ensures ok == FolderFits(c, trashedFolders, file, p)
    {
      var folder := if p.folder.Some? then p.folder.value else file.folderId;
      var systemId := if p.systemId.Some? then p.systemId.value else file.systemId;
      if folder.None? || folder == file.folderId { return true; }
      if folder.value !in c.folders || folder.value in trashedFolders { return false; }
      ok := c.folders[folder.value] == systemId;
    }

    /** `patch_file`: bytes move first, the folder is checked next, the row comes last. */
    method PatchFile(c: Config, id: Uuid, q: Request) returns (r: Result<()>)
      modifies this
      ensures (State(), r) == ApplyPatch(c, old(State()), id, q)
    {
      if id !in files || files[id].deletedAt.Some? { return Err(NotFound); }
      var file, p := files[id], q.fields;
      var moves := p.systemId.Some? && p.systemId.value != file.systemId;
      if moves && p.systemId.value !in c.systems { return Err(BadRequest); }
      var bucket, key := TargetKey(c, id, file, p);
      if moves || key != file.objectKey {
        var copied := CopyObject(c, file.objectKey, file.encrypted, key, q.nonce, q.stuck);
        if copied.Err? { return Err(Other); }
      }
      var fits := CheckFolder(c, q.trashed, file, p);
      if !fits { return Err(BadRequest); }
      var row := file.(name := if p.name.Some? then p.name.value else file.name, bucket := bucket, objectKey := key,
                       orgId := Or(p.orgId, file.orgId),
                       systemId := if p.systemId.Some? then p.systemId.value else file.systemId,
                       folderId := if p.folder.Some? then p.folder.value else file.folderId);
      if !ForeignKeysHold(c, row) { return Err(Other); }
      files := files[id := row];
      r := Ok(());
    }

    method TrashFile(id: Uuid, now: int) returns (r: Result<()>)
      modifies this`files
      ensures State() == Trash(old(State()), id, now)
      ensures r.Ok? <==> id in old(files)
    {
      if id !in files { return Err(NotFound); }
      files := files[id := files[id].(deletedAt := Some(now))];
      r := Ok(());
    }

    method RestoreFile(id: Uuid) returns (r: Result<()>)
      modifies this`files
      ensures State() == Restore(old(State()), id)
      ensures r.Ok? <==> id in old(files) && old(files)[id].deletedAt.Some?
    {
      if id !in files || files[id].deletedAt.None? {
        assert id in files ==> files[id := files[id].(deletedAt := None)] == files;
        return Err(NotFound);
      }
      files := files[id := files[id].(deletedAt := None)];
      r := Ok(());
    }

    /** `UPDATE files SET deleted_at = now() WHERE id = $1 AND deleted_at IS NULL`. */
    method ArchiveFile(id: Uuid, now: int)
      modifies this`files
      ensures State() == Archive(old(State()), id, now)
    {
      if id in files && files[id].deletedAt.None? {
        files := files[id := files[id].(deletedAt := Some(now))];
      }
    }

    /** Unlinks a set of keys one at a time. */
    method DeleteObjects(keys: set<string>, stuck: set<string>)
      modifies this`objects
      ensures objects == UnlinkAll(old(objects), keys, stuck)
    {
      var rest := keys;
      while rest != {}
        invariant rest <= keys
        invariant objects == old(objects) - ((keys - rest) - stuck)
        decreases |rest|
      {
        var key :| key in rest;
        DeleteObject(key, stuck);
        assert keys - (rest - {key}) == (keys - rest) + {key};
        rest := rest - {key};
      }
    }

    /** The row goes first, by cascade with its versions, then the bytes. */
    method HardDelete(id: Uuid, stuck: set<string>) returns (r: Result<()>)
      modifies this
      ensures State() == Lifecycle.HardDelete(old(State()), id, stuck)
      ensures r.Ok? <==> id in old(files)
    {
      if id !in files { return Err(NotFound); }
      ghost var before := State();
      var mainKey := files[id].objectKey;
      var versionKeys := set v | v in versions && v.0 == id :: versions[v].objectKey;
      files := files - {id};
      versions := map v | v in versions && v.0 != id :: versions[v];
      assert versionKeys == VersionKeys(before, id);
      assert objects == before.objects;
      DeleteObject(mainKey, stuck);
      DeleteObjects(versionKeys, stuck);
      assert objects == UnlinkAll(before.objects, {mainKey} + VersionKeys(before, id), stuck);
      r := Ok(());
    }

    /** `hard_delete_file`: recheck and row deletion in one transaction, unlinks after the commit. */
    method HardDeleteFile(id: Uuid, cutoff: int, stuck: set<string>)
      modifies this
      ensures State() == Purge(old(State()), id, cutoff, stuck)
    {
      if id !in files || files[id].deletedAt.None? || files[id].deletedAt.value >= cutoff { return; }
      ghost var before := State();
      var mainKey := files[id].objectKey;
      var versionKeys := set v | v in versions && v.0 == id :: versions[v].objectKey;
      versions := map v | v in versions && v.0 != id :: versions[v];
      files := files - {id};
      assert versionKeys == VersionKeys(before, id);
      assert objects == before.objects;
      DeleteObject(mainKey, stuck);
      DeleteObjects(versionKeys, stuck);
      assert objects == UnlinkAll(before.objects, {mainKey} + VersionKeys(before, id), stuck);
    }

    /** Best-effort unlink, then `DELETE FROM file_versions`. */
    method EvictVersion(id: Uuid, v: nat, stuck: set<string>)
      requires (id, v) in versions
      modifies this`objects, this`versions
      ensures State() == EvictOne(old(State()), id, v, stuck)
    {
      DeleteObject(versions[(id, v)].objectKey, stuck);
      versions := versions - {(id, v)};
    }

    /** The rows selected for eviction, dropped one by one. */
    method EvictVersions(id: Uuid, toEvict: seq<nat>, stuck: set<string>) returns (n: nat)
      requires forall j | 0 <= j < |toEvict| :: (id, toEvict[j]) in versions
      requires forall i, j | 0 <= i < j < |toEvict| :: toEvict[i] != toEvict[j]
      modifies this`objects, this`versions
      ensures State() == EvictAll(old(State()), id, toEvict, stuck)
      ensures n == |toEvict|
    {
      n := 0;
      while n < |toEvict|
        invariant 0 <= n <= |toEvict|
        invariant EvictAll(State(), id, toEvict[n..], stuck) == EvictAll(old(State()), id, toEvict, stuck)
        invariant forall j | n <= j < |toEvict| :: (id, toEvict[j]) in versions
      {
        assert toEvict[n..][1..] == toEvict[n + 1..];
        EvictVersion(id, toEvict[n], stuck);
        n := n + 1;
      }
    }

    /** `prune_versions`: the rows to evict are read once, then dropped one by one, object first. */
    method PruneVersions(id: Uuid, keep: int, stuck: set<string>) returns (n: nat)
      requires keep > 0
      modifies this`objects, this`versions
      ensures State() == Prune(old(State()), id, keep, stuck)
      ensures n == |ToEvict(old(State()), id, keep)|
    {
      ghost var before := State();
      var stored := set v | v in versions && v.0 == id :: v.1;
      assert stored == Stored(before, id);
      var newestFirst := Descending(stored);
      var toEvict := newestFirst[Min(Max(keep - 1, 0), |newestFirst|)..];
      assert toEvict == ToEvict(before, id, keep);
      SelectedRowsExist(before, id, keep);
      n := EvictVersions(id, toEvict, stuck);
    }
  }

  lemma SelectedRowsExist(s: Store, id: Uuid, keep: int)
    ensures var vs := ToEvict(s, id, keep);
            && (forall j | 0 <= j < |vs| :: (id, vs[j]) in s.versions)
            && (forall i, j | 0 <= i < j < |vs| :: vs[i] != vs[j])
  {
    var d := Descending(Stored(s, id));
    var k := Min(Max(keep - 1, 0), |d|);
    forall j | 0 <= j < |d[k..]|
      ensures (id, d[k..][j]) in s.versions
    {
      assert d[k..][j] == d[k + j] && d[k + j] in d;
    }
  }
}

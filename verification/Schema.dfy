/** The rows and the configuration that the upload, version, quota and rotation code works on. */
module Schema {
  import opened Common
  import opened Storage

  /** A `systems` row; `kind` holds system_type. */
  datatype System = System(bucket: string, quota: int, kind: string, owner: Option<string>, deleted: bool)

  datatype Defaults = Defaults(systemId: Option<string>, orgId: Option<string>)

  /** The UNIQUE constraint on `systems.bucket`. */
  predicate UniqueBuckets(systems: map<string, System>) {
    forall a, b | a in systems && b in systems && systems[a].bucket == systems[b].bucket :: a == b
  }

  /** Tables and settings that the modelled operations only read. */
  datatype Settings = Settings(
    systems: map<string, System>,
    orgQuota: map<string, int>,
    userQuota: map<string, int>,
    workspaceCap: Option<int>,
    folders: map<string, string>,            // folder id -> its system
    userDefaults: map<string, Defaults>,
    cipher: Option<Cipher>,
    md5: Bytes -> string)

  type Config = c: Settings | UniqueBuckets(c.systems)
    witness Settings(map[], map[], map[], None, map[], map[], None, (body: Bytes) => "")

  /** A `files` row. */
  datatype FileRow = FileRow(
    name: string,
    bucket: string,
    objectKey: string,
    size: nat,
    version: nat,
    systemId: string,
    orgId: Option<string>,
    folderId: Option<string>,
    createdBy: Option<string>,
    createdAt: int,
    deletedAt: Option<int>,
    etag: string,
    encrypted: bool)

  /** A `file_versions` row; its table is unique on (file_id, version). */
  datatype VersionRow = VersionRow(objectKey: string, size: nat, etag: string)

  type VersionId = (Uuid, nat)

  /** The database and the object store. `issued` records every file id ever generated: UUIDs are fresh. */
  datatype Store = Store(
    files: map<Uuid, FileRow>,
    versions: map<VersionId, VersionRow>,
    objects: map<string, Bytes>,
    issued: set<Uuid>)

  const EMPTY: Store := Store(map[], map[], map[], {})

  /** Foreign keys of a `files` row. */
  predicate ForeignKeysHold(c: Config, row: FileRow) {
    && (row.orgId.Some? ==> row.orgId.value in c.orgQuota)
    && (row.folderId.Some? ==> row.folderId.value in c.folders)
    && (row.createdBy.Some? ==> row.createdBy.value in c.userQuota)
  }
}

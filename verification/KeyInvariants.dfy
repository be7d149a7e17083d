/**
 Over every run of uploads, versions, saves, renames, moves and removals: the object keys named by `files` and
 `file_versions` rows are pairwise distinct, each names a stored object of its own file, and that object's raw bytes do
 not change while the row lives and is not moved. The ways to break this are stated exactly.
 */
module KeyInvariants {
  import opened Common
  import opened ObjectKeys
  import opened Storage
  import opened Schema
  import opened Quota
  import opened Lifecycle

  // ---------------------------------------------------------------------------
  // References
  // ---------------------------------------------------------------------------

  /** Version `r.1` of file `r.0` is named by a row: the current one or a stored one. */
  predicate IsRef(s: Store, r: VersionId) {
    r in s.versions || (r.0 in s.files && s.files[r.0].version == r.1)
  }

  function RefKey(s: Store, r: VersionId): string
    requires IsRef(s, r)
  {
    if r in s.versions then s.versions[r].objectKey else s.files[r.0].objectKey
  }

  predicate Apart(s: Store, q: VersionId, r: VersionId) {
    IsRef(s, q) && IsRef(s, r) && RefKey(s, q) == RefKey(s, r) ==> q == r
  }

  /** No two rows name the same object. */
  ghost predicate KeysDistinct(s: Store) {
    && (forall q: VersionId, r: VersionId :: Apart(s, q, r))
    && (forall id | id in s.files :: (id, s.files[id].version) !in s.versions)
  }

  /** No row names the key. */
  ghost predicate Unused(s: Store, key: string) { forall q: VersionId | IsRef(s, q) :: RefKey(s, q) != key }

  /** The key carries the file's id. */
  predicate OwnKey(id: Uuid, key: string) {
    match DecodeKey(key)
    case None => false
    case Some(parts) => parts.id == id
  }

  predicate Owned(s: Store, r: VersionId) { IsRef(s, r) ==> r.0 in s.files && OwnKey(r.0, RefKey(s, r)) }

  /** Rows belong together. */
  ghost predicate Shaped(s: Store) {
    && s.files.Keys <= s.issued
    && (forall id | id in s.files :: s.files[id].version >= 1)
    && (forall r | r in s.versions :: r.0 in s.files && 1 <= r.1 < s.files[r.0].version)
  }

  /** Rows belong together, and each names a stored object of its own file. */
  ghost predicate WellFormed(s: Store) {
    && Shaped(s)
    && (forall r: VersionId :: Owned(s, r))
    && (forall r: VersionId | IsRef(s, r) :: RefKey(s, r) in s.objects)
  }

  ghost predicate Inv(s: Store) { WellFormed(s) && KeysDistinct(s) }

  /** A key generated for a file that does not exist yet is nobody's. */
  lemma FreshKeyIsUnused(s: Store, id: Uuid, key: string)
    requires WellFormed(s) && id !in s.issued && OwnKey(id, key)
    ensures Unused(s, key)
  {
    forall q: VersionId | IsRef(s, q)
      ensures RefKey(s, q) != key
    {
      assert Owned(s, q);
    }
  }

  /** The key that the file's next version gets under a name. */
  function NextKey(s: Store, id: Uuid, name: string): string
    requires id in s.files
  {
    VersionKey(s.files[id].bucket, id, s.files[id].version + 1, name)
  }

  /** Generated keys carry the file's id: a row that already names one is a row of the same file. */
  lemma OnlyOwnKeyIsHit(s: Store, bucket: string, id: Uuid, n: nat, name: string, r: VersionId)
    requires WellFormed(s) && IsRef(s, r)
    ensures OwnKey(id, FirstKey(bucket, id, name)) && OwnKey(id, VersionKey(bucket, id, n, name))
    ensures RefKey(s, r) == FirstKey(bucket, id, name) || RefKey(s, r) == VersionKey(bucket, id, n, name) ==> r.0 == id
  {
    DecodeFirstKey(bucket, id, name);
    DecodeVersionKey(bucket, id, n, name);
    assert Owned(s, r);
  }

  // ---------------------------------------------------------------------------
  // Steps
  // ---------------------------------------------------------------------------

  /** Rows alive before and after, except those listed, keep their key and its raw bytes. */
  ghost predicate BytesKept(s: Store, s': Store, but: set<VersionId>) {
    forall r: VersionId | IsRef(s, r) && IsRef(s', r) && r !in but ::
      && RefKey(s', r) == RefKey(s, r)
      && RefKey(s, r) in s.objects && RefKey(s, r) in s'.objects
      && s'.objects[RefKey(s, r)] == s.objects[RefKey(s, r)]
  }

  /** A version that exists or once existed. */
  predicate Past(s: Store, r: VersionId) {
    r.0 in s.issued && (r.0 in s.files ==> r.1 <= s.files[r.0].version)
  }

  /** Versions that are gone stay gone. */
  ghost predicate NothingReturns(s: Store, s': Store) {
    forall r: VersionId | Past(s, r) :: Past(s', r) && (IsRef(s', r) ==> IsRef(s, r))
  }

  ghost predicate GoodStep(s: Store, s': Store, but: set<VersionId>) {
    Inv(s') && BytesKept(s, s', but) && NothingReturns(s, s')
  }

  /** `upload_version` gets as far as its quota check. */
  predicate ReachesQuota(s: Store, id: Uuid, body: Option<Bytes>) { Live(s, id) && body.Some? }

  /** Ids are fresh, and no `upload_version` is refused for quota, which happens after its history row was written. */
  ghost predicate Orderly(c: Config, s: Store, e: Event) {
    match e
    case NewVersion(user, id, _, body, _) => ReachesQuota(s, id, body) ==> VersionFits(c, s, user, id, body.value)
    case _ => FreshId(s, e)
  }

  /** No patch is refused for its folder or its foreign keys, which happens after the bytes were moved. */
  predicate Lossless(c: Config, s: Store, e: Event) {
    e.PatchFile? && Copying(c, s, e.id, e.q.fields) ==> PatchFits(c, s, e.id, e.q)
  }

  /** The event writes an object under a key that some row already names. */
  ghost predicate Overwrites(c: Config, s: Store, e: Event) {
    match e
    case NewVersion(user, id, filename, body, _) =>
      ReachesQuota(s, id, body) && VersionFits(c, s, user, id, body.value)
      && !Unused(s, NextKey(s, id, DisplayName(s.files[id], filename)))
    case WopiSave(id, body, _) =>
      Live(s, id) && SaveFits(c, s, id, body) && !Unused(s, NextKey(s, id, s.files[id].name))
    case PatchFile(id, q) => Copying(c, s, id, q.fields) && !Unused(s, TargetKey(c, s, id, q.fields))
    case _ => false
  }

  /** What the run theorems ask of an event. */
  ghost predicate Admissible(c: Config, s: Store, e: Event) {
    Orderly(c, s, e) && Lossless(c, s, e) && !Overwrites(c, s, e)
  }

  /** The version that an event gives a new key. */
  function MovedBy(c: Config, s: Store, e: Event): set<VersionId> {
    if e.PatchFile? && Copying(c, s, e.id, e.q.fields) then {(e.id, s.files[e.id].version)} else {}
  }

  /** `s'` is `s` with at most one more reference, `n`, and one more object under its key. */
  ghost predicate Adds(s: Store, s': Store, n: VersionId, key: string, raw: Bytes) {
    && s'.objects == s.objects[key := raw]
    && (forall q: VersionId | IsRef(s, q) :: IsRef(s', q) && q.0 in s'.files && RefKey(s', q) == RefKey(s, q))
    && (forall q: VersionId | IsRef(s', q) && !IsRef(s, q) :: q == n && RefKey(s', q) == key && q.0 in s'.files)
  }

  lemma AdditionKeepsBytes(s: Store, s': Store, n: VersionId, key: string, raw: Bytes)
    requires WellFormed(s) && Adds(s, s', n, key, raw) && Unused(s, key)
    ensures BytesKept(s, s', {})
    ensures forall q: VersionId | IsRef(s', q) :: RefKey(s', q) in s'.objects
  {
  }

  lemma AdditionKeepsOwned(s: Store, s': Store, n: VersionId, key: string, raw: Bytes)
    requires WellFormed(s) && Adds(s, s', n, key, raw) && OwnKey(n.0, key)
    ensures forall q: VersionId :: Owned(s', q)
  {
    forall q: VersionId
      ensures Owned(s', q)
    {
      assert Owned(s, q);
    }
  }

  lemma AdditionKeepsDistinct(s: Store, s': Store, n: VersionId, key: string, raw: Bytes)
    requires KeysDistinct(s) && Adds(s, s', n, key, raw) && Unused(s, key) && Shaped(s')
    ensures KeysDistinct(s')
  {
    forall q: VersionId, r: VersionId
      ensures Apart(s', q, r)
    {
      assert Apart(s, q, r);
    }
  }

  /** An addition under an unused key keeps everything. */
  lemma AdditionIsGood(s: Store, s': Store, n: VersionId, key: string, raw: Bytes)
    requires Inv(s) && Adds(s, s', n, key, raw) && Unused(s, key) && OwnKey(n.0, key)
    requires Shaped(s') && NothingReturns(s, s')
    ensures GoodStep(s, s', {})
  {
    AdditionKeepsBytes(s, s', n, key, raw);
    AdditionKeepsOwned(s, s', n, key, raw);
    AdditionKeepsDistinct(s, s', n, key, raw);
  }

  /** One more object and, unless the row was refused, one more file naming it. */
  predicate AddsFile(s: Store, s': Store, id: Uuid, row: FileRow, raw: Bytes) {
    && id !in s.issued && row.version == 1
    && s'.objects == s.objects[row.objectKey := raw] && s'.issued == s.issued + {id}
    && s'.versions == s.versions && (s'.files == s.files || s'.files == s.files[id := row])
  }

  lemma NewFileAdds(s: Store, s': Store, id: Uuid, row: FileRow, raw: Bytes)
    requires Shaped(s) && AddsFile(s, s', id, row, raw)
    ensures Adds(s, s', (id, 1), row.objectKey, raw) && Shaped(s') && NothingReturns(s, s')
  {
  }

  lemma NewFileStep(s: Store, s': Store, id: Uuid, row: FileRow, raw: Bytes)
    requires Inv(s) && AddsFile(s, s', id, row, raw) && OwnKey(id, row.objectKey)
    ensures GoodStep(s, s', {})
  {
    FreshKeyIsUnused(s, id, row.objectKey);
    NewFileAdds(s, s', id, row, raw);
    AdditionIsGood(s, s', (id, 1), row.objectKey, raw);
  }

  /** `s'` is `s` with the current version of the file archived and `row`, under a new key, current. */
  predicate Supersedes(s: Store, s': Store, id: Uuid, row: FileRow, archived: VersionRow, raw: Bytes) {
    && id in s.files && row.version == s.files[id].version + 1
    && archived.objectKey == s.files[id].objectKey
    && s' == s.(objects := s.objects[row.objectKey := raw], files := s.files[id := row],
                versions := s.versions[(id, s.files[id].version) := archived])
  }

  lemma NewVersionAdds(s: Store, s': Store, id: Uuid, row: FileRow, archived: VersionRow, raw: Bytes)
    requires Shaped(s) && Supersedes(s, s', id, row, archived, raw)
    ensures Adds(s, s', (id, row.version), row.objectKey, raw) && Shaped(s') && NothingReturns(s, s')
    ensures !IsRef(s, (id, row.version)) && IsRef(s', (id, row.version))
    ensures RefKey(s', (id, row.version)) == row.objectKey
  {
  }

  lemma NewVersionIsGood(s: Store, s': Store, id: Uuid, row: FileRow, archived: VersionRow, raw: Bytes)
    requires Inv(s) && Supersedes(s, s', id, row, archived, raw) && OwnKey(id, row.objectKey)
    requires Unused(s, row.objectKey)
    ensures GoodStep(s, s', {})
  {
    NewVersionAdds(s, s', id, row, archived, raw);
    AdditionIsGood(s, s', (id, row.version), row.objectKey, raw);
  }

  /** What an upload that gets past its checks does. */
  lemma InsertFileAdds(c: Config, s: Store, actor: string, f: UploadFields, id: Uuid, now: int, nonce: Nonce)
    requires id !in s.issued && InsertFile(c, s, actor, f, id, now, nonce).0 != s
    ensures f.name.Some? && f.body.Some? && f.systemId.Some? && f.systemId.value in c.systems
    ensures var row := NewRow(c, actor, f, id, now);
            && row.objectKey == FirstKey(row.bucket, id, f.name.value)
            && AddsFile(s, InsertFile(c, s, actor, f, id, now, nonce).0, id, row, Framed(c.cipher, nonce, f.body.value))
  {
  }

  lemma InsertFileStep(c: Config, s: Store, actor: string, f: UploadFields, id: Uuid, now: int, nonce: Nonce)
    requires Inv(s) && id !in s.issued
    ensures GoodStep(s, InsertFile(c, s, actor, f, id, now, nonce).0, {})
  {
    var (s', r) := InsertFile(c, s, actor, f, id, now, nonce);
    if s' == s {
      GoodStepRefl(s, {});
    } else {
      InsertFileAdds(c, s, actor, f, id, now, nonce);
      var row := NewRow(c, actor, f, id, now);
      DecodeFirstKey(row.bucket, id, f.name.value);
      NewFileStep(s, s', id, row, Framed(c.cipher, nonce, f.body.value));
    }
  }

  /** The current version archived as `row`, and a new one under its generated key. */
  function Promoted(
    c: Config, s: Store, id: Uuid, name: string, row: VersionRow, body: Bytes, nonce: Nonce, encrypted: bool): Store
    requires id in s.files
  {
    var archived := s.(versions := s.versions[(id, s.files[id].version) := row]);
    Promote(c, archived, id, NextKey(s, id, name), body, nonce, encrypted)
  }

  lemma PromotedSupersedes(
    c: Config, s: Store, id: Uuid, name: string, row: VersionRow, body: Bytes, nonce: Nonce, encrypted: bool)
    requires id in s.files && row.objectKey == s.files[id].objectKey
    ensures var s' := Promoted(c, s, id, name, row, body, nonce, encrypted);
            && id in s'.files && Supersedes(s, s', id, s'.files[id], row, Framed(c.cipher, nonce, body))
            && s'.files[id].objectKey == NextKey(s, id, name)
  {
  }

  lemma PromoteStep(
    c: Config, s: Store, id: Uuid, name: string, row: VersionRow, body: Bytes, nonce: Nonce, encrypted: bool)
    requires Inv(s) && id in s.files && row.objectKey == s.files[id].objectKey && Unused(s, NextKey(s, id, name))
    ensures GoodStep(s, Promoted(c, s, id, name, row, body, nonce, encrypted), {})
  {
    var s' := Promoted(c, s, id, name, row, body, nonce, encrypted);
    PromotedSupersedes(c, s, id, name, row, body, nonce, encrypted);
    DecodeVersionKey(s.files[id].bucket, id, s.files[id].version + 1, name);
    NewVersionIsGood(s, s', id, s'.files[id], row, Framed(c.cipher, nonce, body));
  }

  /** Removing some references and unlinking only their objects. */
  lemma RemovalStep(s: Store, s': Store)
    requires Inv(s) && s'.issued == s.issued
    requires s'.files.Keys <= s.files.Keys && s'.versions.Keys <= s.versions.Keys
    requires forall id | id in s'.files ::
               s'.files[id].version == s.files[id].version && s'.files[id].objectKey == s.files[id].objectKey
    requires forall r | r in s'.versions :: s'.versions[r] == s.versions[r] && r.0 in s'.files
    requires s'.objects.Keys <= s.objects.Keys && forall k | k in s'.objects :: s'.objects[k] == s.objects[k]
    requires forall k | k in s.objects && k !in s'.objects ::
               exists q: VersionId :: IsRef(s, q) && !IsRef(s', q) && RefKey(s, q) == k
    ensures GoodStep(s, s', {})
  {
    forall r: VersionId | IsRef(s', r)
      ensures IsRef(s, r) && RefKey(s', r) == RefKey(s, r) && RefKey(s, r) in s'.objects
    {
      assert forall q: VersionId | IsRef(s, q) && RefKey(s, q) == RefKey(s, r) :: Apart(s, q, r);
    }
    forall r: VersionId ensures Owned(s', r) { assert Owned(s, r); }
    forall q: VersionId, r: VersionId ensures Apart(s', q, r) { assert Apart(s, q, r); }
  }

  lemma EvictOneStep(s: Store, id: Uuid, v: nat, stuck: set<string>)
    requires Inv(s)
    ensures GoodStep(s, EvictOne(s, id, v, stuck), {})
  {
    if (id, v) in s.versions {
      var s' := EvictOne(s, id, v, stuck);
      var r: VersionId := (id, v);
      assert IsRef(s, r) && !IsRef(s', r) && RefKey(s, r) == s.versions[r].objectKey;
      RemovalStep(s, s');
    }
  }

  lemma GoodStepsCompose(s: Store, t: Store, u: Store, a: set<VersionId>, b: set<VersionId>)
    requires Inv(s) && GoodStep(s, t, a) && GoodStep(t, u, b)
    ensures GoodStep(s, u, a + b)
  {
    forall r: VersionId | IsRef(s, r) && IsRef(u, r)
      ensures IsRef(t, r)
    {
      assert Past(s, r);
    }
  }

  lemma GoodStepRefl(s: Store, but: set<VersionId>)
    requires Inv(s)
    ensures GoodStep(s, s, but)
  {
  }

  lemma {:induction false} EvictAllStep(s: Store, id: Uuid, vs: seq<nat>, stuck: set<string>)
    requires Inv(s)
    ensures GoodStep(s, EvictAll(s, id, vs, stuck), {})
    decreases |vs|
  {
    if vs == [] {
      GoodStepRefl(s, {});
    } else {
      var t := EvictOne(s, id, vs[0], stuck);
      EvictOneStep(s, id, vs[0], stuck);
      EvictAllStep(t, id, vs[1..], stuck);
      GoodStepsCompose(s, t, EvictAll(s, id, vs, stuck), {}, {});
    }
  }

  lemma HardDeleteStep(s: Store, id: Uuid, stuck: set<string>)
    requires Inv(s)
    ensures GoodStep(s, HardDelete(s, id, stuck), {})
  {
    if id in s.files {
      var s' := HardDelete(s, id, stuck);
      forall k | k in s.objects && k !in s'.objects
        ensures exists q: VersionId :: IsRef(s, q) && !IsRef(s', q) && RefKey(s, q) == k
      {
        if k == s.files[id].objectKey {
          var q: VersionId := (id, s.files[id].version);
          assert IsRef(s, q) && !IsRef(s', q) && RefKey(s, q) == k;
        } else {
          var r :| r in s.versions && r.0 == id && s.versions[r].objectKey == k;
          assert IsRef(s, r) && !IsRef(s', r) && RefKey(s, r) == k;
        }
      }
      RemovalStep(s, s');
    }
  }

  lemma TrashStep(s: Store, id: Uuid, deletedAt: Option<int>)
    requires Inv(s) && id in s.files
    ensures GoodStep(s, s.(files := s.files[id := s.files[id].(deletedAt := deletedAt)]), {})
  {
    RemovalStep(s, s.(files := s.files[id := s.files[id].(deletedAt := deletedAt)]));
  }

  lemma UploadVersionStep(
    c: Config, s: Store, user: string, id: Uuid, filename: Option<string>, body: Option<Bytes>, nonce: Nonce)
    requires Inv(s)
    requires ReachesQuota(s, id, body) ==>
               VersionFits(c, s, user, id, body.value) && Unused(s, NextKey(s, id, DisplayName(s.files[id], filename)))
    ensures GoodStep(s, UploadVersion(c, s, user, id, filename, body, nonce).0, {})
  {
    if ReachesQuota(s, id, body) {
      var file := s.files[id];
      PromoteStep(c, s, id, DisplayName(file, filename), VersionRow(file.objectKey, file.size, file.etag), body.value,
                  nonce, c.cipher.Some?);
    } else {
      GoodStepRefl(s, {});
    }
  }

  /** The two outcomes of a WOPI save when the history has room for the current version. */
  lemma WopiSaveOutcome(c: Config, s: Store, id: Uuid, body: Bytes, nonce: Nonce)
    requires Live(s, id) ==> (id, s.files[id].version) !in s.versions
    ensures var (s', r) := WopiPutFile(c, s, id, body, nonce);
            if Live(s, id) && SaveFits(c, s, id, body) then
              var file := s.files[id];
              var row := VersionRow(file.objectKey, |body|, c.md5(body));
              r == Ok(file.version + 1) && s' == Promoted(c, s, id, file.name, row, body, nonce, file.encrypted)
            else s' == s && r.Err?
  {
  }

  lemma WopiSaveStep(c: Config, s: Store, id: Uuid, body: Bytes, nonce: Nonce)
    requires Inv(s) && (Live(s, id) && SaveFits(c, s, id, body) ==> Unused(s, NextKey(s, id, s.files[id].name)))
    ensures GoodStep(s, WopiPutFile(c, s, id, body, nonce).0, {})
  {
    WopiSaveOutcome(c, s, id, body, nonce);
    if Live(s, id) && SaveFits(c, s, id, body) {
      var file := s.files[id];
      var row := VersionRow(file.objectKey, |body|, c.md5(body));
      PromoteStep(c, s, id, file.name, row, body, nonce, file.encrypted);
    } else {
      GoodStepRefl(s, {});
    }
  }

  /** What a relocation leaves behind, with the row updated or not. */
  predicate Moved(s: Store, s': Store, id: Uuid, key: string, raw: Bytes, stuck: set<string>) {
    && id in s.files && s'.objects == Unlink(s.objects[key := raw], s.files[id].objectKey, stuck)
    && s'.versions == s.versions && s'.issued == s.issued && (s'.files == s.files || MovedRow(s, s', id, key))
  }

  predicate MovedRow(s: Store, s': Store, id: Uuid, key: string) {
    && id in s.files && id in s'.files && s'.files == s.files[id := s'.files[id]]
    && s'.files[id].objectKey == key && s'.files[id].version == s.files[id].version
  }

  lemma RefsAfterMove(s: Store, s': Store, id: Uuid, key: string)
    requires s'.versions == s.versions && MovedRow(s, s', id, key) && (id, s.files[id].version) !in s.versions
    ensures forall r: VersionId :: IsRef(s', r) <==> IsRef(s, r)
    ensures forall r: VersionId | IsRef(s, r) ::
              RefKey(s', r) == if r == (id, s.files[id].version) then key else RefKey(s, r)
    ensures forall x | x in s'.files :: x in s.files && s'.files[x].version == s.files[x].version
  {
  }

  lemma MovedSparesOthers(s: Store, s': Store, id: Uuid, key: string, raw: Bytes, stuck: set<string>, r: VersionId)
    requires KeysDistinct(s) && Moved(s, s', id, key, raw, stuck) && key != s.files[id].objectKey
    requires IsRef(s, r) && r != (id, s.files[id].version) && RefKey(s, r) in s.objects
    ensures var k := RefKey(s, r);
            k in s'.objects && s'.objects[k] == if k == key then raw else s.objects[k]
  {
    var own: VersionId := (id, s.files[id].version);
    assert IsRef(s, own) && RefKey(s, own) == s.files[id].objectKey && Apart(s, own, r);
  }

  lemma MovedRowKeepsKeysDistinctIff(s: Store, s': Store, id: Uuid, key: string)
    requires KeysDistinct(s) && s'.versions == s.versions && MovedRow(s, s', id, key) && key != s.files[id].objectKey
    ensures KeysDistinct(s') <==> Unused(s, key)
  {
    RefsAfterMove(s, s', id, key);
    var own: VersionId := (id, s.files[id].version);
    assert IsRef(s, own) && IsRef(s', own) && RefKey(s', own) == key && RefKey(s, own) != key;
    if r: VersionId :| IsRef(s, r) && RefKey(s, r) == key {
      assert !Apart(s', r, own);
    } else {
      forall q: VersionId, r: VersionId
        ensures Apart(s', q, r)
      {
        assert Apart(s, q, r);
      }
    }
  }

  /** A move to an unused key keeps everything but the moved version's own object. */
  lemma MoveIsGood(s: Store, s': Store, id: Uuid, key: string, raw: Bytes, stuck: set<string>)
    requires Inv(s) && Moved(s, s', id, key, raw, stuck) && MovedRow(s, s', id, key)
    requires Unused(s, key) && OwnKey(id, key)
    ensures GoodStep(s, s', {(id, s.files[id].version)})
  {
    var own: VersionId := (id, s.files[id].version);
    assert IsRef(s, own) && RefKey(s, own) == s.files[id].objectKey;
    RefsAfterMove(s, s', id, key);
    MovedRowKeepsKeysDistinctIff(s, s', id, key);
    forall r: VersionId
      ensures Owned(s', r)
    {
      assert Owned(s, r);
    }
    forall r: VersionId | IsRef(s', r)
      ensures RefKey(s', r) in s'.objects
      ensures r != own ==> s'.objects[RefKey(s', r)] == s.objects[RefKey(s, r)]
    {
      if r != own { MovedSparesOthers(s, s', id, key, raw, stuck, r); }
    }
  }

  /** What a patch does to rows and objects. */
  lemma PatchOutcome(c: Config, s: Store, id: Uuid, q: Request)
    ensures var s', p := ApplyPatch(c, s, id, q).0, q.fields;
            && s'.versions == s.versions && s'.issued == s.issued
            && (ApplyPatch(c, s, id, q).1.Ok? <==>
                  && Patchable(c, s, id, p) && (Copies(c, id, s.files[id], p) ==> Copying(c, s, id, p))
                  && PatchFits(c, s, id, q))
            && (ApplyPatch(c, s, id, q).1.Ok? ==> s'.files == s.files[id := PatchedRow(c, id, s.files[id], p)])
            && (ApplyPatch(c, s, id, q).1.Err? ==> s'.files == s.files)
            && (!Copying(c, s, id, p) ==> s'.objects == s.objects)
            && (Copying(c, s, id, p) && ReadFile(c, s, id).value.Some? ==>
                  s'.objects == Copied(c, s.objects, s.files[id].objectKey, TargetKey(c, s, id, p),
                                       ReadFile(c, s, id).value.value, q.nonce, q.stuck))
  {
  }

  lemma TargetIsOwn(c: Config, s: Store, id: Uuid, p: PatchFields)
    requires Patchable(c, s, id, p) && OwnKey(id, s.files[id].objectKey)
    ensures OwnKey(id, TargetKey(c, s, id, p))
  {
    DecodeFirstKey(Target(c, id, s.files[id], p).0, id, NewName(s.files[id], p));
  }

  lemma CopyStep(c: Config, s: Store, s': Store, id: Uuid, q: Request)
    requires Inv(s) && s' == ApplyPatch(c, s, id, q).0 && Copying(c, s, id, q.fields) && PatchFits(c, s, id, q)
    requires s.files[id].objectKey in s.objects && OwnKey(id, s.files[id].objectKey)
    requires Unused(s, TargetKey(c, s, id, q.fields))
    ensures GoodStep(s, s', {(id, s.files[id].version)})
  {
    PatchOutcome(c, s, id, q);
    TargetIsOwn(c, s, id, q.fields);
    var body := ReadFile(c, s, id).value.value;
    MoveIsGood(s, s', id, TargetKey(c, s, id, q.fields), Framed(c.cipher, q.nonce, body), q.stuck);
  }

  lemma PatchStep(c: Config, s: Store, id: Uuid, q: Request)
    requires Inv(s) && Admissible(c, s, PatchFile(id, q))
    ensures GoodStep(s, ApplyPatch(c, s, id, q).0, MovedBy(c, s, PatchFile(id, q)))
  {
    var s', p := ApplyPatch(c, s, id, q).0, q.fields;
    PatchOutcome(c, s, id, q);
    if Copying(c, s, id, p) {
      var own: VersionId := (id, s.files[id].version);
      assert IsRef(s, own) && RefKey(s, own) == s.files[id].objectKey && Owned(s, own);
      CopyStep(c, s, s', id, q);
    } else {
      RemovalStep(s, s');
    }
  }

  /** Every admissible event keeps the invariant, the bytes of surviving rows, and brings no version back. */
  lemma StepIsGood(c: Config, s: Store, e: Event)
    requires Inv(s) && Admissible(c, s, e)
    ensures GoodStep(s, Step(c, s, e), MovedBy(c, s, e))
  {
    if Step(c, s, e) == s { GoodStepRefl(s, MovedBy(c, s, e)); return; }
    match e {
      case Upload(actor, fields, id, now, nonce) =>
        InsertFileStep(c, s, actor, WithDefaults(c, actor, fields), id, now, nonce);
      case FinishUpload(actor, fields, id, now, nonce) => InsertFileStep(c, s, actor, fields, id, now, nonce);
      case NewVersion(user, id, filename, body, nonce) => UploadVersionStep(c, s, user, id, filename, body, nonce);
      case WopiSave(id, body, nonce) => WopiSaveStep(c, s, id, body, nonce);
      case TrashFile(id, now) => TrashStep(s, id, Some(now));
      case RestoreFile(id) => TrashStep(s, id, None);
      case PatchFile(id, q) => PatchStep(c, s, id, q);
      case PruneVersions(id, keep, stuck) => EvictAllStep(s, id, ToEvict(s, id, keep), stuck);
      case ArchiveFile(id, now) => TrashStep(s, id, Some(now));
      case HardDeleteFile(id, stuck) => HardDeleteStep(s, id, stuck);
      case PurgeFile(id, cutoff, stuck) => HardDeleteStep(s, id, stuck);
    }
  }

  // ---------------------------------------------------------------------------
  // Runs
  // ---------------------------------------------------------------------------

  ghost predicate AdmissibleRun(c: Config, s: Store, events: seq<Event>) {
    forall i | 0 <= i < |events| :: Admissible(c, Run(c, s, events[..i]), events[i])
  }

  lemma AdmissiblePrefix(c: Config, s: Store, events: seq<Event>)
    requires AdmissibleRun(c, s, events) && events != []
    ensures AdmissibleRun(c, s, events[..|events| - 1])
  {
    var prefix := events[..|events| - 1];
    forall i | 0 <= i < |prefix|
      ensures Admissible(c, Run(c, s, prefix[..i]), prefix[i])
    {
      assert prefix[..i] == events[..i];
    }
  }

  /** The versions that a run gave a new key. */
  ghost function MovedIn(c: Config, s: Store, events: seq<Event>): set<VersionId> {
    if events == [] then {}
    else
      var n := |events| - 1;
      MovedIn(c, s, events[..n]) + MovedBy(c, Run(c, s, events[..n]), events[n])
  }

  /** The invariant, the bytes of every surviving row that was not moved, and the absence of returns hold over runs. */
  lemma {:induction false} RunIsGood(c: Config, s: Store, events: seq<Event>)
    requires Inv(s) && AdmissibleRun(c, s, events)
    ensures GoodStep(s, Run(c, s, events), MovedIn(c, s, events))
  {
    if events == [] {
      GoodStepRefl(s, {});
    } else {
      var n := |events| - 1;
      var mid := Run(c, s, events[..n]);
      AdmissiblePrefix(c, s, events);
      RunIsGood(c, s, events[..n]);
      StepIsGood(c, mid, events[n]);
      GoodStepsCompose(s, mid, Step(c, mid, events[n]), MovedIn(c, s, events[..n]), MovedBy(c, mid, events[n]));
    }
  }

  /** From an empty server: after any run no two rows share an object and none is missing its object. */
  lemma EveryRowOwnsItsObject(c: Config, events: seq<Event>)
    requires AdmissibleRun(c, EMPTY, events)
    ensures var s := Run(c, EMPTY, events);
            KeysDistinct(s) && forall r: VersionId | IsRef(s, r) :: RefKey(s, r) in s.objects
  {
    RunIsGood(c, EMPTY, events);
  }

  // ---------------------------------------------------------------------------
  // When the code does not keep it
  // ---------------------------------------------------------------------------

  /**
   A new version keeps keys distinct exactly when no row names its key. Otherwise it is stored over the bytes of every
   row that does.
   */
  lemma PromotionKeepsDistinctIff(
    c: Config, s: Store, id: Uuid, name: string, row: VersionRow, body: Bytes, nonce: Nonce, encrypted: bool)
    requires Shaped(s) && KeysDistinct(s) && id in s.files && row.objectKey == s.files[id].objectKey
    ensures var s' := Promoted(c, s, id, name, row, body, nonce, encrypted); var key := NextKey(s, id, name);
            && (KeysDistinct(s') <==> Unused(s, key))
            && key in s'.objects && s'.objects[key] == Framed(c.cipher, nonce, body)
            && forall r: VersionId | IsRef(s, r) && RefKey(s, r) == key :: IsRef(s', r) && RefKey(s', r) == key
  {
    var s' := Promoted(c, s, id, name, row, body, nonce, encrypted);
    var raw := Framed(c.cipher, nonce, body);
    PromotedSupersedes(c, s, id, name, row, body, nonce, encrypted);
    NewVersionAdds(s, s', id, s'.files[id], row, raw);
    var last: VersionId := (id, s.files[id].version + 1);
    if r: VersionId :| IsRef(s, r) && RefKey(s, r) == NextKey(s, id, name) {
      assert IsRef(s', r) && IsRef(s', last) && r != last && !Apart(s', r, last);
    } else {
      AdditionKeepsDistinct(s, s', last, NextKey(s, id, name), raw);
    }
  }

  /** A successful `upload_version` keeps keys distinct exactly when no row names the new key. */
  lemma NewVersionKeepsKeysDistinctIff(
    c: Config, s: Store, user: string, id: Uuid, filename: Option<string>, body: Bytes, nonce: Nonce)
    requires Shaped(s) && KeysDistinct(s) && Live(s, id) && VersionFits(c, s, user, id, body)
    ensures var (s', r) := UploadVersion(c, s, user, id, filename, Some(body), nonce);
            r.Ok? && (KeysDistinct(s') <==> Unused(s, NextKey(s, id, DisplayName(s.files[id], filename))))
  {
    var file := s.files[id];
    PromotionKeepsDistinctIff(c, s, id, DisplayName(file, filename), VersionRow(file.objectKey, file.size, file.etag),
                              body, nonce, c.cipher.Some?);
  }

  /** So does a successful WOPI save. */
  lemma WopiSaveKeepsKeysDistinctIff(c: Config, s: Store, id: Uuid, body: Bytes, nonce: Nonce)
    requires Shaped(s) && KeysDistinct(s) && Live(s, id) && SaveFits(c, s, id, body)
    ensures var (s', r) := WopiPutFile(c, s, id, body, nonce);
            r.Ok? && (KeysDistinct(s') <==> Unused(s, NextKey(s, id, s.files[id].name)))
  {
    WopiSaveOutcome(c, s, id, body, nonce);
    var file := s.files[id];
    PromotionKeepsDistinctIff(c, s, id, file.name, VersionRow(file.objectKey, |body|, c.md5(body)), body, nonce,
                              file.encrypted);
  }

  /**
   An `upload_version` breaks the invariant exactly when it reaches its quota check and either the check refuses it
   or some row names its key. A refused one leaves a history row that names the live object, and the next pruning to one
   version deletes the live bytes.
   */
  lemma NewVersionKeepsInvIff(
    c: Config, s: Store, user: string, id: Uuid, filename: Option<string>, body: Option<Bytes>, nonce: Nonce)
    requires Inv(s)
    ensures var (s', r) := UploadVersion(c, s, user, id, filename, body, nonce);
            && (Inv(s') <==>
                  (ReachesQuota(s, id, body) ==>
                     && VersionFits(c, s, user, id, body.value)
                     && Unused(s, NextKey(s, id, DisplayName(s.files[id], filename)))))
            && (ReachesQuota(s, id, body) && !VersionFits(c, s, user, id, body.value) ==>
                  id in s'.files && s'.files[id].objectKey !in Prune(s', id, 1, {}).objects)
  {
    var (s', r) := UploadVersion(c, s, user, id, filename, body, nonce);
    if !ReachesQuota(s, id, body) {
      assert s' == s;
    } else if VersionFits(c, s, user, id, body.value) {
      NewVersionKeepsKeysDistinctIff(c, s, user, id, filename, body.value, nonce);
      if Unused(s, NextKey(s, id, DisplayName(s.files[id], filename))) {
        UploadVersionStep(c, s, user, id, filename, body, nonce);
      }
    } else {
      RefusedVersionLosesBytes(s, s', id);
    }
  }

  /** A history row that names the live object. */
  lemma RefusedVersionLosesBytes(s: Store, s': Store, id: Uuid)
    requires id in s.files && s'.files == s.files && s'.objects == s.objects
    requires (id, s.files[id].version) in s'.versions
    requires s'.versions[(id, s.files[id].version)].objectKey == s.files[id].objectKey
    ensures !KeysDistinct(s') && s.files[id].objectKey !in Prune(s', id, 1, {}).objects
  {
    var v := s.files[id].version;
    var d := ToEvict(s', id, 1);
    assert v in Stored(s', id) && d == Descending(Stored(s', id));
    EvictAllUnlinks(s', id, d, v);
  }

  lemma {:induction false} EvictAllUnlinks(s: Store, id: Uuid, vs: seq<nat>, v: nat)
    requires v in vs && (id, v) in s.versions
    ensures s.versions[(id, v)].objectKey !in EvictAll(s, id, vs, {}).objects
    decreases |vs|
  {
    var t := EvictOne(s, id, vs[0], {});
    if vs[0] == v {
      EvictAllShrinks(t, id, vs[1..], {});
    } else {
      EvictAllUnlinks(t, id, vs[1..], v);
    }
  }

  lemma {:induction false} EvictAllShrinks(s: Store, id: Uuid, vs: seq<nat>, stuck: set<string>)
    ensures var s' := EvictAll(s, id, vs, stuck);
            s'.objects.Keys <= s.objects.Keys && s'.files == s.files && s'.issued == s.issued
    decreases |vs|
  {
    if vs != [] { EvictAllShrinks(EvictOne(s, id, vs[0], stuck), id, vs[1..], stuck); }
  }
}

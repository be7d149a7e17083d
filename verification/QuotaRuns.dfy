/** Storage caps over whole runs, and exactly which operations can overrun them. */
module QuotaRuns {
  import opened Common
  import opened Storage
  import opened Schema
  import opened Quota
  import opened Lifecycle
  import opened KeyInvariants

  /** The check of `upload_version` looks at the uploader; it covers the creator only in these cases. */
  predicate UploaderCoversCreator(c: Config, file: FileRow, user: string) {
    file.createdBy == Some(user) || file.createdBy.None? || Cap(c, OfUser(file.createdBy.value)) <= 0
  }

  /** The check covers the creator, or the creator has room for the difference. */
  ghost predicate CreatorHasRoom(c: Config, s: Store, user: string, id: Uuid, size: nat)
    requires id in s.files
  {
    var f := s.files[id];
    UploaderCoversCreator(c, f, user)
    || Usage(s.files, OfUser(f.createdBy.value)) - f.size + size <= Cap(c, OfUser(f.createdBy.value))
  }

  /** The check that a restore omits. */
  ghost predicate RestoreFits(c: Config, s: Store, id: Uuid)
    requires id in s.files
  {
    var f := s.files[id];
    Enforce(c, s.files, f.size, Some(f.systemId), f.orgId, f.createdBy).Ok?
  }

  /** Scopes that a row enters when it takes another's place. */
  predicate Enters(before: FileRow, row: FileRow, scope: Scope) { InScope(row, scope) && !InScope(before, scope) }

  /** The check that a move omits. */
  ghost predicate MoveFits(c: Config, s: Store, id: Uuid, p: PatchFields)
    requires Patchable(c, s, id, p)
  {
    forall scope | Enters(s.files[id], PatchedRow(c, id, s.files[id], p), scope) ::
      Fits(c, s.files, s.files[id].size, scope)
  }

  /** A patch passes every check there is. */
  predicate PatchAccepted(c: Config, s: Store, id: Uuid, q: Request) {
    && Patchable(c, s, id, q.fields) && (Copies(c, id, s.files[id], q.fields) ==> Copying(c, s, id, q.fields))
    && PatchFits(c, s, id, q)
  }

  /** What the code does not check fits all the same. */
  ghost predicate Checked(c: Config, s: Store, e: Event) {
    match e
    case RestoreFile(id) => id in s.files && s.files[id].deletedAt.Some? ==> RestoreFits(c, s, id)
    case NewVersion(user, id, _, body, _) =>
      ReachesQuota(s, id, body) && (id, s.files[id].version) !in s.versions && VersionFits(c, s, user, id, body.value)
      ==> CreatorHasRoom(c, s, user, id, |body.value|)
    case PatchFile(id, q) => PatchAccepted(c, s, id, q) ==> MoveFits(c, s, id, q.fields)
    case _ => true
  }

  lemma InsertFileKeepsCaps(c: Config, s: Store, actor: string, f: UploadFields, id: Uuid, now: int, nonce: Nonce)
    requires WithinCaps(c, s.files)
    ensures WithinCaps(c, InsertFile(c, s, actor, f, id, now, nonce).0.files)
  {
    if InsertFile(c, s, actor, f, id, now, nonce).1.Ok? {
      AcceptedRowKeepsCaps(c, s.files, id, NewRow(c, actor, f, id, now), Some(actor));
    }
  }

  lemma UploadVersionKeepsCaps(
    c: Config, s: Store, user: string, id: Uuid, filename: Option<string>, body: Option<Bytes>, nonce: Nonce)
    requires WithinCaps(c, s.files) && (id in s.files ==> UploaderCoversCreator(c, s.files[id], user))
    ensures WithinCaps(c, UploadVersion(c, s, user, id, filename, body, nonce).0.files)
  {
    var (s', r) := UploadVersion(c, s, user, id, filename, body, nonce);
    if r.Ok? { AcceptedRowKeepsCaps(c, s.files, id, s'.files[id], Some(user)); }
  }

  lemma WopiSaveKeepsCaps(c: Config, s: Store, id: Uuid, body: Bytes, nonce: Nonce)
    requires WithinCaps(c, s.files)
    ensures WithinCaps(c, WopiPutFile(c, s, id, body, nonce).0.files)
  {
    var (s', r) := WopiPutFile(c, s, id, body, nonce);
    if r.Ok? { AcceptedRowKeepsCaps(c, s.files, id, s'.files[id], s.files[id].createdBy); }
  }

  lemma {:induction false} EvictAllFiles(s: Store, id: Uuid, vs: seq<nat>, stuck: set<string>)
    ensures EvictAll(s, id, vs, stuck).files == s.files
    decreases |vs|
  {
    if vs != [] { EvictAllFiles(EvictOne(s, id, vs[0], stuck), id, vs[1..], stuck); }
  }

  lemma TrashKeepsCaps(c: Config, s: Store, id: Uuid, now: int)
    requires WithinCaps(c, s.files) && id in s.files
    ensures WithinCaps(c, s.files[id := s.files[id].(deletedAt := Some(now))])
  {
    LighterRowKeepsCaps(c, s.files, id, s.files[id].(deletedAt := Some(now)));
  }

  lemma HardDeleteKeepsCaps(c: Config, s: Store, id: Uuid, stuck: set<string>)
    requires WithinCaps(c, s.files)
    ensures WithinCaps(c, HardDelete(s, id, stuck).files)
  {
    RemovedRowKeepsCaps(c, s.files, id);
  }

  lemma PruneKeepsCaps(c: Config, s: Store, id: Uuid, keep: int, stuck: set<string>)
    requires WithinCaps(c, s.files)
    ensures WithinCaps(c, Prune(s, id, keep, stuck).files)
  {
    EvictAllFiles(s, id, ToEvict(s, id, keep), stuck);
  }

  lemma RemovalKeepsCaps(c: Config, s: Store, e: Event)
    requires WithinCaps(c, s.files)
    requires e.TrashFile? || e.ArchiveFile? || e.PruneVersions? || e.HardDeleteFile? || e.PurgeFile?
    ensures WithinCaps(c, Step(c, s, e).files)
  {
    match e {
      case TrashFile(id, now) => if id in s.files { TrashKeepsCaps(c, s, id, now); }
      case PruneVersions(id, keep, stuck) => PruneKeepsCaps(c, s, id, keep, stuck);
      case ArchiveFile(id, now) => if Live(s, id) { TrashKeepsCaps(c, s, id, now); }
      case HardDeleteFile(id, stuck) => HardDeleteKeepsCaps(c, s, id, stuck);
      case PurgeFile(id, cutoff, stuck) => HardDeleteKeepsCaps(c, s, id, stuck);
    }
  }

  /** Restoring a file that is not in the trash changes nothing. */
  lemma RestoreLive(s: Store, id: Uuid)
    requires id in s.files ==> s.files[id].deletedAt.None?
    ensures Restore(s, id).files == s.files
  {
  }

  /** An event keeps the caps exactly when what the code does not check fits all the same. */
  lemma StepKeepsCapsIff(c: Config, s: Store, e: Event)
    requires WithinCaps(c, s.files)
    ensures WithinCaps(c, Step(c, s, e).files) <==> Checked(c, s, e)
  {
    match e {
      case Upload(actor, fields, id, now, nonce) =>
        InsertFileKeepsCaps(c, s, actor, WithDefaults(c, actor, fields), id, now, nonce);
      case FinishUpload(actor, fields, id, now, nonce) => InsertFileKeepsCaps(c, s, actor, fields, id, now, nonce);
      case NewVersion(user, id, filename, body, nonce) =>
        if UploadVersion(c, s, user, id, filename, body, nonce).1.Ok? {
          NewVersionKeepsCapsIff(c, s, user, id, filename, body, nonce);
        }
      case WopiSave(id, body, nonce) => WopiSaveKeepsCaps(c, s, id, body, nonce);
      case RestoreFile(id) =>
        if id in s.files && s.files[id].deletedAt.Some? { RestoreKeepsCapsIff(c, s, id); } else { RestoreLive(s, id); }
      case PatchFile(id, q) =>
        PatchOutcome(c, s, id, q);
        if PatchAccepted(c, s, id, q) { PatchKeepsCapsIff(c, s, id, q); }
      case _ => RemovalKeepsCaps(c, s, e);
    }
  }

  /** Caps hold after every serial run of checked events, and so do the quotas of the tables. */
  lemma {:induction false} RunKeepsCaps(c: Config, s: Store, events: seq<Event>)
    requires WithinCaps(c, s.files)
    requires forall i | 0 <= i < |events| :: Checked(c, Run(c, s, events[..i]), events[i])
    ensures WithinCaps(c, Run(c, s, events).files) && WithinQuotas(c, Run(c, s, events).files)
  {
    CapsAreQuotas(c, Run(c, s, events).files);
    if events != [] {
      var n := |events| - 1;
      var prefix := events[..n];
      forall i | 0 <= i < n
        ensures Checked(c, Run(c, s, prefix[..i]), prefix[i])
      {
        assert prefix[..i] == events[..i];
      }
      RunKeepsCaps(c, s, prefix);
      StepKeepsCapsIff(c, Run(c, s, prefix), events[n]);
    }
  }

  lemma RowWithoutRoomBreaksCap(c: Config, files: map<Uuid, FileRow>, id: Uuid, row: FileRow, scope: Scope)
    requires id in files && Weight(files[id], scope) == 0 && row.deletedAt.None? && InScope(row, scope)
    requires !Fits(c, files, row.size, scope)
    ensures !WithinCaps(c, files[id := row])
  {
    UsageUpdate(files, id, row, scope);
    assert Usage(files[id := row], scope) == Usage(files, scope) + row.size;
  }

  /** Restoring, which is not checked, keeps the caps exactly when the quota check would have accepted the file. */
  lemma RestoreKeepsCapsIff(c: Config, s: Store, id: Uuid)
    requires WithinCaps(c, s.files) && id in s.files && s.files[id].deletedAt.Some?
    ensures WithinCaps(c, Restore(s, id).files) <==> RestoreFits(c, s, id)
  {
    var f := s.files[id];
    var live := f.(deletedAt := None);
    if RestoreFits(c, s, id) {
      AcceptedRowKeepsCaps(c, s.files, id, live, f.createdBy);
    } else {
      var scope :| !Fits(c, s.files, f.size, scope) && InScope(live, scope);
      RowWithoutRoomBreaksCap(c, s.files, id, live, scope);
      assert Restore(s, id).files == s.files[id := live];
    }
  }

  /** An accepted new version keeps the caps exactly when the creator, too, has room for the difference. */
  lemma NewVersionKeepsCapsIff(
    c: Config, s: Store, user: string, id: Uuid, filename: Option<string>, body: Option<Bytes>, nonce: Nonce)
    requires WithinCaps(c, s.files) && UploadVersion(c, s, user, id, filename, body, nonce).1.Ok?
    ensures WithinCaps(c, UploadVersion(c, s, user, id, filename, body, nonce).0.files)
       <==> CreatorHasRoom(c, s, user, id, |body.value|)
  {
    var f := s.files[id];
    var s' := UploadVersion(c, s, user, id, filename, body, nonce).0;
    var row := s'.files[id];
    if UploaderCoversCreator(c, f, user) {
      UploadVersionKeepsCaps(c, s, user, id, filename, body, nonce);
    } else {
      UsageUpdate(s.files, id, row, OfUser(f.createdBy.value));
      forall scope | Cap(c, scope) > 0 && scope != OfUser(f.createdBy.value)
        ensures Usage(s'.files, scope) <= Cap(c, scope)
      {
        UsageUpdate(s.files, id, row, scope);
      }
    }
  }

  /**
   A change of system or org is not checked either: it keeps the caps exactly when every scope that the file enters has
   room for it.
   */
  lemma PatchKeepsCapsIff(c: Config, s: Store, id: Uuid, q: Request)
    requires WithinCaps(c, s.files) && ApplyPatch(c, s, id, q).1.Ok?
    ensures Patchable(c, s, id, q.fields)
    ensures WithinCaps(c, ApplyPatch(c, s, id, q).0.files) <==> MoveFits(c, s, id, q.fields)
  {
    PatchOutcome(c, s, id, q);
    var file := s.files[id];
    var row := PatchedRow(c, id, file, q.fields);
    forall scope
      ensures Usage(s.files[id := row], scope)
              == Usage(s.files, scope) + Weight(row, scope) - Weight(file, scope)
    {
      UsageUpdate(s.files, id, row, scope);
    }
    assert row.size == file.size;
    if WithinCaps(c, s.files[id := row]) {
      forall scope | Enters(file, row, scope)
        ensures Fits(c, s.files, file.size, scope)
      {
        assert Cap(c, scope) > 0 ==> Usage(s.files[id := row], scope) <= Cap(c, scope);
      }
    }
    if MoveFits(c, s, id, q.fields) {
      forall scope | Cap(c, scope) > 0
        ensures Usage(s.files[id := row], scope) <= Cap(c, scope)
      {
        assert Enters(file, row, scope) ==> Fits(c, s.files, file.size, scope);
      }
    }
  }
}

/**
 Runs in which no file is renamed or moved. There each key is still the one generated for its version under its name, so
 only a first version can be in the way of a new one, and never in the way of a WOPI save.
 */
module FirstNames {
  import opened Common
  import opened Decimal
  import opened ObjectKeys
  import opened Storage
  import opened Schema
  import opened Quota
  import opened Lifecycle
  import opened KeyInvariants
  import opened History

  predicate TailOk(v: nat, tail: string) {
    if v <= 1 then SafeName(tail)
    else
      match DecodeVersion(tail)
      case None => false
      case Some((digits, rest)) => digits == Dec(v) && SafeName(rest)
  }

  /** A key that the app generates for version `v` of the file. */
  predicate KeyOk(bucket: string, id: Uuid, v: nat, key: string) {
    var prefix := bucket + "/" + id + "-";
    prefix <= key && TailOk(v, key[|prefix|..])
  }

  /** The version's key was generated for it; a first version's from the name that its file still has. */
  predicate Named(s: Store, r: VersionId) {
    IsRef(s, r) ==>
      && r.0 in s.files && KeyOk(s.files[r.0].bucket, r.0, r.1, RefKey(s, r))
      && (r.1 == 1 ==> RefKey(s, r) == FirstKey(s.files[r.0].bucket, r.0, s.files[r.0].name))
  }

  ghost predicate AllNamed(s: Store) { forall r: VersionId :: Named(s, r) }

  lemma TailHasNoSlash(v: nat, tail: string)
    requires TailOk(v, tail)
    ensures '/' !in tail
  {
    if v <= 1 {
      assert forall ch | ch in tail :: !Bad(ch, false);
    } else {
      var (digits, rest) := DecodeVersion(tail).value;
      DecodeVersionInverse(tail);
      SafeTail(v, rest);
    }
  }

  /** A key tells its file, and its version unless one of the two is a first version. */
  lemma KeyTellsVersion(b1: string, i1: Uuid, v1: nat, b2: string, i2: Uuid, v2: nat, key: string)
    requires KeyOk(b1, i1, v1, key) && KeyOk(b2, i2, v2, key) && v1 >= 1 && v2 >= 1
    ensures i1 == i2 && (v1 == v2 || v1 == 1 || v2 == 1)
  {
    var t1 := key[|b1 + "/" + i1 + "-"|..];
    var t2 := key[|b2 + "/" + i2 + "-"|..];
    assert key == KeyOf(b1, i1, t1) == KeyOf(b2, i2, t2);
    TailHasNoSlash(v1, t1);
    TailHasNoSlash(v2, t2);
    DecodeKeyOf(b1, i1, t1);
    DecodeKeyOf(b2, i2, t2);
    if v1 >= 2 && v2 >= 2 { DecInjective(v1, v2); }
  }

  lemma GeneratedKeyOk(bucket: string, id: Uuid, n: nat, name: string)
    ensures n >= 2 ==> KeyOk(bucket, id, n, VersionKey(bucket, id, n, name))
    ensures KeyOk(bucket, id, 1, FirstKey(bucket, id, name))
  {
    SanitizeIsSafe(name);
    var prefix := bucket + "/" + id + "-";
    assert FirstKey(bucket, id, name) == prefix + Sanitize(name);
    assert (prefix + Sanitize(name))[|prefix|..] == Sanitize(name);
    var tail := VersionTail(n, Sanitize(name));
    assert VersionKey(bucket, id, n, name) == prefix + tail;
    assert (prefix + tail)[|prefix|..] == tail;
    DecodeVersionOf(n, Sanitize(name));
  }

  // ---------------------------------------------------------------------------
  // Steps
  // ---------------------------------------------------------------------------

  /** References that stay keep their key, bucket and name. */
  predicate SameNaming(s: Store, s': Store, r: VersionId) {
    IsRef(s, r) && IsRef(s', r) && r.0 in s.files ==>
      && r.0 in s'.files && RefKey(s', r) == RefKey(s, r)
      && s'.files[r.0].bucket == s.files[r.0].bucket && s'.files[r.0].name == s.files[r.0].name
  }

  lemma NamedFrame(s: Store, s': Store, r: VersionId)
    requires Named(s, r) && SameNaming(s, s', r) && (IsRef(s', r) ==> IsRef(s, r))
    ensures Named(s', r)
  {
  }

  lemma AddedFileNamed(s: Store, s': Store, id: Uuid, row: FileRow, raw: Bytes, r: VersionId)
    requires Shaped(s) && Named(s, r) && AddsFile(s, s', id, row, raw)
    requires KeyOk(row.bucket, id, 1, row.objectKey) && row.objectKey == FirstKey(row.bucket, id, row.name)
    ensures Named(s', r)
  {
  }

  lemma InsertFileNamed(
    c: Config, s: Store, actor: string, f: UploadFields, id: Uuid, now: int, nonce: Nonce, r: VersionId)
    requires Shaped(s) && id !in s.issued && Named(s, r)
    ensures Named(InsertFile(c, s, actor, f, id, now, nonce).0, r)
  {
    var s' := InsertFile(c, s, actor, f, id, now, nonce).0;
    if s' != s {
      InsertFileAdds(c, s, actor, f, id, now, nonce);
      var row := NewRow(c, actor, f, id, now);
      GeneratedKeyOk(row.bucket, id, 1, f.name.value);
      AddedFileNamed(s, s', id, row, Framed(c.cipher, nonce, f.body.value), r);
    }
  }

  lemma SupersededNamed(
    s: Store, s': Store, id: Uuid, row: FileRow, archived: VersionRow, raw: Bytes, r: VersionId)
    requires Shaped(s) && Named(s, r) && Supersedes(s, s', id, row, archived, raw)
    requires row.bucket == s.files[id].bucket && row.name == s.files[id].name
    requires KeyOk(row.bucket, id, row.version, row.objectKey)
    ensures Named(s', r)
  {
  }

  lemma PromotedNamed(
    c: Config, s: Store, id: Uuid, name: string, row: VersionRow, body: Bytes, nonce: Nonce, encrypted: bool,
    r: VersionId)
    requires Shaped(s) && Named(s, r) && id in s.files && row.objectKey == s.files[id].objectKey
    ensures Named(Promoted(c, s, id, name, row, body, nonce, encrypted), r)
  {
    var s' := Promoted(c, s, id, name, row, body, nonce, encrypted);
    PromotedSupersedes(c, s, id, name, row, body, nonce, encrypted);
    GeneratedKeyOk(s.files[id].bucket, id, s.files[id].version + 1, name);
    SupersededNamed(s, s', id, s'.files[id], row, Framed(c.cipher, nonce, body), r);
  }

  lemma UploadVersionNamed(
    c: Config, s: Store, user: string, id: Uuid, filename: Option<string>, body: Option<Bytes>, nonce: Nonce,
    r: VersionId)
    requires Shaped(s) && Named(s, r) && (ReachesQuota(s, id, body) ==> VersionFits(c, s, user, id, body.value))
    ensures Named(UploadVersion(c, s, user, id, filename, body, nonce).0, r)
  {
    if ReachesQuota(s, id, body) {
      var file := s.files[id];
      PromotedNamed(c, s, id, DisplayName(file, filename), VersionRow(file.objectKey, file.size, file.etag), body.value,
                    nonce, c.cipher.Some?, r);
    }
  }

  lemma WopiSaveNamed(c: Config, s: Store, id: Uuid, body: Bytes, nonce: Nonce, r: VersionId)
    requires Shaped(s) && Named(s, r)
    ensures Named(WopiPutFile(c, s, id, body, nonce).0, r)
  {
    WopiSaveOutcome(c, s, id, body, nonce);
    if Live(s, id) && SaveFits(c, s, id, body) {
      var file := s.files[id];
      var row := VersionRow(file.objectKey, |body|, c.md5(body));
      PromotedNamed(c, s, id, file.name, row, body, nonce, file.encrypted, r);
    }
  }

  lemma TrashNamed(s: Store, id: Uuid, deletedAt: Option<int>, r: VersionId)
    requires Named(s, r) && id in s.files
    ensures Named(s.(files := s.files[id := s.files[id].(deletedAt := deletedAt)]), r)
  {
  }

  lemma HardDeleteNamed(s: Store, id: Uuid, stuck: set<string>, r: VersionId)
    requires Shaped(s) && Named(s, r)
    ensures Named(HardDelete(s, id, stuck), r)
  {
    NamedFrame(s, HardDelete(s, id, stuck), r);
  }

  lemma PruneNamed(s: Store, id: Uuid, keep: int, stuck: set<string>, r: VersionId)
    requires Shaped(s) && Named(s, r)
    ensures Named(Prune(s, id, keep, stuck), r)
  {
    if keep > 0 { EvictAllDrops(s, id, ToEvict(s, id, keep), stuck); }
    FewerVersionsNamed(s, Prune(s, id, keep, stuck), r);
  }

  lemma FewerVersionsNamed(s: Store, s': Store, r: VersionId)
    requires Named(s, r) && s'.files == s.files
    requires r in s'.versions ==> r in s.versions && s'.versions[r] == s.versions[r]
    requires r in s.versions && r !in s'.versions ==> r.0 in s.files && s.files[r.0].version != r.1
    ensures Named(s', r)
  {
  }

  lemma RemovalNamed(c: Config, s: Store, e: Event, r: VersionId)
    requires Shaped(s) && Named(s, r) && OnlyRemoves(e)
    ensures Named(Step(c, s, e), r)
  {
    match e {
      case PruneVersions(id, keep, stuck) => PruneNamed(s, id, keep, stuck, r);
      case TrashFile(id, now) => if id in s.files { TrashNamed(s, id, Some(now), r); }
      case RestoreFile(id) => if id in s.files { TrashNamed(s, id, None, r); }
      case ArchiveFile(id, now) => if Live(s, id) { TrashNamed(s, id, Some(now), r); }
      case HardDeleteFile(id, stuck) => HardDeleteNamed(s, id, stuck, r);
      case PurgeFile(id, cutoff, stuck) => HardDeleteNamed(s, id, stuck, r);
    }
  }

  lemma StepNamed(c: Config, s: Store, e: Event, r: VersionId)
    requires Shaped(s) && Named(s, r) && Orderly(c, s, e) && !e.PatchFile?
    ensures Named(Step(c, s, e), r)
  {
    match e {
      case Upload(actor, fields, id, now, nonce) =>
        InsertFileNamed(c, s, actor, WithDefaults(c, actor, fields), id, now, nonce, r);
      case FinishUpload(actor, fields, id, now, nonce) => InsertFileNamed(c, s, actor, fields, id, now, nonce, r);
      case NewVersion(user, id, filename, body, nonce) =>
        UploadVersionNamed(c, s, user, id, filename, body, nonce, r);
      case WopiSave(id, body, nonce) => WopiSaveNamed(c, s, id, body, nonce, r);
      case _ => RemovalNamed(c, s, e, r);
    }
  }

  // ---------------------------------------------------------------------------
  // Runs without renames
  // ---------------------------------------------------------------------------

  ghost predicate WithoutPatches(events: seq<Event>) { forall e | e in events :: !e.PatchFile? }

  lemma {:induction false} RunNamed(c: Config, events: seq<Event>)
    requires OrderlyRun(c, EMPTY, events) && WithoutPatches(events)
    ensures Shaped(Run(c, EMPTY, events)) && AllNamed(Run(c, EMPTY, events))
  {
    if events != [] {
      var n := |events| - 1;
      var s := Run(c, EMPTY, events[..n]);
      OrderlyPrefix(c, EMPTY, events);
      RunNamed(c, events[..n]);
      StepKeepsShaped(c, s, events[n]);
      forall r: VersionId
        ensures Named(Step(c, s, events[n]), r)
      {
        StepNamed(c, s, events[n], r);
      }
    }
  }

  /** The next version under this name would get the key that the file's first version still has. */
  predicate HitsFirst(s: Store, id: Uuid, name: string)
    requires id in s.files
  {
    var first: VersionId := (id, 1);
    IsRef(s, first) && RefKey(s, first) == NextKey(s, id, name)
  }

  /** A generated key that is also one of a later version of some file. */
  lemma LaterKeyTells(b1: string, i1: Uuid, v: nat, b2: string, i2: Uuid, n: nat, name: string)
    requires v >= 1 && n >= 2 && KeyOk(b1, i1, v, VersionKey(b2, i2, n, name))
    ensures i1 == i2 && (v == n || v == 1)
  {
    GeneratedKeyOk(b2, i2, n, name);
    KeyTellsVersion(b1, i1, v, b2, i2, n, VersionKey(b2, i2, n, name));
  }

  lemma HitIsFirst(s: Store, id: Uuid, name: string, q: VersionId)
    requires Shaped(s) && Named(s, q) && id in s.files && IsRef(s, q) && RefKey(s, q) == NextKey(s, id, name)
    ensures q == (id, 1)
  {
    LaterKeyTells(s.files[q.0].bucket, q.0, q.1, s.files[id].bucket, id, s.files[id].version + 1, name);
  }

  /** Only the first version's key can be in the way of a new version. */
  lemma UnusedUnlessFirst(s: Store, id: Uuid, name: string)
    requires Shaped(s) && AllNamed(s) && id in s.files
    ensures Unused(s, NextKey(s, id, name)) <==> !HitsFirst(s, id, name)
  {
    forall q: VersionId | IsRef(s, q) && RefKey(s, q) == NextKey(s, id, name)
      ensures q == (id, 1)
    {
      assert Named(s, q);
      HitIsFirst(s, id, name, q);
    }
  }

  /** The key of a later version under the same name is longer. */
  lemma SameNameIsNotHit(s: Store, id: Uuid)
    requires AllNamed(s) && id in s.files
    ensures !HitsFirst(s, id, s.files[id].name)
  {
    var first: VersionId := (id, 1);
    assert Named(s, first);
    var tail := Sanitize(s.files[id].name);
    assert |VersionTail(s.files[id].version + 1, tail)| > |tail|;
  }

  /** In every run without renames, a WOPI save gets a key that no row names, whatever its files are called. */
  lemma SavesNeverOverwrite(c: Config, events: seq<Event>, id: Uuid)
    requires OrderlyRun(c, EMPTY, events) && WithoutPatches(events) && id in Run(c, EMPTY, events).files
    ensures var s := Run(c, EMPTY, events); Unused(s, NextKey(s, id, s.files[id].name))
  {
    var s := Run(c, EMPTY, events);
    RunNamed(c, events);
    SameNameIsNotHit(s, id);
    UnusedUnlessFirst(s, id, s.files[id].name);
  }

  /** A new version overwrites exactly when the first version, under the name of its own upload, has its key. */
  lemma OnlyFirstIsHit(c: Config, events: seq<Event>, id: Uuid, name: string)
    requires OrderlyRun(c, EMPTY, events) && WithoutPatches(events) && id in Run(c, EMPTY, events).files
    ensures var s := Run(c, EMPTY, events); var first: VersionId := (id, 1);
            Unused(s, NextKey(s, id, name)) <==>
              !(IsRef(s, first)
                && Sanitize(s.files[id].name) == VersionTail(s.files[id].version + 1, Sanitize(name)))
  {
    var s := Run(c, EMPTY, events);
    RunNamed(c, events);
    UnusedUnlessFirst(s, id, name);
    var first: VersionId := (id, 1);
    assert Named(s, first);
    if HitsFirst(s, id, name) {
      KeyTailInjective(s.files[id].bucket, id, Sanitize(s.files[id].name),
                       VersionTail(s.files[id].version + 1, Sanitize(name)));
    }
  }

  /** What such runs have to avoid: new versions refused for quota, or uploaded under the first version's key. */
  ghost predicate Plain(c: Config, s: Store, e: Event) {
    Orderly(c, s, e)
    && match e
       case NewVersion(_, id, filename, body, _) =>
         ReachesQuota(s, id, body) ==> !HitsFirst(s, id, DisplayName(s.files[id], filename))
       case _ => !e.PatchFile?
  }

  /** A run of plain events is admissible: saves need no condition. */
  lemma PlainRunIsAdmissible(c: Config, events: seq<Event>)
    requires forall i | 0 <= i < |events| :: Plain(c, Run(c, EMPTY, events[..i]), events[i])
    ensures AdmissibleRun(c, EMPTY, events)
  {
    forall i | 0 <= i < |events|
      ensures Admissible(c, Run(c, EMPTY, events[..i]), events[i])
    {
      var s, prefix := Run(c, EMPTY, events[..i]), events[..i];
      forall j | 0 <= j < i
        ensures Orderly(c, Run(c, EMPTY, prefix[..j]), prefix[j]) && !prefix[j].PatchFile?
      {
        assert prefix[..j] == events[..j] && Plain(c, Run(c, EMPTY, events[..j]), events[j]);
      }
      RunNamed(c, prefix);
      PlainIsAdmissible(c, s, events[i]);
    }
  }

  lemma PlainIsAdmissible(c: Config, s: Store, e: Event)
    requires Shaped(s) && AllNamed(s) && Plain(c, s, e)
    ensures Admissible(c, s, e)
  {
    match e {
      case NewVersion(_, id, filename, body, _) =>
        if ReachesQuota(s, id, body) { UnusedUnlessFirst(s, id, DisplayName(s.files[id], filename)); }
      case WopiSave(id, _, _) =>
        if id in s.files {
          SameNameIsNotHit(s, id);
          UnusedUnlessFirst(s, id, s.files[id].name);
        }
      case _ =>
    }
  }
}

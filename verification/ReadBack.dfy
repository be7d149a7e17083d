/**
 What users see of all this: over every run under one key setting, every version of every file reads back as
 exactly the body it was created with, and the current row's size and etag are those of its body.
 */
module ReadBack {
  import opened Common
  import opened ObjectKeys
  import opened Storage
  import opened Schema
  import opened Quota
  import opened Lifecycle
  import opened KeyInvariants
  import History

  /** The version that an event creates, with its body. */
  ghost function Created(c: Config, s: Store, e: Event): Option<(VersionId, Bytes)> {
    match e
    case Upload(actor, fields, id, now, nonce) =>
      if PersistUpload(c, s, actor, fields, id, now, nonce).1.Ok? then Some(((id, 1), fields.body.value)) else None
    case FinishUpload(actor, fields, id, now, nonce) =>
      if InsertFile(c, s, actor, fields, id, now, nonce).1.Ok? then Some(((id, 1), fields.body.value)) else None
    case NewVersion(user, id, filename, body, nonce) =>
      var r := UploadVersion(c, s, user, id, filename, body, nonce).1;
      if r.Ok? then Some(((id, r.value), body.value)) else None
    case WopiSave(id, body, nonce) =>
      var r := WopiPutFile(c, s, id, body, nonce).1;
      if r.Ok? then Some(((id, r.value), body)) else None
    case _ => None
  }

  /** The bodies that a run wrote, by file and version. */
  ghost function Written(c: Config, events: seq<Event>): map<VersionId, Bytes> {
    if events == [] then map[]
    else
      var n := |events| - 1;
      var before := Written(c, events[..n]);
      match Created(c, Run(c, EMPTY, events[..n]), events[n])
      case Some((r, body)) => before[r := body]
      case None => before
  }

  /** The row describes the body. */
  predicate Describes(c: Config, row: FileRow, body: Bytes) {
    row.size == |body| && row.etag == c.md5(body) && row.encrypted == c.cipher.Some?
  }

  /** Reading any version gives the body written for it. */
  ghost predicate ReadsBack(c: Config, s: Store, w: map<VersionId, Bytes>) {
    && (forall r: VersionId | IsRef(s, r) ::
          && r in w && RefKey(s, r) in s.objects
          && Unframed(c.cipher, c.cipher.Some?, s.objects[RefKey(s, r)]) == Ok(w[r]))
    && (forall id | id in s.files ::
          (id, s.files[id].version) in w && Describes(c, s.files[id], w[(id, s.files[id].version)]))
  }

  /** Nothing new appears, and surviving rows describe what they described. */
  ghost predicate OnlyShrinks(s: Store, s': Store) {
    && (forall r: VersionId | IsRef(s', r) :: IsRef(s, r))
    && (forall id | id in s'.files :: id in s.files && SameBody(s.files[id], s'.files[id]))
  }

  predicate SameBody(a: FileRow, b: FileRow) {
    a.version == b.version && a.size == b.size && a.etag == b.etag && a.encrypted == b.encrypted
  }

  /** The one new version is `n`, current in its file, framed under its key and described by its row. */
  ghost predicate OnlyAdds(c: Config, s: Store, s': Store, n: VersionId, body: Bytes, nonce: Nonce) {
    && n.0 in s'.files && s'.files[n.0].version == n.1 && n !in s'.versions && Describes(c, s'.files[n.0], body)
    && s'.files[n.0].objectKey in s'.objects && s'.objects[s'.files[n.0].objectKey] == Framed(c.cipher, nonce, body)
    && (forall r: VersionId | IsRef(s', r) :: r == n || IsRef(s, r))
    && (forall id | id in s'.files && id != n.0 :: id in s.files && SameBody(s.files[id], s'.files[id]))
  }

  lemma ShrinkingReadsBack(c: Config, s: Store, s': Store, w: map<VersionId, Bytes>)
    requires ReadsBack(c, s, w) && BytesKept(s, s', {}) && OnlyShrinks(s, s')
    ensures ReadsBack(c, s', w)
  {
    forall r: VersionId | IsRef(s', r)
      ensures RefKey(s', r) == RefKey(s, r) && RefKey(s, r) in s'.objects
              && s'.objects[RefKey(s, r)] == s.objects[RefKey(s, r)]
    {
      assert IsRef(s, r);
    }
  }

  lemma KeptVersionReadsBack(c: Config, s: Store, s': Store, w: map<VersionId, Bytes>, r: VersionId)
    requires ReadsBack(c, s, w) && BytesKept(s, s', {}) && IsRef(s, r) && IsRef(s', r)
    ensures r in w && RefKey(s', r) in s'.objects
    ensures Unframed(c.cipher, c.cipher.Some?, s'.objects[RefKey(s', r)]) == Ok(w[r])
  {
  }

  lemma AddingReadsBack(
    c: Config, s: Store, s': Store, w: map<VersionId, Bytes>, n: VersionId, body: Bytes, nonce: Nonce)
    requires Lawful(c.cipher) && ReadsBack(c, s, w) && BytesKept(s, s', {}) && OnlyAdds(c, s, s', n, body, nonce)
    requires !IsRef(s, n)
    ensures ReadsBack(c, s', w[n := body])
  {
    ReadBackIffFlagMatches(c.cipher, nonce, body, c.cipher.Some?);
    forall r: VersionId | IsRef(s', r) && r != n
      ensures r in w && RefKey(s', r) in s'.objects
      ensures Unframed(c.cipher, c.cipher.Some?, s'.objects[RefKey(s', r)]) == Ok(w[r])
    {
      KeptVersionReadsBack(c, s, s', w, r);
    }
  }

  // ---------------------------------------------------------------------------
  // Each event adds one version or none
  // ---------------------------------------------------------------------------

  lemma UploadAdds(c: Config, s: Store, actor: string, f: UploadFields, id: Uuid, now: int, nonce: Nonce)
    requires id !in s.files && forall r | r in s.versions :: r.0 in s.files
    ensures var (s', r) := InsertFile(c, s, actor, f, id, now, nonce);
            if r.Ok? then OnlyAdds(c, s, s', (id, 1), f.body.value, nonce) else OnlyShrinks(s, s')
  {
  }

  lemma PromotionAdds(
    c: Config, s: Store, id: Uuid, name: string, row: VersionRow, body: Bytes, nonce: Nonce, encrypted: bool)
    requires id in s.files && (id, s.files[id].version + 1) !in s.versions && encrypted == c.cipher.Some?
    ensures var n: VersionId := (id, s.files[id].version + 1);
            OnlyAdds(c, s, Promoted(c, s, id, name, row, body, nonce, encrypted), n, body, nonce)
  {
  }

  lemma EvictionShrinks(s: Store, id: Uuid, keep: int, stuck: set<string>)
    ensures OnlyShrinks(s, Prune(s, id, keep, stuck))
  {
    History.PruneKeepsFiles(s, id, keep, stuck);
    if keep > 0 { History.PruneKeepsNewest(s, id, keep, stuck); }
  }

  lemma PromotedReadsBack(
    c: Config, s: Store, w: map<VersionId, Bytes>, id: Uuid, name: string, row: VersionRow, body: Bytes, nonce: Nonce,
    encrypted: bool)
    requires Lawful(c.cipher) && Inv(s) && ReadsBack(c, s, w) && encrypted == c.cipher.Some?
    requires id in s.files && row.objectKey == s.files[id].objectKey && Unused(s, NextKey(s, id, name))
    ensures ReadsBack(c, Promoted(c, s, id, name, row, body, nonce, encrypted),
                      w[(id, s.files[id].version + 1) := body])
  {
    var n: VersionId := (id, s.files[id].version + 1);
    assert n !in s.versions && !IsRef(s, n);
    PromoteStep(c, s, id, name, row, body, nonce, encrypted);
    PromotionAdds(c, s, id, name, row, body, nonce, encrypted);
    AddingReadsBack(c, s, Promoted(c, s, id, name, row, body, nonce, encrypted), w, n, body, nonce);
  }

  lemma UploadVersionResult(
    c: Config, s: Store, user: string, id: Uuid, filename: Option<string>, body: Option<Bytes>, nonce: Nonce)
    requires Live(s, id) ==> (id, s.files[id].version) !in s.versions
    requires ReachesQuota(s, id, body) ==> VersionFits(c, s, user, id, body.value)
    ensures var (s', r) := UploadVersion(c, s, user, id, filename, body, nonce);
            if ReachesQuota(s, id, body) then
              var file := s.files[id];
              var row := VersionRow(file.objectKey, file.size, file.etag);
              && r == Ok(file.version + 1)
              && s' == Promoted(c, s, id, DisplayName(file, filename), row, body.value, nonce, c.cipher.Some?)
            else s' == s && r.Err?
  {
  }

  lemma UploadVersionReadsBack(
    c: Config, s: Store, w: map<VersionId, Bytes>, user: string, id: Uuid, filename: Option<string>,
    body: Option<Bytes>, nonce: Nonce)
    requires Lawful(c.cipher) && Inv(s) && ReadsBack(c, s, w)
    requires ReachesQuota(s, id, body) ==>
               VersionFits(c, s, user, id, body.value) && Unused(s, NextKey(s, id, DisplayName(s.files[id], filename)))
    ensures var (s', r) := UploadVersion(c, s, user, id, filename, body, nonce);
            ReadsBack(c, s', if r.Ok? then w[(id, r.value) := body.value] else w)
  {
    UploadVersionResult(c, s, user, id, filename, body, nonce);
    if ReachesQuota(s, id, body) {
      var file := s.files[id];
      PromotedReadsBack(c, s, w, id, DisplayName(file, filename), VersionRow(file.objectKey, file.size, file.etag),
                        body.value, nonce, c.cipher.Some?);
    }
  }

  lemma WopiSaveReadsBack(c: Config, s: Store, w: map<VersionId, Bytes>, id: Uuid, body: Bytes, nonce: Nonce)
    requires Lawful(c.cipher) && Inv(s) && ReadsBack(c, s, w)
    requires Live(s, id) && SaveFits(c, s, id, body) ==> Unused(s, NextKey(s, id, s.files[id].name))
    ensures var (s', r) := WopiPutFile(c, s, id, body, nonce);
            ReadsBack(c, s', if r.Ok? then w[(id, r.value) := body] else w)
  {
    WopiSaveOutcome(c, s, id, body, nonce);
    if Live(s, id) && SaveFits(c, s, id, body) {
      var file := s.files[id];
      var row := VersionRow(file.objectKey, |body|, c.md5(body));
      PromotedReadsBack(c, s, w, id, file.name, row, body, nonce, file.encrypted);
    }
  }

  /** A WOPI save keeps the row's flag: its body reads back exactly when that flag matches the key setting. */
  lemma WopiSaveReadsBackIff(c: Config, s: Store, id: Uuid, body: Bytes, nonce: Nonce)
    requires Lawful(c.cipher) && WopiPutFile(c, s, id, body, nonce).1.Ok?
    ensures var s' := WopiPutFile(c, s, id, body, nonce).0;
            && id in s.files && id in s'.files
            && (Fetch(c.cipher, s'.objects, s'.files[id].objectKey, s'.files[id].encrypted) == Ok(Some(body))
                <==> s.files[id].encrypted == c.cipher.Some?)
  {
    ReadBackIffFlagMatches(c.cipher, nonce, body, s.files[id].encrypted);
  }

  /** It labels the archived version with the new body: rightly exactly when sizes and etags agree. */
  lemma WopiSaveLabelsArchivedIff(c: Config, s: Store, id: Uuid, body: Bytes, nonce: Nonce)
    requires WopiPutFile(c, s, id, body, nonce).1.Ok?
    ensures var s', r := WopiPutFile(c, s, id, body, nonce).0, (id, s.files[id].version);
            && r in s'.versions && s'.versions[r].objectKey == s.files[id].objectKey
            && (s'.versions[r].size == s.files[id].size && s'.versions[r].etag == s.files[id].etag
                <==> |body| == s.files[id].size && c.md5(body) == s.files[id].etag)
  {
  }

  lemma InsertFileReadsBack(
    c: Config, s: Store, w: map<VersionId, Bytes>, actor: string, f: UploadFields, id: Uuid, now: int, nonce: Nonce)
    requires Lawful(c.cipher) && Inv(s) && ReadsBack(c, s, w) && id !in s.issued
    ensures var (s', r) := InsertFile(c, s, actor, f, id, now, nonce);
            ReadsBack(c, s', if r.Ok? then w[(id, 1) := f.body.value] else w)
  {
    var (s', r) := InsertFile(c, s, actor, f, id, now, nonce);
    InsertFileStep(c, s, actor, f, id, now, nonce);
    UploadAdds(c, s, actor, f, id, now, nonce);
    if r.Ok? {
      AddingReadsBack(c, s, s', w, (id, 1), f.body.value, nonce);
    } else {
      ShrinkingReadsBack(c, s, s', w);
    }
  }

  /** A patch that copies nothing. */
  lemma PatchShrinks(c: Config, s: Store, id: Uuid, q: Request)
    requires !Copying(c, s, id, q.fields)
    ensures OnlyShrinks(s, ApplyPatch(c, s, id, q).0)
  {
    PatchOutcome(c, s, id, q);
  }

  lemma UnmovedReadsBack(
    c: Config, s: Store, s': Store, w: map<VersionId, Bytes>, own: VersionId, r: VersionId)
    requires ReadsBack(c, s, w) && BytesKept(s, s', {own}) && IsRef(s, r) && IsRef(s', r) && r != own
    ensures r in w && RefKey(s', r) in s'.objects
    ensures Unframed(c.cipher, c.cipher.Some?, s'.objects[RefKey(s', r)]) == Ok(w[r])
  {
  }

  /** One version has a new object that holds the same body. */
  lemma MovedReadsBack(
    c: Config, s: Store, s': Store, w: map<VersionId, Bytes>, id: Uuid, key: string, nonce: Nonce)
    requires Lawful(c.cipher) && Inv(s) && ReadsBack(c, s, w) && id in s.files
    requires MovedRow(s, s', id, key) && SameBody(s.files[id], s'.files[id]) && s'.versions == s.versions
    requires BytesKept(s, s', {(id, s.files[id].version)})
    requires key in s'.objects && s'.objects[key] == Framed(c.cipher, nonce, w[(id, s.files[id].version)])
    ensures ReadsBack(c, s', w)
  {
    var own: VersionId := (id, s.files[id].version);
    RefsAfterMove(s, s', id, key);
    ReadBackIffFlagMatches(c.cipher, nonce, w[own], c.cipher.Some?);
    forall r: VersionId | IsRef(s', r)
      ensures r in w && RefKey(s', r) in s'.objects
      ensures Unframed(c.cipher, c.cipher.Some?, s'.objects[RefKey(s', r)]) == Ok(w[r])
    {
      if r != own { UnmovedReadsBack(c, s, s', w, own, r); }
    }
  }

  lemma CopyReadsBack(c: Config, s: Store, s': Store, w: map<VersionId, Bytes>, id: Uuid, q: Request)
    requires Lawful(c.cipher) && Inv(s) && ReadsBack(c, s, w) && s' == ApplyPatch(c, s, id, q).0
    requires Copying(c, s, id, q.fields) && PatchFits(c, s, id, q) && Unused(s, TargetKey(c, s, id, q.fields))
    requires BytesKept(s, s', {(id, s.files[id].version)})
    ensures ReadsBack(c, s', w)
  {
    PatchOutcome(c, s, id, q);
    CopiedBody(c, s, w, id, q);
    MovedReadsBack(c, s, s', w, id, TargetKey(c, s, id, q.fields), q.nonce);
  }

  lemma PatchReadsBack(c: Config, s: Store, s': Store, w: map<VersionId, Bytes>, id: Uuid, q: Request)
    requires Lawful(c.cipher) && Inv(s) && ReadsBack(c, s, w) && Admissible(c, s, PatchFile(id, q))
    requires s' == ApplyPatch(c, s, id, q).0
    ensures ReadsBack(c, s', w)
  {
    PatchStep(c, s, id, q);
    if Copying(c, s, id, q.fields) {
      CopyReadsBack(c, s, s', w, id, q);
    } else {
      PatchShrinks(c, s, id, q);
      ShrinkingReadsBack(c, s, s', w);
    }
  }

  /** What is copied is the body that was written. */
  lemma CopiedBody(c: Config, s: Store, w: map<VersionId, Bytes>, id: Uuid, q: Request)
    requires Inv(s) && ReadsBack(c, s, w) && Copying(c, s, id, q.fields) && PatchFits(c, s, id, q)
    requires Unused(s, TargetKey(c, s, id, q.fields))
    ensures var s', own, key := ApplyPatch(c, s, id, q).0, (id, s.files[id].version), TargetKey(c, s, id, q.fields);
            && own in w && MovedRow(s, s', id, key) && SameBody(s.files[id], s'.files[id])
            && key in s'.objects && s'.objects[key] == Framed(c.cipher, q.nonce, w[own])
  {
    var own: VersionId := (id, s.files[id].version);
    assert IsRef(s, own) && RefKey(s, own) == s.files[id].objectKey;
    assert ReadFile(c, s, id) == Ok(Some(w[own]));
    PatchOutcome(c, s, id, q);
  }

  lemma OtherEventShrinks(c: Config, s: Store, e: Event)
    requires History.OnlyRemoves(e)
    ensures OnlyShrinks(s, Step(c, s, e))
  {
    if e.PruneVersions? { EvictionShrinks(s, e.id, e.keep, e.stuck); }
  }

  lemma OtherEventReadsBack(c: Config, s: Store, s': Store, w: map<VersionId, Bytes>, e: Event)
    requires Inv(s) && ReadsBack(c, s, w) && History.OnlyRemoves(e) && s' == Step(c, s, e)
    ensures ReadsBack(c, s', w)
  {
    StepIsGood(c, s, e);
    OtherEventShrinks(c, s, e);
    ShrinkingReadsBack(c, s, s', w);
  }

  lemma StepReadsBack(c: Config, s: Store, w: map<VersionId, Bytes>, e: Event)
    requires Lawful(c.cipher) && Inv(s) && ReadsBack(c, s, w) && Admissible(c, s, e)
    ensures ReadsBack(c, Step(c, s, e), match Created(c, s, e) case Some((r, body)) => w[r := body] case None => w)
  {
    match e {
      case Upload(actor, fields, id, now, nonce) =>
        InsertFileReadsBack(c, s, w, actor, WithDefaults(c, actor, fields), id, now, nonce);
      case FinishUpload(actor, fields, id, now, nonce) => InsertFileReadsBack(c, s, w, actor, fields, id, now, nonce);
      case NewVersion(user, id, filename, body, nonce) =>
        UploadVersionReadsBack(c, s, w, user, id, filename, body, nonce);
      case WopiSave(id, body, nonce) => WopiSaveReadsBack(c, s, w, id, body, nonce);
      case PatchFile(id, q) => PatchReadsBack(c, s, Step(c, s, e), w, id, q);
      case _ => OtherEventReadsBack(c, s, Step(c, s, e), w, e);
    }
  }

  /** After any admissible run every version that is still stored, current or old, reads back as it was written. */
  lemma {:induction false} EveryVersionReadsBack(c: Config, events: seq<Event>)
    requires Lawful(c.cipher) && AdmissibleRun(c, EMPTY, events)
    ensures Inv(Run(c, EMPTY, events)) && ReadsBack(c, Run(c, EMPTY, events), Written(c, events))
  {
    RunIsGood(c, EMPTY, events);
    if events != [] {
      var n := |events| - 1;
      AdmissiblePrefix(c, EMPTY, events);
      EveryVersionReadsBack(c, events[..n]);
      StepReadsBack(c, Run(c, EMPTY, events[..n]), Written(c, events[..n]), events[n]);
    }
  }

  lemma {:induction false} WrittenArePast(c: Config, events: seq<Event>)
    requires AdmissibleRun(c, EMPTY, events)
    ensures forall r | r in Written(c, events) :: Past(Run(c, EMPTY, events), r)
  {
    RunIsGood(c, EMPTY, events);
    if events != [] {
      var n := |events| - 1;
      var s := Run(c, EMPTY, events[..n]);
      AdmissiblePrefix(c, EMPTY, events);
      RunIsGood(c, EMPTY, events[..n]);
      WrittenArePast(c, events[..n]);
      if Created(c, s, events[n]).Some? { CreatedIsNew(c, s, events[n]); }
      StepIsGood(c, s, events[n]);
    }
  }

  /** No version number is given out twice. */
  lemma CreatedIsNew(c: Config, s: Store, e: Event)
    requires Inv(s) && Admissible(c, s, e) && Created(c, s, e).Some?
    ensures !Past(s, Created(c, s, e).value.0) && Past(Step(c, s, e), Created(c, s, e).value.0)
  {
  }

  /** What was written for a version is never written again. */
  lemma WrittenOnce(c: Config, events: seq<Event>, r: VersionId)
    requires events != [] && AdmissibleRun(c, EMPTY, events) && r in Written(c, events[..|events| - 1])
    ensures r in Written(c, events) && Written(c, events)[r] == Written(c, events[..|events| - 1])[r]
  {
    var n := |events| - 1;
    var s := Run(c, EMPTY, events[..n]);
    AdmissiblePrefix(c, EMPTY, events);
    RunIsGood(c, EMPTY, events[..n]);
    WrittenArePast(c, events[..n]);
    if Created(c, s, events[n]).Some? { CreatedIsNew(c, s, events[n]); }
  }

  /** In particular a download returns the newest body, and its size and etag are in the row. */
  lemma DownloadIsNewestBody(c: Config, events: seq<Event>, id: Uuid)
    requires Lawful(c.cipher) && AdmissibleRun(c, EMPTY, events) && id in Run(c, EMPTY, events).files
    ensures var s := Run(c, EMPTY, events); var row := s.files[id];
            && (id, row.version) in Written(c, events)
            && var body := Written(c, events)[(id, row.version)];
               && Fetch(c.cipher, s.objects, row.objectKey, row.encrypted) == Ok(Some(body))
               && row.size == |body| && row.etag == c.md5(body)
  {
    EveryVersionReadsBack(c, events);
    var s := Run(c, EMPTY, events);
    var r: VersionId := (id, s.files[id].version);
    assert IsRef(s, r) && r !in s.versions && RefKey(s, r) == s.files[id].objectKey;
  }
}

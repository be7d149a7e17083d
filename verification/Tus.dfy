/**
 TUS 1.0.0 resumable uploads: create, HEAD, PATCH with finalisation, DELETE and the reaping of expired
 sessions, handled one request at a time. A completed session is a one-shot upload of the joined chunks.
 */
module Tus {
  import opened Common
  import opened Storage
  import opened Schema
  import opened Quota
  import opened Lifecycle
  import opened FileServer

  /** A `tus_uploads` row; `completed` holds file_id once finalised. */
  datatype Session = Session(
    owner: string, length: nat, offset: nat, filename: Option<string>, systemId: string,
    orgId: Option<string>, folderId: Option<string>, expiresAt: int, completed: Option<Uuid>)

  /**
   Sessions, their `<id>.part` blobs, and the file server. `issuedIds` records the session ids ever issued and
   `made` every files row that a finalisation inserted.
   */
  datatype State = State(
    sessions: map<Uuid, Session>, blobs: map<Uuid, Bytes>, store: Store, issuedIds: set<Uuid>,
    made: seq<(Uuid, Uuid)>)

  /** A PATCH request. */
  datatype Chunk = Chunk(user: string, id: Uuid, offset: Option<int>, contentType: string, body: Bytes)

  /**
   What a finalisation draws or meets: the new file's id, the clock, the nonce, and whether the blob's removal
   works.
   */
  datatype Finish = Finish(fileId: Uuid, now: int, nonce: Nonce, removed: bool)

  const CHUNK_TYPE: string := "application/offset+octet-stream"

  /** Metadata values that are empty strings count as absent. */
  function Pick(meta: map<string, string>, key: string): Option<string> {
    if key in meta && meta[key] != "" then Some(meta[key]) else None
  }

  /** Foreign keys of a `tus_uploads` row. */
  predicate SessionKeysHold(c: Config, x: Session) {
    && x.systemId in c.systems && x.owner in c.userQuota
    && (x.orgId.Some? ==> x.orgId.value in c.orgQuota) && (x.folderId.Some? ==> x.folderId.value in c.folders)
  }

  function Create(c: Config, s: State, user: string, length: Option<int>, meta: map<string, string>, id: Uuid, now: int)
    : (State, Result<()>)
  {
    if length.None? || length.value < 0 || Pick(meta, "system_id").None? then (s, Err(BadRequest))
    else
      var x := Session(user, length.value, 0, Pick(meta, "filename"), Pick(meta, "system_id").value,
                       Pick(meta, "org_id"), Pick(meta, "folder_id"), now + DAY, None);
      var created := s.(blobs := s.blobs[id := []], issuedIds := s.issuedIds + {id});
      if !SessionKeysHold(c, x) then (created, Err(Other)) else (created.(sessions := s.sessions[id := x]), Ok(()))
  }

  function Head(s: State, user: string, id: Uuid): Result<(nat, nat)> {
    if id !in s.sessions then Err(NotFound)
    else if s.sessions[id].owner != user then Err(Forbidden)
    else Ok((s.sessions[id].offset, s.sessions[id].length))
  }

  /** The checks of a PATCH, in order. */
  function CheckPatch(s: State, q: Chunk): Result<()> {
    if q.id !in s.sessions then Err(NotFound)
    else
      var x := s.sessions[q.id];
      if x.owner != q.user then Err(Forbidden)
      else if q.offset.None? || q.offset.value != x.offset then Err(BadRequest)
      else if q.contentType != CHUNK_TYPE then Err(BadRequest)
      else if x.offset + |q.body| > x.length then Err(BadRequest)
      else if q.id !in s.blobs then Err(Other)
      else Ok(())
  }

  function NameOf(x: Session, id: Uuid): string {
    if x.filename.Some? then x.filename.value else "upload-" + id + ".bin"
  }

  /** The form a one-shot upload of the same bytes would send. */
  function FieldsOf(x: Session, id: Uuid, body: Bytes): UploadFields {
    UploadFields(Some(NameOf(x, id)), Some(body), Some(x.systemId), x.orgId, x.folderId)
  }

  function RemoveBlob(s: State, id: Uuid, removed: bool): State {
    if removed then s.(blobs := s.blobs - {id}) else s
  }

  /** `finalise` inserts a session's bytes as a file. */
  ghost function Inserted(c: Config, store: Store, user: string, x: Session, id: Uuid, bytes: Bytes, fin: Finish)
    : (Store, Result<Uuid>)
  {
    InsertFile(c, store, user, FieldsOf(x, id, bytes), fin.fileId, fin.now, fin.nonce)
  }

  /** The session is completed by the file just inserted. */
  function Completed(s: State, id: Uuid, store: Store, fin: Finish): State
    requires id in s.sessions
  {
    var done := s.(store := store, sessions := s.sessions[id := s.sessions[id].(completed := Some(fin.fileId))],
                   made := s.made + [(id, fin.fileId)]);
    RemoveBlob(done, id, fin.removed)
  }

  ghost function Finalise(c: Config, s: State, user: string, id: Uuid, fin: Finish): (State, Result<()>)
    requires id in s.sessions && id in s.blobs
  {
    var (store, r) := Inserted(c, s.store, user, s.sessions[id], id, s.blobs[id], fin);
    if r.Err? then (s.(store := store), Err(r.error)) else (Completed(s, id, store, fin), Ok(()))
  }

  /** The bytes and the new offset are on record before anything is finalised. */
  function Append(s: State, id: Uuid, body: Bytes): State
    requires id in s.sessions && id in s.blobs
  {
    s.(blobs := s.blobs[id := s.blobs[id] + body],
       sessions := s.sessions[id := s.sessions[id].(offset := s.sessions[id].offset + |body|)])
  }

  ghost function Patch(c: Config, s: State, q: Chunk, fin: Finish): (State, Result<nat>) {
    var check := CheckPatch(s, q);
    if check.Err? then (s, Err(check.error))
    else
      var t := Append(s, q.id, q.body);
      if t.sessions[q.id].offset != t.sessions[q.id].length then (t, Ok(t.sessions[q.id].offset))
      else
        var (u, r) := Finalise(c, t, q.user, q.id, fin);
        (u, if r.Err? then Err(r.error) else Ok(t.sessions[q.id].offset))
  }

  function Terminate(s: State, user: string, id: Uuid, removed: bool): (State, Result<()>) {
    if id !in s.sessions || s.sessions[id].completed.Some? then (s, Err(NotFound))
    else if s.sessions[id].owner != user then (s, Err(Forbidden))
    else (RemoveBlob(s.(sessions := s.sessions - {id}), id, removed), Ok(()))
  }

  predicate Expired(s: State, id: Uuid, now: int) {
    id in s.sessions && s.sessions[id].completed.None? && s.sessions[id].expiresAt < now
  }

  /** `reap_tus_uploads`; `stuck` are the blobs whose removal fails. */
  function Reap(s: State, now: int, stuck: set<Uuid>): State {
    s.(blobs := map id | id in s.blobs && (!Expired(s, id, now) || id in stuck) :: s.blobs[id],
       sessions := map id | id in s.sessions && !Expired(s, id, now) :: s.sessions[id])
  }

  function ExpiredIds(s: State, now: int): set<Uuid> { set id | id in s.sessions && Expired(s, id, now) }

  lemma RemoveOneMore<T>(m: map<Uuid, T>, gone: set<Uuid>, more: set<Uuid>)
    ensures (m - gone) - more == m - (gone + more)
  {
  }

  lemma ForgetOneMore<S, T>(m: map<Uuid, S>, b: map<Uuid, T>, gone: set<Uuid>, id: Uuid, stuck: set<Uuid>)
    ensures (m - gone) - {id} == m - (gone + {id})
    ensures (b - (gone - stuck)) - ({id} - stuck) == b - ((gone + {id}) - stuck)
  {
    RemoveOneMore(m, gone, {id});
    RemoveOneMore(b, gone - stuck, {id} - stuck);
    assert (gone + {id}) - stuck == (gone - stuck) + ({id} - stuck);
  }

  lemma ReapRemovesExpired(s: State, now: int, stuck: set<Uuid>)
    ensures Reap(s, now, stuck).sessions == s.sessions - ExpiredIds(s, now)
    ensures Reap(s, now, stuck).blobs == s.blobs - (ExpiredIds(s, now) - stuck)
  {
  }

  // ---------------------------------------------------------------------------
  // Runs
  // ---------------------------------------------------------------------------

  datatype Event =
    | CreateSession(user: string, length: Option<int>, meta: map<string, string>, id: Uuid, now: int)
    | HeadSession(user: string, id: Uuid)
    | PatchSession(q: Chunk, fin: Finish)
    | TerminateSession(user: string, id: Uuid, removed: bool)
    | ReapSessions(now: int, stuck: set<Uuid>)
    | FileEvent(e: Lifecycle.Event)           // any other request or worker step on files

  ghost function Step(c: Config, s: State, e: Event): State {
    match e
    case CreateSession(user, length, meta, id, now) => Create(c, s, user, length, meta, id, now).0
    case HeadSession(_, _) => s
    case PatchSession(q, fin) => Patch(c, s, q, fin).0
    case TerminateSession(user, id, removed) => Terminate(s, user, id, removed).0
    case ReapSessions(now, stuck) => Reap(s, now, stuck)
    case FileEvent(e) => s.(store := Lifecycle.Step(c, s.store, e))
  }

  ghost function Run(c: Config, s: State, events: seq<Event>): State {
    if events == [] then s else Step(c, Run(c, s, events[..|events| - 1]), events[|events| - 1])
  }

  /** Session ids are fresh, and the temp blob of a finished upload is removed. */
  predicate Regular(s: State, e: Event) {
    match e
    case CreateSession(_, _, _, id, _) => id !in s.issuedIds
    case PatchSession(_, fin) => fin.removed
    case _ => true
  }

  ghost predicate RegularRun(c: Config, s: State, events: seq<Event>) {
    forall i | 0 <= i < |events| :: Regular(Run(c, s, events[..i]), events[i])
  }

  /** The chunk an event adds to a session. */
  function Accepted(s: State, e: Event, id: Uuid): Bytes {
    if e.PatchSession? && e.q.id == id && CheckPatch(s, e.q).Ok? then e.q.body else []
  }

  /** All chunks accepted for a session in a run, joined. */
  ghost function Received(c: Config, s: State, events: seq<Event>, id: Uuid): Bytes {
    if events == [] then []
    else
      var n := |events| - 1;
      Received(c, s, events[..n], id) + Accepted(Run(c, s, events[..n]), events[n], id)
  }

  /** How many files rows the finalisations of a session inserted. */
  function Made(made: seq<(Uuid, Uuid)>, id: Uuid): nat {
    if made == [] then 0
    else Made(made[..|made| - 1], id) + (if made[|made| - 1].0 == id then 1 else 0)
  }

  /** The session's part of the invariant: an open session's blob is as long as its offset. */
  predicate SessionOk(s: State, id: Uuid) {
    && (id in s.sessions || id in s.blobs ==> id in s.issuedIds)
    && (id in s.sessions ==>
          var x := s.sessions[id];
          && x.offset <= x.length
          && (x.completed.None? ==> id in s.blobs && |s.blobs[id]| == x.offset)
          && (x.completed.Some? ==> id !in s.blobs && x.offset == x.length)
          && Made(s.made, id) == if x.completed.Some? then 1 else 0)
    && (id !in s.issuedIds ==> Made(s.made, id) == 0)
  }

  ghost predicate Inv(s: State) { forall id: Uuid :: SessionOk(s, id) }

  lemma MadeAppend(made: seq<(Uuid, Uuid)>, x: (Uuid, Uuid), id: Uuid)
    ensures Made(made + [x], id) == Made(made, id) + (if x.0 == id then 1 else 0)
  {
    assert (made + [x])[..|made|] == made;
  }

  lemma PatchKeepsSession(c: Config, s: State, q: Chunk, fin: Finish, id: Uuid)
    requires SessionOk(s, id) && SessionOk(s, q.id) && fin.removed
    ensures SessionOk(Patch(c, s, q, fin).0, id)
  {
    MadeAppend(s.made, (q.id, fin.fileId), id);
  }

  lemma StepKeepsSession(c: Config, s: State, e: Event, id: Uuid)
    requires SessionOk(s, id) && (e.PatchSession? ==> SessionOk(s, e.q.id)) && Regular(s, e)
    ensures SessionOk(Step(c, s, e), id)
  {
    if e.PatchSession? { PatchKeepsSession(c, s, e.q, e.fin, id); }
  }

  lemma StepKeepsInv(c: Config, s: State, e: Event)
    requires Inv(s) && Regular(s, e)
    ensures Inv(Step(c, s, e))
  {
    forall id: Uuid
      ensures SessionOk(Step(c, s, e), id)
    {
      assert SessionOk(s, id) && (e.PatchSession? ==> SessionOk(s, e.q.id));
      StepKeepsSession(c, s, e, id);
    }
  }

  /** A PATCH that fails a check changes nothing at all. */
  lemma RejectedPatchChangesNothing(c: Config, s: State, q: Chunk, fin: Finish)
    requires !(q.id in s.sessions && s.sessions[q.id].owner == q.user
               && q.offset == Some(s.sessions[q.id].offset as int)
               && q.contentType == CHUNK_TYPE && s.sessions[q.id].offset + |q.body| <= s.sessions[q.id].length)
    ensures var (t, r) := Patch(c, s, q, fin);
            t == s && r.Err?
  {
  }

  // ---------------------------------------------------------------------------
  // Bytes over runs
  // ---------------------------------------------------------------------------

  /** What the run so far says about a session. */
  ghost predicate Faithful(s: State, id: Uuid, received: Bytes) {
    && (id !in s.issuedIds ==> received == [])
    && (id in s.sessions ==> |received| == s.sessions[id].offset)
    && (id in s.sessions && s.sessions[id].completed.None? ==> id in s.blobs && s.blobs[id] == received)
  }

  lemma PatchFaithful(c: Config, s: State, q: Chunk, fin: Finish, id: Uuid, received: Bytes)
    requires SessionOk(s, id) && SessionOk(s, q.id) && Faithful(s, id, received)
    ensures Faithful(Patch(c, s, q, fin).0, id, received + Accepted(s, PatchSession(q, fin), id))
  {
    assert received + [] == received;
  }

  lemma StepFaithful(c: Config, s: State, e: Event, id: Uuid, received: Bytes)
    requires Inv(s) && Regular(s, e) && Faithful(s, id, received)
    ensures Faithful(Step(c, s, e), id, received + Accepted(s, e, id))
  {
    assert SessionOk(s, id);
    if e.PatchSession? {
      assert SessionOk(s, e.q.id);
      PatchFaithful(c, s, e.q, e.fin, id, received);
    } else {
      assert received + [] == received;
    }
  }

  lemma RegularPrefix(c: Config, s: State, events: seq<Event>, k: nat)
    requires RegularRun(c, s, events) && k <= |events|
    ensures RegularRun(c, s, events[..k])
  {
    forall i | 0 <= i < k
      ensures Regular(Run(c, s, events[..k][..i]), events[..k][i])
    {
      assert events[..k][..i] == events[..i];
    }
  }

  const FRESH: State := State(map[], map[], EMPTY, {}, [])

  /** In every run, an open session's blob is the concatenation of the chunks accepted for it. */
  lemma {:induction false} BlobIsAcceptedChunks(c: Config, events: seq<Event>, id: Uuid)
    requires RegularRun(c, FRESH, events)
    ensures var s := Run(c, FRESH, events);
            Inv(s) && Faithful(s, id, Received(c, FRESH, events, id))
  {
    if events != [] {
      var n := |events| - 1;
      RegularPrefix(c, FRESH, events, n);
      BlobIsAcceptedChunks(c, events[..n], id);
      assert events[..n][..n] == events[..n];
      var s := Run(c, FRESH, events[..n]);
      StepKeepsInv(c, s, events[n]);
      StepFaithful(c, s, events[n], id, Received(c, FRESH, events[..n], id));
    }
  }

  // ---------------------------------------------------------------------------
  // Completion is a one-shot upload
  // ---------------------------------------------------------------------------

  predicate Done(s: State, id: Uuid) { id in s.sessions && s.sessions[id].completed.Some? }

  /** Event `e` completes session `id` from state `s`: the store changes as by one upload of all its bytes. */
  ghost predicate CompletesAsOneShot(c: Config, s: State, e: Event, id: Uuid, bytes: Bytes) {
    && e.PatchSession? && e.q.id == id && CheckPatch(s, e.q).Ok? && !Done(s, id)
    && bytes == s.blobs[id] + e.q.body
    && Inserted(c, s.store, s.sessions[id].owner, s.sessions[id], id, bytes, e.fin)
       == (Step(c, s, e).store, Ok(e.fin.fileId))
    && Done(Step(c, s, e), id) && Step(c, s, e).sessions[id].completed == Some(e.fin.fileId)
  }

  lemma CompletingStep(c: Config, s: State, e: Event, id: Uuid, received: Bytes)
    requires Inv(s) && Regular(s, e) && Faithful(s, id, received)
    requires Done(Step(c, s, e), id) && !Done(s, id)
    ensures CompletesAsOneShot(c, s, e, id, received + Accepted(s, e, id))
  {
  }

  lemma LaterStepKeepsCompletion(c: Config, s: State, e: Event, id: Uuid)
    requires Inv(s) && Regular(s, e) && Done(s, id)
    ensures Accepted(s, e, id) == []
    ensures Done(Step(c, s, e), id) && Step(c, s, e).sessions[id] == s.sessions[id]
  {
    assert SessionOk(s, id);
  }

  /** Step `k` of the run completes the session. */
  ghost predicate CompletedBy(c: Config, events: seq<Event>, k: nat, id: Uuid, bytes: Bytes) {
    k < |events| && CompletesAsOneShot(c, Run(c, FRESH, events[..k]), events[k], id, bytes)
  }

  lemma CompletedEarlier(c: Config, events: seq<Event>, n: nat, k: nat, id: Uuid, bytes: Bytes)
    requires n <= |events| && CompletedBy(c, events[..n], k, id, bytes)
    ensures CompletedBy(c, events, k, id, bytes)
  {
    assert events[..n][..k] == events[..k];
  }

  lemma LastStepCompletes(c: Config, events: seq<Event>, id: Uuid)
    requires RegularRun(c, FRESH, events) && events != []
    requires Done(Run(c, FRESH, events), id) && !Done(Run(c, FRESH, events[..|events| - 1]), id)
    ensures CompletedBy(c, events, |events| - 1, id, Received(c, FRESH, events, id))
    ensures Run(c, FRESH, events).sessions[id].completed == Some(events[|events| - 1].fin.fileId)
  {
    var n := |events| - 1;
    RegularPrefix(c, FRESH, events, n);
    BlobIsAcceptedChunks(c, events[..n], id);
    CompletingStep(c, Run(c, FRESH, events[..n]), events[n], id, Received(c, FRESH, events[..n], id));
  }

  lemma LastStepKeepsCompletion(c: Config, events: seq<Event>, id: Uuid)
    requires RegularRun(c, FRESH, events) && events != []
    requires Done(Run(c, FRESH, events[..|events| - 1]), id)
    ensures Done(Run(c, FRESH, events), id)
    ensures var n := |events| - 1;
            && Received(c, FRESH, events, id) == Received(c, FRESH, events[..n], id)
            && Run(c, FRESH, events).sessions[id] == Run(c, FRESH, events[..n]).sessions[id]
  {
    var n := |events| - 1;
    RegularPrefix(c, FRESH, events, n);
    BlobIsAcceptedChunks(c, events[..n], id);
    LaterStepKeepsCompletion(c, Run(c, FRESH, events[..n]), events[n], id);
  }

  /** A completed session was completed by one step, with all the bytes received. */
  lemma {:induction false} CompletedAt(c: Config, events: seq<Event>, id: Uuid) returns (k: nat)
    requires RegularRun(c, FRESH, events) && Done(Run(c, FRESH, events), id)
    ensures CompletedBy(c, events, k, id, Received(c, FRESH, events, id))
    ensures Run(c, FRESH, events).sessions[id].completed == Some(events[k].fin.fileId)
  {
    var n := |events| - 1;
    if Done(Run(c, FRESH, events[..n]), id) {
      RegularPrefix(c, FRESH, events, n);
      LastStepKeepsCompletion(c, events, id);
      k := CompletedAt(c, events[..n], id);
      CompletedEarlier(c, events, n, k, id, Received(c, FRESH, events, id));
    } else {
      LastStepCompletes(c, events, id);
      k := n;
    }
  }

  /** It has announced exactly those bytes and inserted exactly one files row. */
  lemma CompletedSessionIsOneShotUpload(c: Config, events: seq<Event>, id: Uuid) returns (k: nat)
    requires RegularRun(c, FRESH, events) && Done(Run(c, FRESH, events), id)
    ensures var s := Run(c, FRESH, events); var bytes := Received(c, FRESH, events, id);
            && |bytes| == s.sessions[id].length && Made(s.made, id) == 1
            && CompletedBy(c, events, k, id, bytes)
            && s.sessions[id].completed == Some(events[k].fin.fileId)
  {
    k := CompletedAt(c, events, id);
    BlobIsAcceptedChunks(c, events, id);
    assert SessionOk(Run(c, FRESH, events), id);
  }

  /**
   A finalisation the server accepts is `persist_upload_for` itself exactly when the org is given or the owner has no
   default org: the upload form falls back on the default, `finalise` does not.
   */
  lemma OneShotIsPersistUploadIff(c: Config, store: Store, x: Session, id: Uuid, bytes: Bytes, fin: Finish)
    requires fin.fileId !in store.files && Inserted(c, store, x.owner, x, id, bytes, fin).1.Ok?
    ensures Inserted(c, store, x.owner, x, id, bytes, fin)
            == PersistUpload(c, store, x.owner, FieldsOf(x, id, bytes), fin.fileId, fin.now, fin.nonce)
       <==> x.orgId.Some? || x.owner !in c.userDefaults || c.userDefaults[x.owner].orgId.None?
  {
    var f := FieldsOf(x, id, bytes);
    var p := PersistUpload(c, store, x.owner, f, fin.fileId, fin.now, fin.nonce);
    if x.orgId.Some? || x.owner !in c.userDefaults || c.userDefaults[x.owner].orgId.None? {
      assert WithDefaults(c, x.owner, f) == f;
    } else if p.1.Ok? {
      assert p.0.files[fin.fileId].orgId.Some?;
      assert Inserted(c, store, x.owner, x, id, bytes, fin).0.files[fin.fileId].orgId.None?;
    }
  }

  /** A finalisation that fails keeps every byte and the session open at its full offset. */
  lemma FailedFinaliseKeepsBytes(c: Config, s: State, q: Chunk, fin: Finish)
    requires Inv(s) && CheckPatch(s, q).Ok? && Patch(c, s, q, fin).1.Err?
    ensures var t := Patch(c, s, q, fin).0;
            && q.id in t.sessions && !Done(t, q.id) && t.sessions[q.id].offset == t.sessions[q.id].length
            && q.id in t.blobs && t.blobs[q.id] == s.blobs[q.id] + q.body
            && t.store.files == s.store.files && t.made == s.made
  {
    assert SessionOk(s, q.id);
  }

  /** The owner's empty PATCH at the full offset. */
  function Retry(x: Session, id: Uuid): Chunk { Chunk(x.owner, id, Some(x.length), CHUNK_TYPE, []) }

  lemma EmptyAppend(s: State, id: Uuid)
    requires id in s.sessions && id in s.blobs
    ensures Append(s, id, []) == s
  {
    assert s.blobs[id] + [] == s.blobs[id];
    assert Append(s, id, []).blobs == s.blobs;
    assert Append(s, id, []).sessions == s.sessions;
  }

  /** The guards of a finalisation: quota and the foreign keys of the new row. */
  ghost predicate Finalisable(c: Config, s: State, id: Uuid, size: nat)
    requires id in s.sessions
  {
    var x := s.sessions[id];
    SessionKeysHold(c, x) && Enforce(c, s.store.files, size, Some(x.systemId), x.orgId, Some(x.owner)).Ok?
  }

  /** The retry is an empty PATCH at the full offset: it finalises the bytes already there, if they fit now. */
  lemma EmptyPatchRetriesFinalise(c: Config, s: State, id: Uuid, fin: Finish)
    requires Inv(s) && id in s.sessions && !Done(s, id) && s.sessions[id].offset == s.sessions[id].length
    ensures id in s.blobs
    ensures var x := s.sessions[id]; var (t, r) := Patch(c, s, Retry(x, id), fin);
            && (r.Ok? <==> Finalisable(c, s, id, x.length))
            && (r.Ok? <==> Done(t, id))
            && (r.Ok? ==> (t.store, Ok(fin.fileId)) == Inserted(c, s.store, x.owner, x, id, s.blobs[id], fin))
  {
    assert SessionOk(s, id);
    EmptyAppend(s, id);
  }

  /**
   An empty PATCH on a completed session inserts a second row exactly when its blob was left behind, the bytes fit the
   quotas and the row's foreign keys hold.
   */
  lemma LeftoverBlobFinalisesAgainIff(c: Config, s: State, id: Uuid, fin: Finish)
    requires Done(s, id) && s.sessions[id].offset == s.sessions[id].length
    ensures Made(Patch(c, s, Retry(s.sessions[id], id), fin).0.made, id) == Made(s.made, id) + 1
       <==> id in s.blobs && Finalisable(c, s, id, |s.blobs[id]|)
  {
    if id in s.blobs {
      EmptyAppend(s, id);
      MadeAppend(s.made, (id, fin.fileId), id);
    }
  }

  // ---------------------------------------------------------------------------
  // The handlers
  // ---------------------------------------------------------------------------

  class TusServer {
    const server: FileServer
    var sessions: map<Uuid, Session>
    var blobs: map<Uuid, Bytes>
    ghost var issuedIds: set<Uuid>
    ghost var made: seq<(Uuid, Uuid)>

    ghost function View(): State
      reads this, server
    {
      State(sessions, blobs, server.State(), issuedIds, made)
    }

    constructor (server: FileServer)
      ensures this.server == server && View() == FRESH.(store := server.State())
    {
      this.server := server;
      sessions, blobs, issuedIds, made := map[], map[], {}, [];
    }

    method CreateSession(c: Config, user: string, length: Option<int>, meta: map<string, string>, id: Uuid, now: int)
      returns (r: Result<()>)
      modifies this
      ensures (View(), r) == Create(c, old(View()), user, length, meta, id, now)
    {
      if length.None? { return Err(BadRequest); }
      if length.value < 0 { return Err(BadRequest); }
      var systemId := Pick(meta, "system_id");
      if systemId.None? { return Err(BadRequest); }
      blobs := blobs[id := []];
      issuedIds := issuedIds + {id};
      var row := Session(user, length.value, 0, Pick(meta, "filename"), systemId.value, Pick(meta, "org_id"),
                         Pick(meta, "folder_id"), now + DAY, None);
      if !SessionKeysHold(c, row) { return Err(Other); }
      sessions := sessions[id := row];
      r := Ok(());
    }

    method HeadSession(user: string, id: Uuid) returns (r: Result<(nat, nat)>)
      ensures r == Head(View(), user, id)
    {
      if id !in sessions { return Err(NotFound); }
      if sessions[id].owner != user { return Err(Forbidden); }
      r := Ok((sessions[id].offset, sessions[id].length));
    }

    method FinaliseSession(c: Config, user: string, id: Uuid, fin: Finish) returns (r: Result<()>)
      requires id in sessions && id in blobs
      modifies this, server
      ensures (View(), r) == Finalise(c, old(View()), user, id, fin)
    {
      var body := blobs[id];
      var row := sessions[id];
      var name := if row.filename.Some? then row.filename.value else "upload-" + id + ".bin";
      var f := UploadFields(Some(name), Some(body), Some(row.systemId), row.orgId, row.folderId);
      assert f == FieldsOf(row, id, body);
      var inserted := server.InsertFile(c, user, f, fin.fileId, fin.now, fin.nonce);
      if inserted.Err? { return Err(inserted.error); }
      sessions := sessions[id := row.(completed := Some(fin.fileId))];
      made := made + [(id, fin.fileId)];
      if fin.removed { blobs := blobs - {id}; }
      r := Ok(());
    }

    method AppendChunk(c: Config, q: Chunk, fin: Finish) returns (r: Result<nat>)
      modifies this, server
      ensures (View(), r) == Patch(c, old(View()), q, fin)
    {
      if q.id !in sessions { return Err(NotFound); }
      var row := sessions[q.id];
      if row.owner != q.user { return Err(Forbidden); }
      if q.offset.None? { return Err(BadRequest); }
      if q.offset.value != row.offset { return Err(BadRequest); }
      if q.contentType != CHUNK_TYPE { return Err(BadRequest); }
      if row.offset + |q.body| > row.length { return Err(BadRequest); }
      if q.id !in blobs { return Err(Other); }
      blobs := blobs[q.id := blobs[q.id] + q.body];
      var newOffset := row.offset + |q.body|;
      sessions := sessions[q.id := row.(offset := newOffset)];
      assert View() == Append(old(View()), q.id, q.body);
      if newOffset == row.length {
        var done := FinaliseSession(c, q.user, q.id, fin);
        if done.Err? { return Err(done.error); }
      }
      r := Ok(newOffset);
    }

    method TerminateSession(user: string, id: Uuid, removed: bool) returns (r: Result<()>)
      modifies this
      ensures (View(), r) == Terminate(old(View()), user, id, removed)
    {
      if id !in sessions || sessions[id].completed.Some? { return Err(NotFound); }
      if sessions[id].owner != user { return Err(Forbidden); }
      sessions := sessions - {id};
      if removed { blobs := blobs - {id}; }
      r := Ok(());
    }

    /** One step of `reap_tus_uploads`: the blob first, then the row. */
    method ReapOne(id: Uuid, stuck: set<Uuid>)
      modifies this`sessions, this`blobs
      ensures sessions == old(sessions) - {id} && blobs == old(blobs) - ({id} - stuck)
    {
      if id !in stuck { blobs := blobs - {id}; }
      sessions := sessions - {id};
    }

    /** `reap_tus_uploads`: one step for each expired session. */
    method ReapSessions(now: int, stuck: set<Uuid>) returns (n: nat)
      modifies this`sessions, this`blobs
      ensures View() == Reap(old(View()), now, stuck)
      ensures n == |ExpiredIds(old(View()), now)|
    {
      ghost var s := View();
      var expired := set id | id in sessions && sessions[id].completed.None? && sessions[id].expiresAt < now;
      assert expired == ExpiredIds(s, now);
      ghost var gone: set<Uuid> := {};
      var rest := expired;
      n := 0;
      while rest != {}
        invariant gone == expired - rest && rest <= expired && n + |rest| == |expired|
        invariant sessions == s.sessions - gone && blobs == s.blobs - (gone - stuck)
        decreases |rest|
      {
        var id :| id in rest;
        ForgetOneMore(s.sessions, s.blobs, gone, id, stuck);
        ReapOne(id, stuck);
        gone := gone + {id};
        rest, n := rest - {id}, n + 1;
      }
      ReapRemovesExpired(s, now, stuck);
      assert gone == expired;
    }
  }
}

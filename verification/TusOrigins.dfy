/**
 What a client announced and what becomes of it: sessions, the answers to HEAD, finished files and reaping, each tied to
 the request that created the session.
 */
module TusOrigins {
  import opened Common
  import opened ObjectKeys
  import opened Storage
  import opened Schema
  import opened Tus

  /** The value of a metadata key, where there is one and it is not empty. */
  predicate Says(meta: map<string, string>, key: string, v: Option<string>) {
    if key in meta && meta[key] != "" then v == Some(meta[key]) else v == None
  }

  /** The session is the one that the request asked for. */
  predicate Announced(x: Session, e: Event) {
    && e.CreateSession? && e.length == Some(x.length as int) && x.owner == e.user
    && Says(e.meta, "filename", x.filename) && Says(e.meta, "system_id", Some(x.systemId))
    && Says(e.meta, "org_id", x.orgId) && Says(e.meta, "folder_id", x.folderId)
    && x.expiresAt == e.now + DAY
  }

  lemma StepKeepsAnnounced(c: Config, s: State, e: Event, id: Uuid, origin: Event)
    requires Inv(s) && Regular(s, e) && id in s.sessions && Announced(s.sessions[id], origin)
    ensures id in Step(c, s, e).sessions ==> Announced(Step(c, s, e).sessions[id], origin)
  {
    assert SessionOk(s, id);
  }

  lemma NewSessionIsAnnounced(c: Config, s: State, e: Event, id: Uuid)
    requires id !in s.sessions && id in Step(c, s, e).sessions
    ensures e.CreateSession? && e.id == id && Announced(Step(c, s, e).sessions[id], e)
  {
  }

  /** Every session has the owner, length, names and expiry of the request that created it. */
  lemma {:induction false} SessionOrigin(c: Config, events: seq<Event>, id: Uuid) returns (j: nat)
    requires RegularRun(c, FRESH, events) && id in Run(c, FRESH, events).sessions
    ensures j < |events| && events[j].CreateSession? && events[j].id == id
    ensures Announced(Run(c, FRESH, events).sessions[id], events[j])
  {
    var n := |events| - 1;
    var s := Run(c, FRESH, events[..n]);
    RegularPrefix(c, FRESH, events, n);
    BlobIsAcceptedChunks(c, events[..n], id);
    if id in s.sessions {
      j := SessionOrigin(c, events[..n], id);
      StepKeepsAnnounced(c, s, events[n], id, events[j]);
    } else {
      NewSessionIsAnnounced(c, s, events[n], id);
      j := n;
    }
  }

  /** In every run HEAD tells the owner how many bytes were received and how many were announced. */
  lemma HeadAnswers(c: Config, events: seq<Event>, id: Uuid) returns (j: nat)
    requires RegularRun(c, FRESH, events) && id in Run(c, FRESH, events).sessions
    ensures j < |events| && events[j].CreateSession? && events[j].id == id && events[j].length.Some?
    ensures var (r, announced) := (Received(c, FRESH, events, id), events[j].length.value);
            announced >= 0 && Head(Run(c, FRESH, events), events[j].user, id) == Ok((|r|, announced as nat))
    ensures forall user | user != events[j].user :: Head(Run(c, FRESH, events), user, id) == Err(Forbidden)
  {
    j := SessionOrigin(c, events, id);
    BlobIsAcceptedChunks(c, events, id);
  }

  /** Nobody is told anything about a session that does not exist. */
  lemma HeadOfUnknown(s: State, user: string, id: Uuid)
    ensures id !in s.sessions <==> Head(s, user, id) == Err(NotFound)
  {
  }

  /** The row that a finalisation inserts, column by column. */
  predicate IsFinished(row: FileRow, id: Uuid, e: Event, fin: Finish) {
    && e.CreateSession? && e.length == Some(row.size as int) && row.createdBy == Some(e.user)
    && row.name == (if "filename" in e.meta && e.meta["filename"] != "" then e.meta["filename"]
                    else "upload-" + id + ".bin")
    && Says(e.meta, "system_id", Some(row.systemId)) && Says(e.meta, "org_id", row.orgId)
    && Says(e.meta, "folder_id", row.folderId)
    && row.createdAt == fin.now && row.version == 1 && row.deletedAt == None
  }

  lemma InsertedRow(c: Config, store: Store, x: Session, id: Uuid, bytes: Bytes, fin: Finish, e: Event)
    requires Announced(x, e) && |bytes| == x.length
    requires Inserted(c, store, x.owner, x, id, bytes, fin).1 == Ok(fin.fileId)
    ensures var s' := Inserted(c, store, x.owner, x, id, bytes, fin).0;
            && fin.fileId in s'.files && IsFinished(s'.files[fin.fileId], id, e, fin)
            && s'.files[fin.fileId].etag == c.md5(bytes)
  {
  }

  lemma CompletionSize(c: Config, s: State, e: Event, id: Uuid, bytes: Bytes)
    requires Inv(s) && CompletesAsOneShot(c, s, e, id, bytes)
    ensures |bytes| == s.sessions[id].length
  {
    assert SessionOk(s, id);
  }

  lemma CompletionInserts(c: Config, s: State, e: Event, id: Uuid, bytes: Bytes, origin: Event)
    requires Inv(s) && CompletesAsOneShot(c, s, e, id, bytes) && Announced(s.sessions[id], origin)
    ensures var t := Step(c, s, e).store;
            && e.PatchSession? && e.fin.fileId in t.files && IsFinished(t.files[e.fin.fileId], id, origin, e.fin)
            && t.files[e.fin.fileId].etag == c.md5(bytes)
  {
    CompletionSize(c, s, e, id, bytes);
    InsertedRow(c, s.store, s.sessions[id], id, bytes, e.fin, origin);
  }

  /**
   A completed session inserted, in one step `k`, a row with the name, system, org, folder, creator and size that its
   creating request `j` announced, created at the time of that step, whose etag is that of the bytes received.
   */
  lemma FinishedFileIsAsAnnounced(c: Config, events: seq<Event>, id: Uuid) returns (j: nat, k: nat)
    requires RegularRun(c, FRESH, events) && Done(Run(c, FRESH, events), id)
    ensures j < k < |events| && events[j].CreateSession? && events[j].id == id && events[k].PatchSession?
    ensures var files, file := Run(c, FRESH, events[..k + 1]).store.files, events[k].fin.fileId;
            && Run(c, FRESH, events).sessions[id].completed == Some(file)
            && file in files && IsFinished(files[file], id, events[j], events[k].fin)
            && files[file].etag == c.md5(Received(c, FRESH, events, id))
  {
    k := CompletedAt(c, events, id);
    RegularPrefix(c, FRESH, events, k);
    j := SessionOrigin(c, events[..k], id);
    BlobIsAcceptedChunks(c, events[..k], id);
    CompletionInserts(c, Run(c, FRESH, events[..k]), events[k], id, Received(c, FRESH, events, id), events[j]);
    RunOneMore(c, events, k);
  }

  lemma RunOneMore(c: Config, events: seq<Event>, k: nat)
    requires k < |events|
    ensures Run(c, FRESH, events[..k + 1]) == Step(c, Run(c, FRESH, events[..k]), events[k])
  {
    assert events[..k + 1][..k] == events[..k];
  }

  /** Reaping takes a session exactly when it is open and was created more than a day before. */
  lemma ReapedAfterADay(c: Config, events: seq<Event>, id: Uuid, now: int, stuck: set<Uuid>) returns (j: nat)
    requires RegularRun(c, FRESH, events) && id in Run(c, FRESH, events).sessions
    ensures j < |events| && events[j].CreateSession? && events[j].id == id
    ensures var s := Run(c, FRESH, events);
            id !in Reap(s, now, stuck).sessions <==> !Done(s, id) && events[j].now + DAY < now
  {
    j := SessionOrigin(c, events, id);
  }

  /** A session is opened exactly for a length, a system, and an org and a folder, if any, that exist. */
  lemma OpenedIff(
    c: Config, s: State, user: string, length: Option<int>, meta: map<string, string>, id: Uuid, now: int)
    ensures var (t, r) := Create(c, s, user, length, meta, id, now);
            && (r.Ok? <==>
                  && length.Some? && length.value >= 0 && user in c.userQuota
                  && "system_id" in meta && meta["system_id"] != "" && meta["system_id"] in c.systems
                  && ("org_id" in meta && meta["org_id"] != "" ==> meta["org_id"] in c.orgQuota)
                  && ("folder_id" in meta && meta["folder_id"] != "" ==> meta["folder_id"] in c.folders))
            && (r.Ok? ==>
                  && id in t.sessions && t.sessions[id].offset == 0 && t.sessions[id].completed == None
                  && id in t.blobs && t.blobs[id] == [])
            && (r.Err? ==> t.sessions == s.sessions)
  {
  }

  /** A session is taken back exactly when it is open and the request is its owner's. */
  lemma TerminatedIff(s: State, user: string, id: Uuid, removed: bool)
    ensures var (t, r) := Terminate(s, user, id, removed);
            && (r.Ok? <==> id in s.sessions && !Done(s, id) && s.sessions[id].owner == user)
            && t.sessions == (if r.Ok? then s.sessions - {id} else s.sessions)
            && t.blobs == (if r.Ok? && removed then s.blobs - {id} else s.blobs)
  {
  }

  /** A chunk is taken exactly at the offset of its owner's session, up to the announced length. */
  lemma ChunkTakenIff(c: Config, s: State, q: Chunk)
    requires Inv(s) && q.id in s.sessions && !Done(s, q.id)
    ensures CheckPatch(s, q).Ok? <==>
              var x := s.sessions[q.id];
              && q.user == x.owner && q.offset == Some(x.offset as int)
              && q.contentType == "application/offset+octet-stream" && x.offset + |q.body| <= x.length
  {
    assert SessionOk(s, q.id);
  }
}

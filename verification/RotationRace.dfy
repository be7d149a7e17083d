/**
 The retention worker against concurrent requests. A pass works from a snapshot that goes stale. For each file of the
 snapshot, pruning it, archiving it, deciding to purge it and purging it are steps of their own, and requests, clock
 ticks and policy edits run between any two steps.
 */
module RotationRace {
  import opened Common
  import opened ObjectKeys
  import opened Storage
  import opened Schema
  import opened Lifecycle
  import opened KeyInvariants
  import opened Policies
  import opened Rotation
  import History

  /** Where the worker stands with the first file of its list. */
  datatype Phase = ToPrune | ToAge | Purging(cutoff: int)

  datatype Worker = Idle | Busy(ps: seq<Policy>, todo: seq<FileMin>, begun: int, phase: Phase)

  datatype State = State(now: int, store: Store, policies: seq<Policy>, worker: Worker)

  datatype Action =
    | Tick(d: nat)
    | Request(e: Event)
    | EditPolicies(ps: seq<Policy>)
    | Begin(order: seq<Uuid>)
    | Work(stuck: set<string>)

  /** Events that come from requests, stamped with the current time and, for uploads, a fresh id. */
  ghost predicate FromRequest(s: State, e: Event) {
    match e
    case Upload(_, _, id, now, _) => id !in s.store.issued && now == s.now
    case FinishUpload(_, _, id, now, _) => id !in s.store.issued && now == s.now
    case TrashFile(_, now) => now == s.now
    case PruneVersions(_, _, _) => false
    case ArchiveFile(_, _) => false
    case PurgeFile(_, _, _) => false
    case _ => true
  }

  ghost predicate Enabled(s: State, a: Action) {
    match a
    case Request(e) => FromRequest(s, e)
    case Begin(order) => s.worker.Idle? && Enumerates(order, s.store)
    case Work(_) => s.worker.Busy?
    case _ => true
  }

  function NextFile(w: Worker): Worker
    requires w.Busy? && w.todo != []
  {
    w.(todo := w.todo[1..], phase := ToPrune)
  }

  /** One step of the worker. */
  function WorkerStep(s: State, stuck: set<string>): State
    requires s.worker.Busy?
  {
    var w := s.worker;
    if w.todo == [] then s.(worker := Idle)
    else
      var f := w.todo[0];
      var e := Resolved(w.ps, f);
      match w.phase
      case ToPrune => s.(store := Prune(s.store, f.id, e.keep, stuck), worker := w.(phase := ToAge))
      case ToAge =>
        if ArchiveDue(e, f, s.now) then s.(store := Archive(s.store, f.id, s.now), worker := NextFile(w))
        else if PurgeDue(e, f, s.now) then s.(worker := w.(phase := Purging(s.now - e.deleteDays * DAY)))
        else s.(worker := NextFile(w))
      case Purging(cutoff) => s.(store := Purge(s.store, f.id, cutoff, stuck), worker := NextFile(w))
  }

  ghost function Do(c: Config, s: State, a: Action): State
    requires Enabled(s, a)
  {
    match a
    case Tick(d) => s.(now := s.now + d)
    case Request(e) => s.(store := Step(c, s.store, e))
    case EditPolicies(ps) => s.(policies := ps)
    case Begin(order) => s.(worker := Busy(s.policies, Snapshot(s.store, order), s.now, ToPrune))
    case Work(stuck) => WorkerStep(s, stuck)
  }

  ghost predicate Init(s: State) { s.store == EMPTY && s.worker.Idle? }

  /** A run: the states passed through and the actions between them. */
  datatype Trace = Trace(states: seq<State>, actions: seq<Action>)

  ghost predicate Follows(c: Config, t: Trace, i: nat)
    requires |t.states| == |t.actions| + 1 && i < |t.actions|
  {
    Enabled(t.states[i], t.actions[i]) && t.states[i + 1] == Do(c, t.states[i], t.actions[i])
  }

  ghost predicate IsRun(c: Config, t: Trace) {
    && |t.states| == |t.actions| + 1
    && Init(t.states[0])
    && forall i | 0 <= i < |t.actions| :: Follows(c, t, i)
  }

  predicate InTrash(s: State, id: Uuid) { id in s.store.files && s.store.files[id].deletedAt.Some? }

  /** In the trash in every state from `j` to `k`. */
  ghost predicate TrashedThroughout(t: Trace, id: Uuid, j: nat, k: nat)
    requires j <= k < |t.states|
  {
    forall i | j <= i <= k :: InTrash(t.states[i], id)
  }

  // ---------------------------------------------------------------------------
  // Where a trash time comes from
  // ---------------------------------------------------------------------------

  /** A row's trash time is the one it had, or now. */
  ghost predicate TrashTimeOk(s: Store, s': Store, now: int) {
    forall id | id in s'.files && s'.files[id].deletedAt.Some? ::
      s'.files[id].deletedAt == Some(now) || (id in s.files && s.files[id].deletedAt == s'.files[id].deletedAt)
  }

  lemma InsertFileTrashTimes(
    c: Config, s: Store, actor: string, f: UploadFields, id: Uuid, at: int, nonce: Nonce, now: int)
    ensures TrashTimeOk(s, InsertFile(c, s, actor, f, id, at, nonce).0, now)
  {
  }

  lemma UploadVersionTrashTimes(
    c: Config, s: Store, user: string, id: Uuid, filename: Option<string>, body: Option<Bytes>, nonce: Nonce, now: int)
    ensures TrashTimeOk(s, UploadVersion(c, s, user, id, filename, body, nonce).0, now)
  {
  }

  lemma WopiSaveTrashTimes(c: Config, s: Store, id: Uuid, body: Bytes, nonce: Nonce, now: int)
    ensures TrashTimeOk(s, WopiPutFile(c, s, id, body, nonce).0, now)
  {
  }

  lemma PatchTrashTimes(c: Config, s: Store, id: Uuid, q: Lifecycle.Request, now: int)
    ensures TrashTimeOk(s, ApplyPatch(c, s, id, q).0, now)
  {
    PatchOutcome(c, s, id, q);
  }

  lemma EventTrashTimes(c: Config, s: Store, e: Event, now: int)
    requires match e case TrashFile(_, t) => t == now case ArchiveFile(_, t) => t == now case _ => true
    ensures TrashTimeOk(s, Step(c, s, e), now)
  {
    match e {
      case Upload(actor, fields, id, at, nonce) =>
        InsertFileTrashTimes(c, s, actor, WithDefaults(c, actor, fields), id, at, nonce, now);
      case FinishUpload(actor, fields, id, at, nonce) =>
        InsertFileTrashTimes(c, s, actor, fields, id, at, nonce, now);
      case NewVersion(user, id, filename, body, nonce) =>
        UploadVersionTrashTimes(c, s, user, id, filename, body, nonce, now);
      case WopiSave(id, body, nonce) => WopiSaveTrashTimes(c, s, id, body, nonce, now);
      case PatchFile(id, q) => PatchTrashTimes(c, s, id, q, now);
      case PruneVersions(id, keep, stuck) => History.PruneKeepsFiles(s, id, keep, stuck);
      case _ =>
    }
  }

  /** What a worker step does to the tables, if anything. */
  function WorkEvent(s: State, stuck: set<string>): Option<Event>
    requires s.worker.Busy?
  {
    if s.worker.todo == [] then None
    else
      var f := s.worker.todo[0];
      var e := Resolved(s.worker.ps, f);
      match s.worker.phase
      case ToPrune => Some(PruneVersions(f.id, e.keep, stuck))
      case ToAge => if ArchiveDue(e, f, s.now) then Some(ArchiveFile(f.id, s.now)) else None
      case Purging(cutoff) => Some(PurgeFile(f.id, cutoff, stuck))
  }

  /** What an action does to the tables, if anything. */
  function StoreEvent(s: State, a: Action): Option<Event>
    requires a.Work? ==> s.worker.Busy?
  {
    match a
    case Request(e) => Some(e)
    case Work(stuck) => WorkEvent(s, stuck)
    case _ => None
  }

  ghost function After(c: Config, s: Store, e: Option<Event>): Store { if e.Some? then Step(c, s, e.value) else s }

  lemma WorkIsEvent(c: Config, s: State, stuck: set<string>)
    requires s.worker.Busy?
    ensures WorkerStep(s, stuck).store == After(c, s.store, WorkEvent(s, stuck)) && WorkerStep(s, stuck).now == s.now
  {
    if s.worker.todo != [] {
      match s.worker.phase {
        case ToPrune =>
        case ToAge =>
        case Purging(_) =>
      }
    }
  }

  /** Every action is one lifecycle event or leaves the tables alone. */
  lemma ActionIsEvent(c: Config, s: State, a: Action)
    requires Enabled(s, a)
    ensures Do(c, s, a).store == After(c, s.store, StoreEvent(s, a))
    ensures s.now <= Do(c, s, a).now && (StoreEvent(s, a).Some? ==> Do(c, s, a).now == s.now)
  {
    if a.Work? { WorkIsEvent(c, s, a.stuck); }
  }

  lemma StepTrashTimes(c: Config, s: State, a: Action)
    requires Enabled(s, a)
    ensures TrashTimeOk(s.store, Do(c, s, a).store, Do(c, s, a).now)
    ensures s.now <= Do(c, s, a).now
  {
    ActionIsEvent(c, s, a);
    if StoreEvent(s, a).Some? { EventTrashTimes(c, s.store, StoreEvent(s, a).value, s.now); }
  }

  lemma {:induction false} ClockIsMonotone(c: Config, t: Trace, i: nat, j: nat)
    requires IsRun(c, t) && i <= j < |t.states|
    ensures t.states[i].now <= t.states[j].now
    decreases j
  {
    if i < j {
      ClockIsMonotone(c, t, i, j - 1);
      assert Follows(c, t, j - 1);
      StepTrashTimes(c, t.states[j - 1], t.actions[j - 1]);
    }
  }

  /** A file whose trash time is not now was in the trash since then one action before. */
  lemma TrashTimeWasThere(c: Config, t: Trace, id: Uuid, k: nat)
    requires IsRun(c, t) && k < |t.states| && InTrash(t.states[k], id)
    requires t.states[k].store.files[id].deletedAt != Some(t.states[k].now)
    ensures k > 0 && InTrash(t.states[k - 1], id)
    ensures t.states[k - 1].store.files[id].deletedAt == t.states[k].store.files[id].deletedAt
  {
    assert k > 0;
    assert Follows(c, t, k - 1);
    StepTrashTimes(c, t.states[k - 1], t.actions[k - 1]);
  }

  /** A file in the trash since time `d` has been there without a break since a state at that time. */
  lemma {:induction false} TrashOrigin(c: Config, t: Trace, id: Uuid, k: nat) returns (j: nat)
    requires IsRun(c, t) && k < |t.states| && InTrash(t.states[k], id)
    ensures j <= k && TrashedThroughout(t, id, j, k)
    ensures t.states[k].store.files[id].deletedAt == Some(t.states[j].now)
  {
    if t.states[k].store.files[id].deletedAt == Some(t.states[k].now) {
      j := k;
    } else {
      TrashTimeWasThere(c, t, id, k);
      j := TrashOrigin(c, t, id, k - 1);
    }
  }

  // ---------------------------------------------------------------------------
  // What the worker removes
  // ---------------------------------------------------------------------------

  /** A pending purge carries a cutoff that is at least the full window in the past. */
  ghost predicate CutoffOk(s: State) {
    s.worker.Busy? && s.worker.phase.Purging? ==>
      && s.worker.todo != []
      && s.worker.phase.cutoff + Resolved(s.worker.ps, s.worker.todo[0]).deleteDays * DAY <= s.now
  }

  lemma StepCutoff(c: Config, s: State, a: Action)
    requires Enabled(s, a) && CutoffOk(s)
    ensures CutoffOk(Do(c, s, a))
  {
  }

  lemma {:induction false} RunCutoff(c: Config, t: Trace, k: nat)
    requires IsRun(c, t) && k < |t.states|
    ensures CutoffOk(t.states[k])
  {
    if k > 0 {
      RunCutoff(c, t, k - 1);
      assert Follows(c, t, k - 1);
      StepCutoff(c, t.states[k - 1], t.actions[k - 1]);
    }
  }

  /** The worker takes a file away in this step. */
  ghost predicate Removes(t: Trace, k: nat, id: Uuid)
    requires k + 1 < |t.states| && k < |t.actions|
  {
    t.actions[k].Work? && id in t.states[k].store.files && id !in t.states[k + 1].store.files
  }

  lemma RemovalIsPurge(s: State, stuck: set<string>, id: Uuid)
    requires s.worker.Busy? && id in s.store.files && id !in WorkerStep(s, stuck).store.files
    ensures s.worker.phase.Purging? && s.worker.todo != [] && s.worker.todo[0].id == id
    ensures TrashedBefore(s.store, id, s.worker.phase.cutoff)
  {
    if s.worker.todo != [] && s.worker.phase.ToPrune? {
      var f := s.worker.todo[0];
      History.PruneKeepsFiles(s.store, f.id, Resolved(s.worker.ps, f).keep, stuck);
    }
  }

  /**
   However the worker interleaves with requests, it removes a file only after the file has been in the trash
   without a break for longer than the `delete_after_days` in force for it when the pass began.
   */
  lemma PurgedOnlyAfterFullWindow(c: Config, t: Trace, k: nat, id: Uuid)
    requires IsRun(c, t) && k < |t.actions| && Removes(t, k, id)
    ensures t.states[k].worker.Busy? && t.states[k].worker.todo != [] && t.states[k].worker.todo[0].id == id
    ensures exists j: nat :: j <= k && TrashedThroughout(t, id, j, k)
              && t.states[j].now + Resolved(t.states[k].worker.ps, t.states[k].worker.todo[0]).deleteDays * DAY
                 < t.states[k].now
  {
    var s := t.states[k];
    assert Follows(c, t, k);
    RemovalIsPurge(s, t.actions[k].stuck, id);
    RunCutoff(c, t, k);
    var j := TrashOrigin(c, t, id, k);
    assert TrashedThroughout(t, id, j, k);
  }

  /**
   A file that was out of the trash at any moment since the snapshot, restored for good or trashed again,
   survives every pass no longer than its `delete_after_days`.
   */
  lemma RestoredFileSurvives(c: Config, t: Trace, k: nat, id: Uuid, m: nat)
    requires IsRun(c, t) && k < |t.actions| && t.actions[k].Work? && t.states[k].worker.Busy?
    requires m <= k && !InTrash(t.states[m], id) && t.states[m].now >= t.states[k].worker.begun
    requires t.states[k].worker.todo != [] ==>
               t.states[k].now <= t.states[k].worker.begun
                                  + Resolved(t.states[k].worker.ps, t.states[k].worker.todo[0]).deleteDays * DAY
    requires id in t.states[k].store.files
    ensures id in t.states[k + 1].store.files
  {
    if Removes(t, k, id) {
      PurgedOnlyAfterFullWindow(c, t, k, id);
      var j: nat :| j <= k && TrashedThroughout(t, id, j, k)
        && t.states[j].now + Resolved(t.states[k].worker.ps, t.states[k].worker.todo[0]).deleteDays * DAY
           < t.states[k].now;
      assert m < j;
      ClockIsMonotone(c, t, m, j);
    }
  }

  /** A worker step on an older snapshot never takes a file that is out of the trash at that moment. */
  lemma FileOutOfTrashSurvives(s: State, stuck: set<string>, id: Uuid)
    requires s.worker.Busy? && id in s.store.files && !InTrash(s, id)
    ensures id in WorkerStep(s, stuck).store.files
  {
    if id !in WorkerStep(s, stuck).store.files { RemovalIsPurge(s, stuck, id); }
  }

  /** The worker's last one or two steps for its first file. */
  function Aged(s: State, stuck: set<string>): State
    requires s.worker.Busy?
  {
    var aged := WorkerStep(s, stuck);
    if aged.worker.Busy? && aged.worker.phase.Purging? then WorkerStep(aged, stuck) else aged
  }

  /** The row's own trash time decides, whatever the snapshot said. */
  lemma AgedFilePurgedIff(s: State, stuck: set<string>)
    requires s.worker.Busy? && s.worker.todo != [] && s.worker.phase.ToAge? && InTrash(s, s.worker.todo[0].id)
    requires PurgeDue(Resolved(s.worker.ps, s.worker.todo[0]), s.worker.todo[0], s.now)
    ensures s.worker.todo[0].id !in Aged(s, stuck).store.files
       <==> s.store.files[s.worker.todo[0].id].deletedAt.value
            + Resolved(s.worker.ps, s.worker.todo[0]).deleteDays * DAY < s.now
  {
  }

  /** The worker's first file is restored and trashed again, and time passes before the worker goes on. */
  function Retrashed(s: State, d: nat): State
    requires s.worker.Busy? && s.worker.todo != []
  {
    var id := s.worker.todo[0].id;
    s.(store := Trash(Restore(s.store, id), id, s.now), now := s.now + d)
  }

  /**
   The bound on the length of the pass is exact: a file due in the snapshot, then restored and trashed again, is
   purged by the same pass exactly when more than `delete_after_days` go by before the worker reaches it.
   */
  lemma RetrashedFilePurgedIff(s: State, d: nat, stuck: set<string>)
    requires s.worker.Busy? && s.worker.todo != [] && s.worker.phase.ToPrune? && s.worker.todo[0].id in s.store.files
    requires PurgeDue(Resolved(s.worker.ps, s.worker.todo[0]), s.worker.todo[0], s.now)
    ensures WorkerStep(Retrashed(s, d), stuck).worker.Busy?
    ensures s.worker.todo[0].id !in Aged(WorkerStep(Retrashed(s, d), stuck), stuck).store.files
       <==> d > Resolved(s.worker.ps, s.worker.todo[0]).deleteDays * DAY
  {
    var waited := Retrashed(s, d);
    var pruned := WorkerStep(waited, stuck);
    var f := s.worker.todo[0];
    History.PruneKeepsFiles(waited.store, f.id, Resolved(s.worker.ps, f).keep, stuck);
    assert pruned.store.files == waited.store.files && pruned.worker == s.worker.(phase := ToAge);
    AgedFilePurgedIff(pruned, stuck);
  }

  /** No step of the worker changes the trash time of a file that has one. */
  lemma WorkerKeepsTrashTimes(s: State, stuck: set<string>, id: Uuid)
    requires s.worker.Busy? && InTrash(s, id) && id in WorkerStep(s, stuck).store.files
    ensures WorkerStep(s, stuck).store.files[id].deletedAt == s.store.files[id].deletedAt
  {
    if s.worker.todo != [] && s.worker.phase.ToPrune? {
      var f := s.worker.todo[0];
      History.PruneKeepsFiles(s.store, f.id, Resolved(s.worker.ps, f).keep, stuck);
    }
  }

  // ---------------------------------------------------------------------------
  // What the worker archives
  // ---------------------------------------------------------------------------

  /** Rows come only with new ids and keep their creation time. */
  ghost predicate CreationKept(s: Store, s': Store) {
    && s.issued <= s'.issued && s'.files.Keys <= s'.issued
    && forall id | id in s'.files && id in s.issued :: id in s.files && s'.files[id].createdAt == s.files[id].createdAt
  }

  lemma InsertFileKeepsCreation(c: Config, s: Store, actor: string, f: UploadFields, id: Uuid, now: int, nonce: Nonce)
    requires s.files.Keys <= s.issued && id !in s.issued
    ensures CreationKept(s, InsertFile(c, s, actor, f, id, now, nonce).0)
  {
  }

  lemma UploadVersionKeepsCreation(
    c: Config, s: Store, user: string, id: Uuid, filename: Option<string>, body: Option<Bytes>, nonce: Nonce)
    requires s.files.Keys <= s.issued
    ensures CreationKept(s, UploadVersion(c, s, user, id, filename, body, nonce).0)
  {
  }

  lemma WopiSaveKeepsCreation(c: Config, s: Store, id: Uuid, body: Bytes, nonce: Nonce)
    requires s.files.Keys <= s.issued
    ensures CreationKept(s, WopiPutFile(c, s, id, body, nonce).0)
  {
  }

  lemma EventKeepsCreation(c: Config, s: Store, e: Event)
    requires s.files.Keys <= s.issued && FreshId(s, e)
    ensures CreationKept(s, Step(c, s, e))
  {
    match e {
      case Upload(actor, fields, id, now, nonce) =>
        InsertFileKeepsCreation(c, s, actor, WithDefaults(c, actor, fields), id, now, nonce);
      case FinishUpload(actor, fields, id, now, nonce) =>
        InsertFileKeepsCreation(c, s, actor, fields, id, now, nonce);
      case NewVersion(user, id, filename, body, nonce) =>
        UploadVersionKeepsCreation(c, s, user, id, filename, body, nonce);
      case WopiSave(id, body, nonce) => WopiSaveKeepsCreation(c, s, id, body, nonce);
      case PatchFile(id, q) => PatchOutcome(c, s, id, q);
      case PruneVersions(id, keep, stuck) => if keep > 0 { History.PruneKeepsNewest(s, id, keep, stuck); }
      case _ =>
    }
  }

  /** However stale, the snapshot has the right creation times. */
  ghost predicate SnapshotAgrees(s: State) {
    && s.store.files.Keys <= s.store.issued
    && (s.worker.Busy? ==>
          forall f | f in s.worker.todo ::
            f.id in s.store.issued && (f.id in s.store.files ==> s.store.files[f.id].createdAt == f.createdAt))
  }

  lemma StepKeepsCreation(c: Config, s: State, a: Action)
    requires Enabled(s, a) && s.store.files.Keys <= s.store.issued
    ensures CreationKept(s.store, Do(c, s, a).store)
  {
    ActionIsEvent(c, s, a);
    if StoreEvent(s, a).Some? { EventKeepsCreation(c, s.store, StoreEvent(s, a).value); }
  }

  lemma {:induction false} SnapshotStaysRight(c: Config, t: Trace, k: nat)
    requires IsRun(c, t) && k < |t.states|
    ensures SnapshotAgrees(t.states[k])
  {
    if k > 0 {
      var s, a := t.states[k - 1], t.actions[k - 1];
      SnapshotStaysRight(c, t, k - 1);
      assert Follows(c, t, k - 1);
      StepKeepsCreation(c, s, a);
      SnapshotStep(c, s, a);
    }
  }

  lemma SnapshotStep(c: Config, s: State, a: Action)
    requires Enabled(s, a) && SnapshotAgrees(s) && CreationKept(s.store, Do(c, s, a).store)
    ensures SnapshotAgrees(Do(c, s, a))
  {
    var s' := Do(c, s, a);
    if s'.worker.Busy? {
      forall f | f in s'.worker.todo
        ensures f.id in s'.store.issued && (f.id in s'.store.files ==> s'.store.files[f.id].createdAt == f.createdAt)
      {
        if a.Begin? {
          var i :| 0 <= i < |a.order| && s'.worker.todo[i] == f;
          assert a.order[i] in s.store.files && f == Snap(a.order[i], s.store.files[a.order[i]]);
        } else {
          assert f in s.worker.todo;
        }
      }
    }
  }

  /** The request that inserts a file. */
  predicate Inserts(a: Action, id: Uuid) { a.Request? && (a.e.Upload? || a.e.FinishUpload?) && a.e.id == id }

  lemma InsertedFileIsNew(
    c: Config, s: Store, actor: string, f: UploadFields, fileId: Uuid, now: int, nonce: Nonce, id: Uuid)
    requires id !in s.files && id in InsertFile(c, s, actor, f, fileId, now, nonce).0.files
    ensures id == fileId && InsertFile(c, s, actor, f, fileId, now, nonce).0.files[id].createdAt == now
  {
  }

  lemma NewFileIsInserted(c: Config, s: State, a: Action, id: Uuid)
    requires Enabled(s, a) && id !in s.store.files && id in Do(c, s, a).store.files
    ensures Inserts(a, id) && Do(c, s, a).store.files[id].createdAt == s.now
  {
    ActionIsEvent(c, s, a);
    var e := StoreEvent(s, a).value;
    match e {
      case Upload(actor, fields, fileId, now, nonce) =>
        InsertedFileIsNew(c, s.store, actor, WithDefaults(c, actor, fields), fileId, now, nonce, id);
      case FinishUpload(actor, fields, fileId, now, nonce) =>
        InsertedFileIsNew(c, s.store, actor, fields, fileId, now, nonce, id);
      case _ => OthersInsertNothing(c, s.store, e);
    }
  }

  lemma OthersInsertNothing(c: Config, s: Store, e: Event)
    requires !e.Upload? && !e.FinishUpload?
    ensures Step(c, s, e).files.Keys <= s.files.Keys
  {
    match e {
      case PatchFile(id, q) => PatchOutcome(c, s, id, q);
      case PruneVersions(id, keep, stuck) => History.PruneKeepsFiles(s, id, keep, stuck);
      case _ =>
    }
  }

  lemma CreationStays(c: Config, t: Trace, id: Uuid, k: nat)
    requires IsRun(c, t) && k < |t.actions| && id in t.states[k].store.files && id in t.states[k + 1].store.files
    ensures t.states[k + 1].store.files[id].createdAt == t.states[k].store.files[id].createdAt
  {
    SnapshotStaysRight(c, t, k);
    assert Follows(c, t, k);
    StepKeepsCreation(c, t.states[k], t.actions[k]);
  }

  lemma CreatedHere(c: Config, t: Trace, id: Uuid, k: nat)
    requires IsRun(c, t) && k < |t.actions| && id !in t.states[k].store.files && id in t.states[k + 1].store.files
    ensures Inserts(t.actions[k], id) && t.states[k + 1].store.files[id].createdAt == t.states[k].now
  {
    assert Follows(c, t, k);
    NewFileIsInserted(c, t.states[k], t.actions[k], id);
  }

  /** Step `j` inserts the file, and the clock then is its creation time. */
  ghost predicate CreatedAt(t: Trace, id: Uuid, j: nat, createdAt: int)
    requires |t.states| == |t.actions| + 1
  {
    && j < |t.actions| && Inserts(t.actions[j], id) && createdAt == t.states[j].now
    && id !in t.states[j].store.files && id in t.states[j + 1].store.files
  }

  /** A file's creation time is the time of the step that inserted it. */
  lemma {:induction false} CreationOrigin(c: Config, t: Trace, id: Uuid, k: nat) returns (j: nat)
    requires IsRun(c, t) && k < |t.states| && id in t.states[k].store.files
    ensures j < k && CreatedAt(t, id, j, t.states[k].store.files[id].createdAt)
  {
    assert k > 0;
    if id in t.states[k - 1].store.files {
      j := CreationOrigin(c, t, id, k - 1);
      CreationStays(c, t, id, k - 1);
    } else {
      CreatedHere(c, t, id, k - 1);
      j := k - 1;
    }
  }

  lemma ArchivingStep(s: State, stuck: set<string>, id: Uuid)
    requires s.worker.Busy? && SnapshotAgrees(s) && id in s.store.files && !InTrash(s, id)
    requires InTrash(WorkerStep(s, stuck), id)
    ensures s.worker.todo != [] && s.worker.todo[0].id == id
    ensures var e, row := Resolved(s.worker.ps, s.worker.todo[0]), s.store.files[id];
            && e.archiveDays > 0 && row.createdAt + e.archiveDays * DAY < s.now
            && WorkerStep(s, stuck).store.files[id] == row.(deletedAt := Some(s.now))
  {
    if s.worker.todo != [] {
      var f := s.worker.todo[0];
      assert f in s.worker.todo;
      if s.worker.phase.ToPrune? {
        History.PruneKeepsFiles(s.store, f.id, Resolved(s.worker.ps, f).keep, stuck);
      }
    }
  }

  /**
   The worker archives only live files whose upload, at step `j`, is longer ago than their `archive_after_days`, and
   stamps them with the time.
   */
  lemma ArchivedOnlyWhenOld(c: Config, t: Trace, k: nat, id: Uuid) returns (j: nat)
    requires IsRun(c, t) && k < |t.actions| && t.actions[k].Work?
    requires id in t.states[k].store.files && !InTrash(t.states[k], id) && InTrash(t.states[k + 1], id)
    ensures t.states[k].worker.Busy? && t.states[k].worker.todo != [] && t.states[k].worker.todo[0].id == id
    ensures var e := Resolved(t.states[k].worker.ps, t.states[k].worker.todo[0]);
            var row := t.states[k].store.files[id];
            && j < k && CreatedAt(t, id, j, row.createdAt)
            && e.archiveDays > 0 && t.states[j].now + e.archiveDays * DAY < t.states[k].now
            && t.states[k + 1].store.files[id] == row.(deletedAt := Some(t.states[k].now))
  {
    assert Follows(c, t, k);
    SnapshotStaysRight(c, t, k);
    j := CreationOrigin(c, t, id, k);
    ArchivingStep(t.states[k], t.actions[k].stuck, id);
  }

  // ---------------------------------------------------------------------------
  // The worker undisturbed
  // ---------------------------------------------------------------------------

  function StepsLeft(w: Worker): nat
    requires w.Busy?
  {
    3 * |w.todo| + match w.phase case ToPrune => 2 case ToAge => 1 case Purging(_) => 0
  }

  /** The worker's steps to the end of its pass, with nothing in between. */
  function Undisturbed(s: State, stuck: set<string>): State
    requires s.worker.Busy?
    decreases StepsLeft(s.worker)
  {
    var t := WorkerStep(s, stuck);
    if t.worker.Busy? then Undisturbed(t, stuck) else t
  }

  /** The two or three steps for one file are its rotation. */
  lemma FileIsRotated(s: State, stuck: set<string>)
    requires s.worker.Busy? && s.worker.todo != [] && s.worker.phase.ToPrune?
    ensures var t := Aged(WorkerStep(s, stuck), stuck); var f := s.worker.todo[0];
            && t.store == RotateFile(s.store, Job(f, Resolved(s.worker.ps, f)), s.now, stuck)
            && t.now == s.now && t.worker == NextFile(s.worker)
            && Undisturbed(s, stuck) == Undisturbed(t, stuck)
  {
    var pruned := WorkerStep(s, stuck);
    assert Undisturbed(s, stuck) == Undisturbed(pruned, stuck);
    var aged := WorkerStep(pruned, stuck);
    assert Undisturbed(pruned, stuck) == Undisturbed(aged, stuck);
  }

  /** Undisturbed, the worker does exactly the pass of `Rotation` over its snapshot. */
  lemma {:induction false} UndisturbedIsPass(s: State, stuck: set<string>)
    requires s.worker.Busy? && s.worker.phase.ToPrune?
    ensures Undisturbed(s, stuck)
         == s.(worker := Idle, store := Pass(s.store, Jobs(s.worker.ps, s.worker.todo), s.now, stuck))
    decreases |s.worker.todo|
  {
    var jobs := Jobs(s.worker.ps, s.worker.todo);
    if s.worker.todo != [] {
      var f := s.worker.todo[0];
      var t := Aged(WorkerStep(s, stuck), stuck);
      FileIsRotated(s, stuck);
      KeepsPolicies(s, stuck);
      UndisturbedIsPass(t, stuck);
      assert jobs[0] == Job(f, Resolved(s.worker.ps, f)) && jobs[1..] == Jobs(s.worker.ps, s.worker.todo[1..]);
    } else {
      assert jobs == [];
    }
  }

  lemma KeepsPolicies(s: State, stuck: set<string>)
    requires s.worker.Busy? && s.worker.todo != [] && s.worker.phase.ToPrune?
    ensures Aged(WorkerStep(s, stuck), stuck).policies == s.policies
  {
  }

  // ---------------------------------------------------------------------------
  // Object keys under interleaving
  // ---------------------------------------------------------------------------

  /** The requests of a run are admissible in the sense of `KeyInvariants`. */
  ghost predicate AdmissibleRequests(c: Config, t: Trace)
    requires IsRun(c, t)
  {
    forall i | 0 <= i < |t.actions| && t.actions[i].Request? :: Admissible(c, t.states[i].store, t.actions[i].e)
  }

  lemma ActionIsGood(c: Config, s: State, a: Action)
    requires Enabled(s, a) && Inv(s.store) && (a.Request? ==> Admissible(c, s.store, a.e))
    ensures GoodStep(s.store, Do(c, s, a).store, if a.Request? then MovedBy(c, s.store, a.e) else {})
  {
    ActionIsEvent(c, s, a);
    if StoreEvent(s, a).Some? {
      StepIsGood(c, s.store, StoreEvent(s, a).value);
    } else {
      GoodStepRefl(s.store, {});
    }
  }

  /** With the worker interleaved anywhere, rows keep distinct keys and stored objects. */
  lemma {:induction false} RaceKeepsKeyInvariant(c: Config, t: Trace, k: nat)
    requires IsRun(c, t) && AdmissibleRequests(c, t) && k < |t.states|
    ensures Inv(t.states[k].store)
  {
    if k > 0 {
      RaceKeepsKeyInvariant(c, t, k - 1);
      assert Follows(c, t, k - 1);
      ActionIsGood(c, t.states[k - 1], t.actions[k - 1]);
    }
  }
}

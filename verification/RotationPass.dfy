/** The worker's `run_inner`, and the theorems about whole passes: recovery, idleness, exclusiveness, counters. */
module RotationPass {
  import opened Common
  import opened Schema
  import opened Lifecycle
  import opened FileServer
  import opened KeyInvariants
  import opened History
  import opened Policies
  import opened Rotation
  import opened RotationRecovery

  // ---------------------------------------------------------------------------
  // Policies and jobs of a pass
  // ---------------------------------------------------------------------------

  function JobsFor(s: Store, ps: seq<Policy>, order: seq<Uuid>): seq<Job>
    requires forall id | id in order :: id in s.files
  {
    Jobs(ps, Snapshot(s, order))
  }

  /** The policy in force for each file. */
  function Assigned(s: Store, ps: seq<Policy>): Assignment {
    (id: Uuid) => if id in s.files then Resolved(ps, Snap(id, s.files[id])) else Effective(0, 0, 0)
  }

  /** Rows that differ from those of `s` in nothing but the time they were trashed. */
  ghost predicate SameButTrash(s: Store, t: Store) {
    forall id | id in t.files :: id in s.files && t.files[id] == s.files[id].(deletedAt := t.files[id].deletedAt)
  }

  lemma {:induction false} ScanIgnoresTrash(ps: seq<Policy>, f: FileMin, level: nat, deletedAt: Option<int>)
    ensures Scan(ps, f.(deletedAt := deletedAt), level) == Scan(ps, f, level)
  {
    if ps != [] { ScanIgnoresTrash(ps[1..], f, level, deletedAt); }
  }

  lemma ResolvedIgnoresTrash(ps: seq<Policy>, f: FileMin, deletedAt: Option<int>)
    ensures Resolved(ps, f.(deletedAt := deletedAt)) == Resolved(ps, f)
  {
    ScanIgnoresTrash(ps, f, 0, deletedAt);
    ScanIgnoresTrash(ps, f, 1, deletedAt);
    ScanIgnoresTrash(ps, f, 2, deletedAt);
    ScanIgnoresTrash(ps, f, 3, deletedAt);
  }

  lemma EffectKeepsRows(s: Store, t: Store, e: Effect, stuck: set<string>)
    requires SameButTrash(s, t)
    ensures SameButTrash(s, Apply(t, e, stuck))
  {
  }

  lemma {:induction false} EffectsKeepRowsFrom(s: Store, t: Store, es: seq<Effect>, stuck: set<string>)
    requires SameButTrash(s, t)
    ensures SameButTrash(s, ApplyAll(t, es, stuck))
    decreases |es|
  {
    if es != [] {
      EffectKeepsRows(s, t, es[0], stuck);
      EffectsKeepRowsFrom(s, Apply(t, es[0], stuck), es[1..], stuck);
    }
  }

  lemma EffectsKeepRows(s: Store, es: seq<Effect>, stuck: set<string>)
    ensures SameButTrash(s, ApplyAll(s, es, stuck))
  {
    EffectsKeepRowsFrom(s, s, es, stuck);
  }

  lemma JobsAreCurrent(s: Store, t: Store, ps: seq<Policy>, order: seq<Uuid>)
    requires SameButTrash(s, t) && Enumerates(order, t)
    ensures AllCurrent(t, JobsFor(t, ps, order), Assigned(s, ps))
    ensures forall id | id in t.files :: exists j :: j in JobsFor(t, ps, order) && j.f.id == id
  {
    var jobs := JobsFor(t, ps, order);
    forall j | j in jobs
      ensures Current(t, j, Assigned(s, ps))
    {
      var i :| 0 <= i < |jobs| && jobs[i] == j;
      var id := order[i];
      assert j.f == Snap(id, t.files[id]);
      ResolvedIgnoresTrash(ps, Snap(id, s.files[id]), t.files[id].deletedAt);
      assert Snap(id, t.files[id]) == Snap(id, s.files[id]).(deletedAt := t.files[id].deletedAt);
    }
    forall id | id in t.files
      ensures exists j :: j in jobs && j.f.id == id
    {
      assert id in order;
      var i :| 0 <= i < |order| && order[i] == id;
      assert jobs[i] in jobs && jobs[i].f.id == id;
    }
  }

  /** The database states that runs reach are the ones the pass theorems ask for. */
  lemma RunsAreSound(c: Config, events: seq<Event>)
    requires AdmissibleRun(c, EMPTY, events)
    ensures Sound(Run(c, EMPTY, events))
  {
    RunIsGood(c, EMPTY, events);
  }

  // ---------------------------------------------------------------------------
  // Recovery and idleness
  // ---------------------------------------------------------------------------

  /** A whole pass, from any state with the policies of `s`, reaches the rows that `s` settles to. */
  lemma PassSettles(s: Store, t: Store, ps: seq<Policy>, order: seq<Uuid>, now: int, stuck: set<string>)
    requires Sound(t) && SameButTrash(s, t) && Enumerates(order, t)
    ensures var pol := Assigned(s, ps); var u := Pass(t, JobsFor(t, ps, order), now, stuck);
            && u.files == SettledFiles(t.files, pol, now) && u.versions == SettledVersions(t, pol, now)
            && ObjectsKept(t, u, pol, now) && Sound(u)
            && (forall id | id in u.files :: Done(u, pol, now, id))
  {
    var pol := Assigned(s, ps);
    var jobs := JobsFor(t, ps, order);
    var es := PassEffects(t, jobs, now, stuck);
    JobsAreCurrent(s, t, ps, order);
    PassLegit(t, jobs, pol, now, stuck);
    PassIsItsEffects(t, jobs, now, stuck);
    PrefixKeepsSettled(t, es, |es|, pol, now, stuck);
    assert es[..|es|] == es;
    var u := Pass(t, jobs, now, stuck);
    forall id | id in u.files
      ensures Done(u, pol, now, id)
    {
      EffectsKeepRows(t, es, stuck);
      PassDone(t, jobs, pol, now, stuck, id);
    }
    AllDoneIsSettled(u, pol, now);
  }

  /**
   What a pass does to a file. A live one is trashed exactly when it is older than its archive window, a trashed one is
   removed exactly when it has been there longer than its delete window, and otherwise the row stays as it is.
   */
  lemma PassDecidesFiles(s: Store, ps: seq<Policy>, order: seq<Uuid>, now: int, stuck: set<string>, id: Uuid)
    requires Sound(s) && Enumerates(order, s) && id in s.files
    ensures var u, row := Pass(s, JobsFor(s, ps, order), now, stuck), s.files[id];
            var e := Resolved(ps, Snap(id, row));
            if row.deletedAt.None? then
              && id in u.files
              && u.files[id] == if e.archiveDays > 0 && row.createdAt + e.archiveDays * DAY < now
                                then row.(deletedAt := Some(now)) else row
            else
              && (id !in u.files <==> e.deleteDays > 0 && row.deletedAt.value + e.deleteDays * DAY < now)
              && (id in u.files ==> u.files[id] == row)
  {
    PassSettles(s, s, ps, order, now, stuck);
  }

  /** Of the history of a file that stays, a pass keeps exactly the versions with fewer than `keep - 1` newer ones. */
  lemma PassDecidesVersions(
    s: Store, ps: seq<Policy>, order: seq<Uuid>, now: int, stuck: set<string>, id: Uuid, v: nat)
    requires Sound(s) && Enumerates(order, s) && (id, v) in s.versions
    ensures var u := Pass(s, JobsFor(s, ps, order), now, stuck);
            var keep := Resolved(ps, Snap(id, s.files[id])).keep;
            var newer := set w | w in Stored(s, id) && w > v;
            (id, v) in u.versions <==> id in u.files && (keep <= 0 || |newer| < keep - 1)
  {
    PassSettles(s, s, ps, order, now, stuck);
    SurvivesByCount(s, Assigned(s, ps), now, id, v);
  }

  lemma SurvivesByCount(s: Store, pol: Assignment, now: int, id: Uuid, v: nat)
    requires (id, v) in s.versions && id in s.files
    ensures var newer := set w | w in Stored(s, id) && w > v;
            Survives(s, pol, now, (id, v))
            <==> id in SettledFiles(s.files, pol, now) && (pol(id).keep <= 0 || |newer| < pol(id).keep - 1)
  {
    if pol(id).keep > 0 { NewestByCount(Stored(s, id), pol(id).keep - 1, v); }
  }

  /** A pass adds no row to any history and changes none. */
  lemma PassAddsNoVersion(s: Store, ps: seq<Policy>, order: seq<Uuid>, now: int, stuck: set<string>, r: VersionId)
    requires Sound(s) && Enumerates(order, s) && r in Pass(s, JobsFor(s, ps, order), now, stuck).versions
    ensures r in s.versions && Pass(s, JobsFor(s, ps, order), now, stuck).versions[r] == s.versions[r]
  {
    PassSettles(s, s, ps, order, now, stuck);
  }

  /**
   At a fixed clock: stop a pass between any two effects, run a full pass in any row order, and the database
   rows are those of one uninterrupted pass. Every object that the rows name is still there, byte for byte;
   what is left over is named by no row.
   */
  lemma StoppedPassRecovers(s: Store, ps: seq<Policy>, order: seq<Uuid>, now: int, stuck: set<string>, i: nat,
                            order2: seq<Uuid>, stuck2: set<string>)
    requires Sound(s) && Enumerates(order, s)
    ensures var es := PassEffects(s, JobsFor(s, ps, order), now, stuck);
            i <= |es| && Enumerates(order2, ApplyAll(s, es[..i], stuck)) ==>
              var full := Pass(s, JobsFor(s, ps, order), now, stuck);
              var stopped := ApplyAll(s, es[..i], stuck);
              var again := Pass(stopped, JobsFor(stopped, ps, order2), now, stuck2);
              && again.files == full.files && again.versions == full.versions
              && again.objects.Keys <= s.objects.Keys
              && forall r: VersionId | IsRef(again, r) && RefKey(again, r) in s.objects ::
                   RefKey(again, r) in again.objects && again.objects[RefKey(again, r)] == s.objects[RefKey(again, r)]
  {
    var pol := Assigned(s, ps);
    var jobs := JobsFor(s, ps, order);
    var es := PassEffects(s, jobs, now, stuck);
    if i <= |es| && Enumerates(order2, ApplyAll(s, es[..i], stuck)) {
      var stopped := ApplyAll(s, es[..i], stuck);
      JobsAreCurrent(s, s, ps, order);
      PassLegit(s, jobs, pol, now, stuck);
      PrefixKeepsSettled(s, es, i, pol, now, stuck);
      EffectsKeepRows(s, es[..i], stuck);
      PassSettles(s, s, ps, order, now, stuck);
      PassSettles(s, stopped, ps, order2, now, stuck2);
      WantedSame(s, stopped, pol, now);
      var again := Pass(stopped, JobsFor(stopped, ps, order2), now, stuck2);
      forall r: VersionId | IsRef(again, r)
        ensures Wanted(s, pol, now, RefKey(again, r))
      {
        NamedIsWanted(s, again, pol, now, r);
      }
    }
  }

  lemma NamedIsWanted(s: Store, u: Store, pol: Assignment, now: int, r: VersionId)
    requires u.files == SettledFiles(s.files, pol, now) && u.versions == SettledVersions(s, pol, now) && IsRef(u, r)
    ensures Wanted(s, pol, now, RefKey(u, r))
  {
    if r in u.versions {
      assert u.versions[r].objectKey == RefKey(u, r);
    } else {
      assert u.files[r.0].objectKey == RefKey(u, r);
    }
  }

  /** A further pass at the same clock prunes, archives and purges nothing. */
  lemma SecondPassIsIdle(s: Store, ps: seq<Policy>, order: seq<Uuid>, now: int, stuck: set<string>,
                         order2: seq<Uuid>, stuck2: set<string>)
    requires Sound(s) && Enumerates(order, s)
    requires Enumerates(order2, Pass(s, JobsFor(s, ps, order), now, stuck))
    ensures var u := Pass(s, JobsFor(s, ps, order), now, stuck);
            && PassEffects(u, JobsFor(u, ps, order2), now, stuck2) == []
            && Pass(u, JobsFor(u, ps, order2), now, stuck2) == u
  {
    var u := Pass(s, JobsFor(s, ps, order), now, stuck);
    PassSettles(s, s, ps, order, now, stuck);
    PassIsItsEffects(s, JobsFor(s, ps, order), now, stuck);
    EffectsKeepRows(s, PassEffects(s, JobsFor(s, ps, order), now, stuck), stuck);
    JobsAreCurrent(s, u, ps, order2);
    DonePassIsIdle(u, JobsFor(u, ps, order2), Assigned(s, ps), now, stuck2);
  }

  // ---------------------------------------------------------------------------
  // Archive or purge, never both
  // ---------------------------------------------------------------------------

  lemma {:induction false} LegitAt(s: Store, es: seq<Effect>, i: nat, pol: Assignment, now: int, stuck: set<string>)
    requires LegitRun(s, es, pol, now, stuck) && i < |es|
    ensures Legit(ApplyAll(s, es[..i], stuck), es[i], pol, now)
    decreases |es|
  {
    if i > 0 {
      LegitAt(Apply(s, es[0], stuck), es[1..], i - 1, pol, now, stuck);
      assert es[..i][1..] == es[1..][..i - 1];
    }
  }

  /** No file is both archived and purged by one pass. */
  lemma NeverArchivedAndPurged(s: Store, ps: seq<Policy>, order: seq<Uuid>, now: int, stuck: set<string>)
    requires Sound(s) && Enumerates(order, s)
    ensures var es := PassEffects(s, JobsFor(s, ps, order), now, stuck);
            forall i, j | 0 <= i < |es| && 0 <= j < |es| && es[i].SetDeletedAt? && es[j].DropRows? ::
              es[i].id != es[j].id
  {
    var pol := Assigned(s, ps);
    var es := PassEffects(s, JobsFor(s, ps, order), now, stuck);
    JobsAreCurrent(s, s, ps, order);
    PassLegit(s, JobsFor(s, ps, order), pol, now, stuck);
    forall i, j | 0 <= i < |es| && 0 <= j < |es| && es[i].SetDeletedAt? && es[j].DropRows?
      ensures es[i].id in SettledFiles(s.files, pol, now) && es[j].id !in SettledFiles(s.files, pol, now)
    {
      LegitAt(s, es, i, pol, now, stuck);
      LegitAt(s, es, j, pol, now, stuck);
      PrefixKeepsSettled(s, es, i, pol, now, stuck);
      PrefixKeepsSettled(s, es, j, pol, now, stuck);
    }
  }

  // ---------------------------------------------------------------------------
  // Counters
  // ---------------------------------------------------------------------------

  datatype Stats = Stats(pruned: nat, archived: nat, hardDeleted: nat)

  function Plus(a: Stats, b: Stats): Stats {
    Stats(a.pruned + b.pruned, a.archived + b.archived, a.hardDeleted + b.hardDeleted)
  }

  function One(e: Effect): Stats {
    match e
    case UnlinkObject(_) => Stats(0, 0, 0)
    case DropVersion(_, _) => Stats(1, 0, 0)
    case SetDeletedAt(_, _) => Stats(0, 1, 0)
    case DropRows(_) => Stats(0, 0, 1)
  }

  function Tally(es: seq<Effect>): Stats {
    if es == [] then Stats(0, 0, 0) else Plus(One(es[0]), Tally(es[1..]))
  }

  lemma {:induction false} TallyConcat(a: seq<Effect>, b: seq<Effect>)
    ensures Tally(a + b) == Plus(Tally(a), Tally(b))
  {
    if a == [] {
      assert a + b == b;
    } else {
      assert (a + b)[1..] == a[1..] + b;
      TallyConcat(a[1..], b);
    }
  }

  function LiveFiles(s: Store): set<Uuid> { set id | id in s.files && s.files[id].deletedAt.None? }

  function RowsOf(s: Store, id: Uuid): set<VersionId> { set r | r in s.versions && r.0 == id }

  /** Version rows that go with their purged file. */
  function Cascaded(s: Store, es: seq<Effect>, stuck: set<string>): nat
    decreases |es|
  {
    if es == [] then 0
    else (if es[0].DropRows? then |RowsOf(s, es[0].id)| else 0) + Cascaded(Apply(s, es[0], stuck), es[1..], stuck)
  }

  lemma FilesCounted(s: Store, e: Effect, pol: Assignment, now: int, stuck: set<string>)
    requires Legit(s, e, pol, now)
    ensures |s.files| - |Apply(s, e, stuck).files| == One(e).hardDeleted
  {
    var t := Apply(s, e, stuck);
    assert |s.files| == |s.files.Keys| && |t.files| == |t.files.Keys|;
    match e {
      case DropRows(id) => assert t.files.Keys == s.files.Keys - {id};
      case SetDeletedAt(id, _) => assert t.files.Keys == s.files.Keys;
      case UnlinkObject(_) =>
      case DropVersion(_, _) =>
    }
  }

  lemma LiveCounted(s: Store, e: Effect, pol: Assignment, now: int, stuck: set<string>)
    requires Legit(s, e, pol, now)
    ensures |LiveFiles(s)| - |LiveFiles(Apply(s, e, stuck))| == One(e).archived
  {
    var t := Apply(s, e, stuck);
    match e {
      case SetDeletedAt(id, _) => assert LiveFiles(t) == LiveFiles(s) - {id} && id in LiveFiles(s);
      case UnlinkObject(_) => assert LiveFiles(t) == LiveFiles(s);
      case DropVersion(_, _) => assert LiveFiles(t) == LiveFiles(s);
      case DropRows(_) => assert LiveFiles(t) == LiveFiles(s);
    }
  }

  lemma VersionsCounted(s: Store, e: Effect, pol: Assignment, now: int, stuck: set<string>)
    requires Legit(s, e, pol, now)
    ensures |s.versions| - |Apply(s, e, stuck).versions|
            == One(e).pruned + (if e.DropRows? then |RowsOf(s, e.id)| else 0)
  {
    var t := Apply(s, e, stuck);
    assert |s.versions| == |s.versions.Keys| && |t.versions| == |t.versions.Keys|;
    match e {
      case DropVersion(id, v) => assert t.versions.Keys == s.versions.Keys - {(id, v)};
      case DropRows(id) => assert s.versions.Keys == t.versions.Keys + RowsOf(s, id);
      case SetDeletedAt(id, _) => assert t.versions.Keys == s.versions.Keys;
      case UnlinkObject(_) =>
    }
  }

  /** The counters of a run of effects are the differences in row counts. */
  lemma {:induction false} TallyIsRowDifference(
    s: Store, es: seq<Effect>, pol: Assignment, now: int, stuck: set<string>)
    requires LegitRun(s, es, pol, now, stuck)
    ensures var t := ApplyAll(s, es, stuck); var n := Tally(es);
            && |s.files| - |t.files| == n.hardDeleted
            && |LiveFiles(s)| - |LiveFiles(t)| == n.archived
            && |s.versions| - |t.versions| == n.pruned + Cascaded(s, es, stuck)
    decreases |es|
  {
    if es != [] {
      FilesCounted(s, es[0], pol, now, stuck);
      LiveCounted(s, es[0], pol, now, stuck);
      VersionsCounted(s, es[0], pol, now, stuck);
      TallyIsRowDifference(Apply(s, es[0], stuck), es[1..], pol, now, stuck);
    }
  }

  /**
   A pass without interference counts what it did: `files_hard_deleted` and `files_archived` are the
   differences in rows and in live rows, `versions_pruned` the version rows gone other than by cascade.
   */
  lemma CountersAreRowDifferences(s: Store, ps: seq<Policy>, order: seq<Uuid>, now: int, stuck: set<string>)
    requires Sound(s) && Enumerates(order, s)
    ensures var es := PassEffects(s, JobsFor(s, ps, order), now, stuck);
            var t := Pass(s, JobsFor(s, ps, order), now, stuck); var n := Tally(es);
            && |s.files| - |t.files| == n.hardDeleted
            && |LiveFiles(s)| - |LiveFiles(t)| == n.archived
            && |s.versions| - |t.versions| == n.pruned + Cascaded(s, es, stuck)
  {
    var jobs := JobsFor(s, ps, order);
    JobsAreCurrent(s, s, ps, order);
    PassLegit(s, jobs, Assigned(s, ps), now, stuck);
    PassIsItsEffects(s, jobs, now, stuck);
    TallyIsRowDifference(s, PassEffects(s, jobs, now, stuck), Assigned(s, ps), now, stuck);
  }

  lemma {:induction false} PruneTally(s: Store, id: Uuid, vs: seq<nat>)
    requires forall v | v in vs :: (id, v) in s.versions
    ensures Tally(PruneEffects(s, id, vs)) == Stats(|vs|, 0, 0)
  {
    if vs != [] {
      PruneTally(s, id, vs[1..]);
      var es := PruneEffects(s, id, vs);
      assert es[1..][1..] == PruneEffects(s, id, vs[1..]);
    }
  }

  lemma {:induction false} UnlinkTally(keys: seq<string>)
    ensures Tally(UnlinkEffects(keys)) == Stats(0, 0, 0)
  {
    if keys != [] {
      assert UnlinkEffects(keys)[1..] == UnlinkEffects(keys[1..]);
      UnlinkTally(keys[1..]);
    }
  }

  lemma TallyOfOne(e: Effect)
    ensures Tally([e]) == One(e)
  {
    assert [e][1..] == [];
  }

  /** The guarded removal, its row in the trash since before the cutoff. */
  lemma PurgeTally(id: Uuid, keys: seq<string>)
    ensures Tally([DropRows(id)] + UnlinkEffects(keys)) == Stats(0, 0, 1)
  {
    TallyConcat([DropRows(id)], UnlinkEffects(keys));
    TallyOfOne(DropRows(id));
    UnlinkTally(keys);
  }

  lemma AgeTally(t: Store, e: Effective, f: FileMin, now: int)
    requires f.id in t.files && f == Snap(f.id, t.files[f.id])
    ensures Tally(AgeEffects(t, e, f, now))
         == Stats(0, if ArchiveDue(e, f, now) then 1 else 0, if PurgeDue(e, f, now) then 1 else 0)
  {
    if ArchiveDue(e, f, now) {
      TallyOfOne(SetDeletedAt(f.id, now));
    } else if PurgeDue(e, f, now) {
      PurgeTally(f.id, KeyList(t, f.id));
    }
  }

  function FileStats(s: Store, job: Job, now: int): Stats {
    Stats(|PruneList(s, job.e, job.f.id)|,
          if ArchiveDue(job.e, job.f, now) then 1 else 0,
          if PurgeDue(job.e, job.f, now) then 1 else 0)
  }

  /** What the loop body adds to the counters, when the snapshot row is current. */
  lemma FileTally(s: Store, job: Job, pol: Assignment, now: int)
    requires Current(s, job, pol)
    ensures Tally(FileEffects(s, job, now)) == FileStats(s, job, now)
  {
    var Job(f, e) := job;
    var t := Prune(s, f.id, e.keep, {});
    ListIsDistinct(s, e, f.id);
    PruneTally(s, f.id, PruneList(s, e, f.id));
    PruneFrame(s, f.id, e.keep, {});
    AgeTally(t, e, f, now);
    TallyConcat(PruneEffects(s, f.id, PruneList(s, e, f.id)), AgeEffects(t, e, f, now));
  }

  // ---------------------------------------------------------------------------
  // run_inner
  // ---------------------------------------------------------------------------

  /** The loop body: prune, then archive or purge. */
  method RotateOne(server: FileServer, f: FileMin, e: Effective, now: int, stuck: set<string>) returns (stats: Stats)
    modifies server
    ensures server.State() == RotateFile(old(server.State()), Job(f, e), now, stuck)
    ensures stats == FileStats(old(server.State()), Job(f, e), now)
  {
    var pruned, archived, hardDeleted := 0, 0, 0;
    if e.keep > 0 {
      pruned := server.PruneVersions(f.id, e.keep, stuck);
    }
    if f.deletedAt.None? {
      if e.archiveDays > 0 {
        var cutoff := now - e.archiveDays * DAY;
        if f.createdAt < cutoff {
          server.ArchiveFile(f.id, now);
          archived := 1;
        }
      }
    } else if e.deleteDays > 0 {
      var cutoff := now - e.deleteDays * DAY;
      if f.deletedAt.value < cutoff {
        server.HardDeleteFile(f.id, cutoff, stuck);
        hardDeleted := 1;
      }
    }
    stats := Stats(pruned, archived, hardDeleted);
  }

  /** One turn of the loop over the snapshot. */
  lemma PassStep(s: Store, jobs: seq<Job>, pol: Assignment, now: int, stuck: set<string>)
    requires jobs != [] && AllCurrent(s, jobs, pol)
    ensures var t := RotateFile(s, jobs[0], now, stuck);
            && AllCurrent(t, jobs[1..], pol)
            && Pass(s, jobs, now, stuck) == Pass(t, jobs[1..], now, stuck)
            && Tally(PassEffects(s, jobs, now, stuck))
               == Plus(FileStats(s, jobs[0], now), Tally(PassEffects(t, jobs[1..], now, stuck)))
  {
    FileTally(s, jobs[0], pol, now);
    TallyConcat(FileEffects(s, jobs[0], now), PassEffects(RotateFile(s, jobs[0], now, stuck), jobs[1..], now, stuck));
    AllCurrentNext(s, jobs, pol, now, stuck);
  }

  /** `SELECT id, system_id, ... FROM files`. */
  method TakeSnapshot(server: FileServer, order: seq<Uuid>) returns (snaps: seq<FileMin>)
    requires Enumerates(order, server.State())
    ensures snaps == Snapshot(server.State(), order)
  {
    snaps := [];
    var i := 0;
    while i < |order|
      invariant 0 <= i <= |order|
      invariant snaps == Snapshot(server.State(), order)[..i]
    {
      assert order[i] in order;
      snaps := snaps + [Snap(order[i], server.files[order[i]])];
      i := i + 1;
    }
  }

  /** The policy indexes built at the start of a pass. */
  datatype Indexes = Indexes(
    workspace: Option<Policy>, bySystem: map<string, Policy>, byOrg: map<string, Policy>, byUser: map<string, Policy>)

  ghost predicate Indexed(ps: seq<Policy>, x: Indexes) {
    && TableConstraints(ps)
    && (x.workspace.Some? ==> x.workspace.value in ps && x.workspace.value.scopeType.WorkspaceScope?)
    && (x.workspace.None? ==> forall p | p in ps :: !p.scopeType.WorkspaceScope?)
    && IsIndex(ps, x.bySystem, SystemScope) && IsIndex(ps, x.byOrg, OrgScope) && IsIndex(ps, x.byUser, UserScope)
  }

  method BuildIndexes(ps: seq<Policy>) returns (x: Indexes)
    requires TableConstraints(ps)
    ensures Indexed(ps, x)
  {
    var workspace := FindWorkspace(ps);
    var bySystem := IndexBy(ps, SystemScope);
    var byOrg := IndexBy(ps, OrgScope);
    var byUser := IndexBy(ps, UserScope);
    x := Indexes(workspace, bySystem, byOrg, byUser);
  }

  /** The loop body of `run_inner`: resolve, then act. */
  method RunOne(
    server: FileServer, ghost ps: seq<Policy>, x: Indexes, f: FileMin, ghost job: Job, now: int, stuck: set<string>)
    returns (stats: Stats)
    requires Indexed(ps, x) && job == Job(f, Resolved(ps, f))
    modifies server
    ensures server.State() == RotateFile(old(server.State()), job, now, stuck)
    ensures stats == FileStats(old(server.State()), job, now)
  {
    var e := Resolve(ps, f, x.workspace, x.bySystem, x.byOrg, x.byUser);
    stats := RotateOne(server, f, e, now, stuck);
  }

  /** Where a pass has to arrive: its final store and its counts, under the policies it started with. */
  datatype Goal = Goal(store: Store, total: Stats, pol: Assignment)

  /** The jobs still ahead lead to the goal, and their counts complete the total. */
  ghost predicate Ahead(s: Store, jobs: seq<Job>, stats: Stats, goal: Goal, now: int, stuck: set<string>) {
    && AllCurrent(s, jobs, goal.pol)
    && Pass(s, jobs, now, stuck) == goal.store
    && Plus(stats, Tally(PassEffects(s, jobs, now, stuck))) == goal.total
  }

  lemma AheadStep(s: Store, jobs: seq<Job>, stats: Stats, goal: Goal, now: int, stuck: set<string>)
    requires jobs != [] && Ahead(s, jobs, stats, goal, now, stuck)
    ensures var one := FileStats(s, jobs[0], now);
            Ahead(RotateFile(s, jobs[0], now, stuck), jobs[1..], Plus(stats, one), goal, now, stuck)
  {
    PassStep(s, jobs, goal.pol, now, stuck);
    var rest := Tally(PassEffects(RotateFile(s, jobs[0], now, stuck), jobs[1..], now, stuck));
    PlusAssociates(stats, FileStats(s, jobs[0], now), rest);
  }

  lemma AheadDone(s: Store, stats: Stats, goal: Goal, now: int, stuck: set<string>)
    requires Ahead(s, [], stats, goal, now, stuck)
    ensures s == goal.store && stats == goal.total
  {
  }

  lemma PlusAssociates(a: Stats, b: Stats, c: Stats)
    ensures Plus(Plus(a, b), c) == Plus(a, Plus(b, c))
  {
  }

  /** One turn of the loop of `run_inner`. */
  method RunTurn(
    server: FileServer, ghost ps: seq<Policy>, x: Indexes, f: FileMin, ghost jobs: seq<Job>, stats: Stats,
    ghost goal: Goal, now: int, stuck: set<string>) returns (next: Stats)
    requires Indexed(ps, x) && jobs != [] && jobs[0] == Job(f, Resolved(ps, f))
    requires Ahead(server.State(), jobs, stats, goal, now, stuck)
    modifies server
    ensures Ahead(server.State(), jobs[1..], next, goal, now, stuck)
  {
    AheadStep(server.State(), jobs, stats, goal, now, stuck);
    var one := RunOne(server, ps, x, f, jobs[0], now, stuck);
    next := Plus(stats, one);
  }

  /** The loop of `run_inner` over the snapshot. */
  method RunAll(
    server: FileServer, ghost ps: seq<Policy>, x: Indexes, snaps: seq<FileMin>, ghost jobs: seq<Job>,
    ghost goal: Goal, now: int, stuck: set<string>) returns (stats: Stats)
    requires Indexed(ps, x) && |jobs| == |snaps|
    requires forall i | 0 <= i < |jobs| :: jobs[i] == Job(snaps[i], Resolved(ps, snaps[i]))
    requires Ahead(server.State(), jobs, Stats(0, 0, 0), goal, now, stuck)
    modifies server
    ensures server.State() == goal.store && stats == goal.total
  {
    stats := Stats(0, 0, 0);
    ghost var rest := jobs;
    for i := 0 to |snaps|
      invariant rest == jobs[i..]
      invariant Ahead(server.State(), rest, stats, goal, now, stuck)
    {
      assert rest[0] == jobs[i];
      stats := RunTurn(server, ps, x, snaps[i], rest, stats, goal, now, stuck);
      rest := rest[1..];
    }
    AheadDone(server.State(), stats, goal, now, stuck);
  }

  /** `run_inner` up to the reaping of sessions: policies and files are read once, then each file is handled in turn. */
  method RotateFiles(server: FileServer, ps: seq<Policy>, order: seq<Uuid>, now: int, stuck: set<string>)
    returns (stats: Stats)
    requires TableConstraints(ps) && Enumerates(order, server.State())
    modifies server
    ensures server.State() == Pass(old(server.State()), JobsFor(old(server.State()), ps, order), now, stuck)
    ensures stats == Tally(PassEffects(old(server.State()), JobsFor(old(server.State()), ps, order), now, stuck))
  {
    var x := BuildIndexes(ps);
    var snaps := TakeSnapshot(server, order);
    ghost var s := server.State();
    ghost var jobs := JobsFor(s, ps, order);
    JobsAreCurrent(s, s, ps, order);
    ghost var goal := Goal(Pass(s, jobs, now, stuck), Tally(PassEffects(s, jobs, now, stuck)), Assigned(s, ps));
    stats := RunAll(server, ps, x, snaps, jobs, goal, now, stuck);
  }
}

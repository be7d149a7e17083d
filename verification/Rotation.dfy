/**
 One pass of the retention worker at a fixed clock, as the sequence of its effects on the database and the
 object store. Stopping it anywhere and running it again gives the rows of one uninterrupted pass.
 */
module Rotation {
  import opened Common
  import opened Storage
  import opened Schema
  import opened Lifecycle
  import opened History
  import opened Policies

  // ---------------------------------------------------------------------------
  // The pass
  // ---------------------------------------------------------------------------

  function Snapshot(s: Store, order: seq<Uuid>): seq<FileMin>
    requires forall id | id in order :: id in s.files
  {
    seq(|order|, i requires 0 <= i < |order| => Snap(order[i], s.files[order[i]]))
  }

  /** The files in whatever order the database returns them. */
  ghost predicate Enumerates(order: seq<Uuid>, s: Store) {
    && (forall id :: id in order <==> id in s.files)
    && (forall i, j | 0 <= i < j < |order| :: order[i] != order[j])
  }

  predicate ArchiveDue(e: Effective, f: FileMin, now: int) {
    f.deletedAt.None? && e.archiveDays > 0 && f.createdAt < now - e.archiveDays * DAY
  }

  predicate PurgeDue(e: Effective, f: FileMin, now: int) {
    f.deletedAt.Some? && e.deleteDays > 0 && f.deletedAt.value < now - e.deleteDays * DAY
  }

  /** A row of the snapshot with the policy resolved for it. */
  datatype Job = Job(f: FileMin, e: Effective)

  function Jobs(ps: seq<Policy>, snaps: seq<FileMin>): seq<Job> {
    seq(|snaps|, i requires 0 <= i < |snaps| => Job(snaps[i], Resolved(ps, snaps[i])))
  }

  /** The loop body of `run_inner` for one row of the snapshot. */
  function RotateFile(s: Store, job: Job, now: int, stuck: set<string>): Store {
    var Job(f, e) := job;
    var pruned := Prune(s, f.id, e.keep, stuck);
    if ArchiveDue(e, f, now) then Archive(pruned, f.id, now)
    else if PurgeDue(e, f, now) then Purge(pruned, f.id, now - e.deleteDays * DAY, stuck)
    else pruned
  }

  function Pass(s: Store, jobs: seq<Job>, now: int, stuck: set<string>): Store
    decreases |jobs|
  {
    if jobs == [] then s else Pass(RotateFile(s, jobs[0], now, stuck), jobs[1..], now, stuck)
  }

  // ---------------------------------------------------------------------------
  // Its effects, one by one
  // ---------------------------------------------------------------------------

  datatype Effect =
    | UnlinkObject(key: string)            // storage delete, best effort
    | DropVersion(id: Uuid, v: nat)        // DELETE FROM file_versions
    | SetDeletedAt(id: Uuid, now: int)     // UPDATE files SET deleted_at
    | DropRows(id: Uuid)                   // the committed transaction of hard_delete_file

  function Apply(s: Store, e: Effect, stuck: set<string>): Store {
    match e
    case UnlinkObject(key) => s.(objects := Unlink(s.objects, key, stuck))
    case DropVersion(id, v) => s.(versions := s.versions - {(id, v)})
    case SetDeletedAt(id, now) => Archive(s, id, now)
    case DropRows(id) => DropFile(s, id)
  }

  function ApplyAll(s: Store, es: seq<Effect>, stuck: set<string>): Store
    decreases |es|
  {
    if es == [] then s else ApplyAll(Apply(s, es[0], stuck), es[1..], stuck)
  }

  /** Object first, then the row, for each selected version that has a row. */
  function PruneEffects(s: Store, id: Uuid, vs: seq<nat>): seq<Effect> {
    if vs == [] then []
    else if (id, vs[0]) in s.versions then
      [UnlinkObject(s.versions[(id, vs[0])].objectKey), DropVersion(id, vs[0])] + PruneEffects(s, id, vs[1..])
    else PruneEffects(s, id, vs[1..])
  }

  function UnlinkEffects(keys: seq<string>): seq<Effect> {
    seq(|keys|, i requires 0 <= i < |keys| => UnlinkObject(keys[i]))
  }

  function KeySet(keys: seq<string>): set<string> { set k | k in keys }

  /** The main key, then the version keys. */
  function KeyList(s: Store, id: Uuid): seq<string>
    requires id in s.files
  {
    var d := Descending(Stored(s, id));
    [s.files[id].objectKey]
    + seq(|d|, i requires 0 <= i < |d| => if (id, d[i]) in s.versions then s.versions[(id, d[i])].objectKey else "")
  }

  function AgeEffects(s: Store, e: Effective, f: FileMin, now: int): seq<Effect> {
    if ArchiveDue(e, f, now) then [SetDeletedAt(f.id, now)]
    else if PurgeDue(e, f, now) && TrashedBefore(s, f.id, now - e.deleteDays * DAY) then
      [DropRows(f.id)] + UnlinkEffects(KeyList(s, f.id))
    else []
  }

  function PruneList(s: Store, e: Effective, id: Uuid): seq<nat> {
    if e.keep > 0 then ToEvict(s, id, e.keep) else []
  }

  function FileEffects(s: Store, job: Job, now: int): seq<Effect> {
    var Job(f, e) := job;
    PruneEffects(s, f.id, PruneList(s, e, f.id)) + AgeEffects(Prune(s, f.id, e.keep, {}), e, f, now)
  }

  function PassEffects(s: Store, jobs: seq<Job>, now: int, stuck: set<string>): seq<Effect>
    decreases |jobs|
  {
    if jobs == [] then []
    else FileEffects(s, jobs[0], now) + PassEffects(RotateFile(s, jobs[0], now, stuck), jobs[1..], now, stuck)
  }

  lemma {:induction false} ApplyAllConcat(s: Store, a: seq<Effect>, b: seq<Effect>, stuck: set<string>)
    ensures ApplyAll(s, a + b, stuck) == ApplyAll(ApplyAll(s, a, stuck), b, stuck)
    decreases |a|
  {
    if a == [] {
      assert a + b == b;
    } else {
      assert (a + b)[1..] == a[1..] + b;
      ApplyAllConcat(Apply(s, a[0], stuck), a[1..], b, stuck);
    }
  }

  lemma {:induction false} PruneEffectsFrame(s: Store, t: Store, id: Uuid, vs: seq<nat>)
    requires forall v | v in vs :: ((id, v) in s.versions <==> (id, v) in t.versions)
    requires forall v | v in vs && (id, v) in s.versions :: s.versions[(id, v)] == t.versions[(id, v)]
    ensures PruneEffects(s, id, vs) == PruneEffects(t, id, vs)
  {
    if vs != [] { PruneEffectsFrame(s, t, id, vs[1..]); }
  }

  lemma {:induction false} PruneIsItsEffects(s: Store, id: Uuid, vs: seq<nat>, stuck: set<string>)
    requires forall i, j | 0 <= i < j < |vs| :: vs[i] != vs[j]
    ensures ApplyAll(s, PruneEffects(s, id, vs), stuck) == EvictAll(s, id, vs, stuck)
    decreases |vs|
  {
    if vs != [] {
      var t := EvictOne(s, id, vs[0], stuck);
      assert forall v | v in vs[1..] :: v != vs[0];
      PruneEffectsFrame(s, t, id, vs[1..]);
      PruneIsItsEffects(t, id, vs[1..], stuck);
      if (id, vs[0]) in s.versions {
        var pair := [UnlinkObject(s.versions[(id, vs[0])].objectKey), DropVersion(id, vs[0])];
        ApplyAllConcat(s, pair, PruneEffects(s, id, vs[1..]), stuck);
        assert pair[1..] == [DropVersion(id, vs[0])] && pair[1..][1..] == [];
        var u := Apply(s, pair[0], stuck);
        assert Apply(u, pair[1], stuck) == t;
        assert ApplyAll(u, pair[1..], stuck) == t;
      }
    }
  }

  lemma {:induction false} UnlinksAreUnlinkAll(s: Store, keys: seq<string>, stuck: set<string>)
    ensures ApplyAll(s, UnlinkEffects(keys), stuck) == s.(objects := UnlinkAll(s.objects, KeySet(keys), stuck))
    decreases |keys|
  {
    if keys == [] {
      assert UnlinkAll(s.objects, KeySet(keys), stuck) == s.objects;
    } else {
      var t := Apply(s, UnlinkObject(keys[0]), stuck);
      assert UnlinkEffects(keys)[1..] == UnlinkEffects(keys[1..]);
      UnlinksAreUnlinkAll(t, keys[1..], stuck);
      assert UnlinkAll(t.objects, KeySet(keys[1..]), stuck) == UnlinkAll(s.objects, KeySet(keys), stuck);
    }
  }

  lemma VersionKeyIsListed(s: Store, id: Uuid, k: string)
    requires id in s.files && k in VersionKeys(s, id)
    ensures k in KeyList(s, id)
  {
    var d := Descending(Stored(s, id));
    var r :| r in s.versions && r.0 == id && s.versions[r].objectKey == k;
    assert r.1 in Stored(s, id) && r.1 in d;
    var i :| 0 <= i < |d| && d[i] == r.1;
    assert KeyList(s, id)[1 + i] == k;
  }

  lemma ListedKeyIsNamed(s: Store, id: Uuid, k: string)
    requires id in s.files && k in KeyList(s, id)
    ensures k == s.files[id].objectKey || k in VersionKeys(s, id)
  {
    var d := Descending(Stored(s, id));
    var i :| 0 <= i < |KeyList(s, id)| && KeyList(s, id)[i] == k;
    if i > 0 {
      assert d[i - 1] in Stored(s, id);
      var r: VersionId := (id, d[i - 1]);
      assert r in s.versions && s.versions[r].objectKey == k;
    }
  }

  lemma KeyListIsAllKeys(s: Store, id: Uuid)
    requires id in s.files
    ensures KeySet(KeyList(s, id)) == {s.files[id].objectKey} + VersionKeys(s, id)
  {
    assert KeyList(s, id)[0] == s.files[id].objectKey;
    forall k | k in VersionKeys(s, id)
      ensures k in KeyList(s, id)
    {
      VersionKeyIsListed(s, id, k);
    }
    forall k | k in KeyList(s, id)
      ensures k == s.files[id].objectKey || k in VersionKeys(s, id)
    {
      ListedKeyIsNamed(s, id, k);
    }
  }

  lemma PruneDbIgnoresStuck(s: Store, id: Uuid, keep: int, stuck: set<string>)
    ensures Prune(s, id, keep, stuck).files == Prune(s, id, keep, {}).files
    ensures Prune(s, id, keep, stuck).versions == Prune(s, id, keep, {}).versions
  {
    if keep > 0 {
      PruneKeepsNewest(s, id, keep, stuck);
      PruneKeepsNewest(s, id, keep, {});
    }
  }

  /** The worker's step on a file is the composition of its effects. */
  lemma RotateFileIsItsEffects(s: Store, job: Job, now: int, stuck: set<string>)
    ensures ApplyAll(s, FileEffects(s, job, now), stuck) == RotateFile(s, job, now, stuck)
  {
    var Job(f, e) := job;
    var vs := PruneList(s, e, f.id);
    var s1 := Prune(s, f.id, e.keep, stuck);
    var age := AgeEffects(Prune(s, f.id, e.keep, {}), e, f, now);
    ListIsDistinct(s, e, f.id);
    PruneIsItsEffects(s, f.id, vs, stuck);
    assert ApplyAll(s, PruneEffects(s, f.id, vs), stuck) == s1;
    ApplyAllConcat(s, PruneEffects(s, f.id, vs), age, stuck);
    PruneDbIgnoresStuck(s, f.id, e.keep, stuck);
    AgeIsItsEffects(s1, Prune(s, f.id, e.keep, {}), e, f, now, stuck);
  }

  lemma ListIsDistinct(s: Store, e: Effective, id: Uuid)
    ensures var vs := PruneList(s, e, id); forall i, j | 0 <= i < j < |vs| :: vs[i] != vs[j]
    ensures forall v | v in PruneList(s, e, id) ::
              (id, v) in s.versions && e.keep > 0 && v !in NewestOf(Stored(s, id), e.keep - 1)
  {
    if e.keep > 0 {
      var d := Descending(Stored(s, id));
      EvictedOrKept(s, id, e.keep);
      forall v | v in PruneList(s, e, id)
        ensures (id, v) in s.versions && v in Stored(s, id)
      {
        assert v in d;
      }
    }
  }

  lemma AgeIsItsEffects(s: Store, t: Store, e: Effective, f: FileMin, now: int, stuck: set<string>)
    requires t.files == s.files && t.versions == s.versions
    ensures ApplyAll(s, AgeEffects(t, e, f, now), stuck)
         == if ArchiveDue(e, f, now) then Archive(s, f.id, now)
            else if PurgeDue(e, f, now) then Purge(s, f.id, now - e.deleteDays * DAY, stuck)
            else s
  {
    if ArchiveDue(e, f, now) {
      assert [SetDeletedAt(f.id, now)][1..] == [];
    } else if PurgeDue(e, f, now) && TrashedBefore(s, f.id, now - e.deleteDays * DAY) {
      var keys := KeyList(t, f.id);
      var dropped := DropFile(s, f.id);
      assert ([DropRows(f.id)] + UnlinkEffects(keys))[1..] == UnlinkEffects(keys);
      UnlinksAreUnlinkAll(dropped, keys, stuck);
      KeyListIsAllKeys(t, f.id);
      assert VersionKeys(t, f.id) == VersionKeys(s, f.id);
    }
  }

  /** A whole pass is the composition of its effects. */
  lemma {:induction false} PassIsItsEffects(s: Store, jobs: seq<Job>, now: int, stuck: set<string>)
    ensures ApplyAll(s, PassEffects(s, jobs, now, stuck), stuck) == Pass(s, jobs, now, stuck)
    decreases |jobs|
  {
    if jobs != [] {
      var t := RotateFile(s, jobs[0], now, stuck);
      RotateFileIsItsEffects(s, jobs[0], now, stuck);
      PassIsItsEffects(t, jobs[1..], now, stuck);
      ApplyAllConcat(s, FileEffects(s, jobs[0], now), PassEffects(t, jobs[1..], now, stuck), stuck);
    }
  }
}

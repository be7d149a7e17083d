/**
 A rotation pass stopped between any two of its effects and run again ends in the same rows as one
 uninterrupted pass, keeps every object those rows name, and then has nothing left to do.
 */
module RotationRecovery {
  import opened Common
  import opened Storage
  import opened Schema
  import opened Lifecycle
  import opened KeyInvariants
  import opened History
  import opened Policies
  import opened Rotation

  // ---------------------------------------------------------------------------
  // The rows a pass is meant to leave, given the policy in force for each file
  // ---------------------------------------------------------------------------

  type Assignment = Uuid -> Effective

  predicate Gone(pol: Assignment, now: int, id: Uuid, row: FileRow) {
    PurgeDue(pol(id), Snap(id, row), now)
  }

  function Aged(pol: Assignment, now: int, id: Uuid, row: FileRow): FileRow {
    if ArchiveDue(pol(id), Snap(id, row), now) then row.(deletedAt := Some(now)) else row
  }

  function SettledFiles(files: map<Uuid, FileRow>, pol: Assignment, now: int): map<Uuid, FileRow> {
    map id | id in files && !Gone(pol, now, id, files[id]) :: Aged(pol, now, id, files[id])
  }

  /** Versions the policy keeps. */
  predicate Kept(s: Store, pol: Assignment, r: VersionId) {
    pol(r.0).keep <= 0 || r.1 in NewestOf(Stored(s, r.0), pol(r.0).keep - 1)
  }

  predicate Survives(s: Store, pol: Assignment, now: int, r: VersionId) {
    r in s.versions && r.0 in s.files && !Gone(pol, now, r.0, s.files[r.0]) && Kept(s, pol, r)
  }

  function SettledVersions(s: Store, pol: Assignment, now: int): map<VersionId, VersionRow> {
    map r | r in s.versions && Survives(s, pol, now, r) :: s.versions[r]
  }

  ghost predicate SameSettled(s: Store, t: Store, pol: Assignment, now: int) {
    && SettledFiles(s.files, pol, now) == SettledFiles(t.files, pol, now)
    && SettledVersions(s, pol, now) == SettledVersions(t, pol, now)
  }

  /** The objects those rows name. */
  ghost predicate Wanted(s: Store, pol: Assignment, now: int, key: string) {
    var files, versions := SettledFiles(s.files, pol, now), SettledVersions(s, pol, now);
    || (exists id :: id in files && files[id].objectKey == key)
    || (exists r :: r in versions && versions[r].objectKey == key)
  }

  /** Foreign key of `file_versions`, and one object per row. */
  ghost predicate Sound(s: Store) {
    (forall r | r in s.versions :: r.0 in s.files) && KeysDistinct(s)
  }

  // ---------------------------------------------------------------------------
  // The newest versions do not depend on what was already evicted
  // ---------------------------------------------------------------------------

  ghost predicate IsTop(vs: set<nat>, a: set<nat>) {
    a <= vs && forall x, y | x in a && y in vs - a :: x > y
  }

  lemma SubsetOfSameSize(a: set<nat>, b: set<nat>)
    requires a <= b && |a| >= |b|
    ensures a == b
  {
    assert b == a + (b - a);
  }

  lemma EmptyDifference(a: set<nat>, b: set<nat>)
    requires a - b == {}
    ensures a <= b
  {
    forall x | x in a ensures x in b { assert x !in a - b; }
  }

  lemma TopUnique(vs: set<nat>, a: set<nat>, b: set<nat>)
    requires IsTop(vs, a) && IsTop(vs, b) && |a| == |b|
    ensures a == b
  {
    assert forall x | x in a - b :: x in vs - b;
    assert forall y | y in b - a :: y in vs - a;
    if a - b == {} {
      EmptyDifference(a, b);
      SubsetOfSameSize(a, b);
    } else {
      var x :| x in a - b;
      assert b - a == {};
      EmptyDifference(b, a);
      SubsetOfSameSize(b, a);
    }
  }

  /** Dropping a version that is not among the newest leaves the newest unchanged. */
  lemma NewestSurvivesEviction(vs: set<nat>, n: nat, v: nat)
    requires v in vs && v !in NewestOf(vs, n)
    ensures NewestOf(vs - {v}, n) == NewestOf(vs, n)
  {
    var top, rest := NewestOf(vs, n), vs - {v};
    NewestOfIsTop(vs, n);
    NewestOfIsTop(rest, n);
    assert |top| < |vs| by { if |top| >= |vs| { SubsetOfSameSize(top, vs); } }
    assert |rest| == |vs| - 1;
    assert IsTop(rest, top);
    TopUnique(rest, NewestOf(rest, n), top);
  }

  lemma NewestOfFew(vs: set<nat>, n: nat)
    requires |vs| <= n
    ensures NewestOf(vs, n) == vs
  {
    NewestOfIsTop(vs, n);
    SubsetOfSameSize(NewestOf(vs, n), vs);
  }

  // ---------------------------------------------------------------------------
  // Effects that leave the target alone
  // ---------------------------------------------------------------------------

  ghost predicate Legit(s: Store, e: Effect, pol: Assignment, now: int) {
    match e
    case UnlinkObject(key) => !Wanted(s, pol, now, key)
    case DropVersion(id, v) => (id, v) in s.versions && id in s.files && !Kept(s, pol, (id, v))
    case SetDeletedAt(id, t) => t == now && id in s.files && ArchiveDue(pol(id), Snap(id, s.files[id]), now)
    case DropRows(id) => id in s.files && Gone(pol, now, id, s.files[id])
  }

  lemma StoredSame(s: Store, t: Store, id: Uuid)
    requires forall w: nat :: (id, w) in s.versions <==> (id, w) in t.versions
    ensures Stored(s, id) == Stored(t, id)
  {
    forall w: nat
      ensures w in Stored(t, id) <==> w in Stored(s, id)
    {
      assert w in Stored(t, id) <==> (id, w) in t.versions;
      assert w in Stored(s, id) <==> (id, w) in s.versions;
    }
  }

  lemma KeptSame(s: Store, t: Store, pol: Assignment, r: VersionId)
    requires forall w: nat :: (r.0, w) in s.versions <==> (r.0, w) in t.versions
    ensures Kept(s, pol, r) <==> Kept(t, pol, r)
  {
    StoredSame(s, t, r.0);
  }

  lemma KeptAfterEviction(s: Store, t: Store, id: Uuid, v: nat, pol: Assignment, r: VersionId)
    requires (id, v) in s.versions && !Kept(s, pol, (id, v)) && t.versions == s.versions - {(id, v)}
    ensures Kept(s, pol, r) <==> Kept(t, pol, r)
  {
    if r.0 == id {
      assert Stored(t, id) == Stored(s, id) - {v} by {
        forall w: nat
          ensures w in Stored(t, id) <==> w in Stored(s, id) && w != v
        {
          assert w in Stored(t, id) <==> (id, w) in t.versions;
          assert w in Stored(s, id) <==> (id, w) in s.versions;
        }
      }
      NewestSurvivesEviction(Stored(s, id), pol(id).keep - 1, v);
    } else {
      KeptSame(s, t, pol, r);
    }
  }

  lemma DropVersionSettled(s: Store, id: Uuid, v: nat, pol: Assignment, now: int, stuck: set<string>)
    requires Legit(s, DropVersion(id, v), pol, now)
    ensures SameSettled(s, Apply(s, DropVersion(id, v), stuck), pol, now)
  {
    var t := Apply(s, DropVersion(id, v), stuck);
    forall r: VersionId
      ensures Survives(s, pol, now, r) <==> Survives(t, pol, now, r)
    {
      KeptAfterEviction(s, t, id, v, pol, r);
    }
    assert SettledVersions(s, pol, now) == SettledVersions(t, pol, now);
  }

  lemma ArchiveSettled(s: Store, id: Uuid, pol: Assignment, now: int, stuck: set<string>)
    requires Legit(s, SetDeletedAt(id, now), pol, now)
    ensures SameSettled(s, Apply(s, SetDeletedAt(id, now), stuck), pol, now)
  {
    var t := Apply(s, SetDeletedAt(id, now), stuck);
    assert !Gone(pol, now, id, t.files[id]) && !Gone(pol, now, id, s.files[id]);
    assert Aged(pol, now, id, t.files[id]) == Aged(pol, now, id, s.files[id]);
    assert SettledFiles(s.files, pol, now) == SettledFiles(t.files, pol, now);
    forall r: VersionId
      ensures Survives(s, pol, now, r) <==> Survives(t, pol, now, r)
    {
      KeptSame(s, t, pol, r);
    }
    assert SettledVersions(s, pol, now) == SettledVersions(t, pol, now);
  }

  lemma DropRowsSettled(s: Store, id: Uuid, pol: Assignment, now: int, stuck: set<string>)
    requires Legit(s, DropRows(id), pol, now)
    ensures SameSettled(s, Apply(s, DropRows(id), stuck), pol, now)
  {
    var t := Apply(s, DropRows(id), stuck);
    assert SettledFiles(s.files, pol, now) == SettledFiles(t.files, pol, now);
    forall r: VersionId
      ensures Survives(s, pol, now, r) <==> Survives(t, pol, now, r)
    {
      if r.0 != id { KeptSame(s, t, pol, r); }
    }
    assert SettledVersions(s, pol, now) == SettledVersions(t, pol, now);
  }

  lemma UnlinkSettled(s: Store, key: string, pol: Assignment, now: int, stuck: set<string>)
    ensures SameSettled(s, Apply(s, UnlinkObject(key), stuck), pol, now)
  {
    var t := Apply(s, UnlinkObject(key), stuck);
    forall r: VersionId
      ensures Survives(s, pol, now, r) <==> Survives(t, pol, now, r)
    {
      KeptSame(s, t, pol, r);
    }
    assert SettledVersions(s, pol, now) == SettledVersions(t, pol, now);
  }

  /** No object appears, and the wanted ones stay as they are. */
  ghost predicate ObjectsKept(s: Store, t: Store, pol: Assignment, now: int) {
    && t.objects.Keys <= s.objects.Keys
    && forall k | k in s.objects && Wanted(s, pol, now, k) :: k in t.objects && t.objects[k] == s.objects[k]
  }

  /** Rows that only disappear, with their keys, stay sound. */
  lemma SubsetSound(s: Store, t: Store)
    requires Sound(s) && t.files.Keys <= s.files.Keys && t.versions.Keys <= s.versions.Keys
    requires forall id | id in t.files ::
               t.files[id].version == s.files[id].version && t.files[id].objectKey == s.files[id].objectKey
    requires forall r | r in t.versions :: t.versions[r] == s.versions[r] && r.0 in t.files
    ensures Sound(t)
  {
    forall q: VersionId | IsRef(t, q)
      ensures IsRef(s, q) && RefKey(t, q) == RefKey(s, q)
    {
      if q !in t.versions { assert (q.0, s.files[q.0].version) !in s.versions; }
    }
    forall id | id in t.files
      ensures (id, t.files[id].version) !in t.versions
    {
      assert (id, s.files[id].version) !in s.versions;
    }
    forall q: VersionId, r: VersionId ensures Apart(t, q, r) { assert Apart(s, q, r); }
  }

  lemma LegitKeepsSound(s: Store, e: Effect, pol: Assignment, now: int, stuck: set<string>)
    requires Legit(s, e, pol, now) && Sound(s)
    ensures Sound(Apply(s, e, stuck))
  {
    SubsetSound(s, Apply(s, e, stuck));
  }

  /** A legitimate effect changes neither the target rows nor the objects they name. */
  lemma LegitKeepsSettled(s: Store, e: Effect, pol: Assignment, now: int, stuck: set<string>)
    requires Legit(s, e, pol, now)
    ensures SameSettled(s, Apply(s, e, stuck), pol, now)
    ensures ObjectsKept(s, Apply(s, e, stuck), pol, now)
  {
    match e {
      case UnlinkObject(key) => UnlinkSettled(s, key, pol, now, stuck);
      case DropVersion(id, v) => DropVersionSettled(s, id, v, pol, now, stuck);
      case SetDeletedAt(id, _) => ArchiveSettled(s, id, pol, now, stuck);
      case DropRows(id) => DropRowsSettled(s, id, pol, now, stuck);
    }
  }

  // ---------------------------------------------------------------------------
  // Runs of legitimate effects
  // ---------------------------------------------------------------------------

  ghost predicate LegitRun(s: Store, es: seq<Effect>, pol: Assignment, now: int, stuck: set<string>)
    decreases |es|
  {
    es == [] || (Legit(s, es[0], pol, now) && LegitRun(Apply(s, es[0], stuck), es[1..], pol, now, stuck))
  }

  lemma {:induction false} LegitRunConcat(
    s: Store, a: seq<Effect>, b: seq<Effect>, pol: Assignment, now: int, stuck: set<string>)
    requires LegitRun(s, a, pol, now, stuck) && LegitRun(ApplyAll(s, a, stuck), b, pol, now, stuck)
    ensures LegitRun(s, a + b, pol, now, stuck)
    decreases |a|
  {
    if a == [] {
      assert a + b == b;
    } else {
      assert (a + b)[1..] == a[1..] + b;
      LegitRunConcat(Apply(s, a[0], stuck), a[1..], b, pol, now, stuck);
    }
  }

  lemma WantedSame(s: Store, t: Store, pol: Assignment, now: int)
    requires SameSettled(s, t, pol, now)
    ensures forall k :: Wanted(s, pol, now, k) <==> Wanted(t, pol, now, k)
  {
  }

  /** Stopped after any number of effects, the target rows and their objects are still all there. */
  lemma {:induction false} PrefixKeepsSettled(
    s: Store, es: seq<Effect>, i: nat, pol: Assignment, now: int, stuck: set<string>)
    requires LegitRun(s, es, pol, now, stuck) && i <= |es| && Sound(s)
    ensures var p := ApplyAll(s, es[..i], stuck);
            SameSettled(s, p, pol, now) && Sound(p) && ObjectsKept(s, p, pol, now)
    decreases |es|
  {
    if i > 0 {
      var t := Apply(s, es[0], stuck);
      LegitKeepsSettled(s, es[0], pol, now, stuck);
      LegitKeepsSound(s, es[0], pol, now, stuck);
      PrefixKeepsSettled(t, es[1..], i - 1, pol, now, stuck);
      assert es[..i][1..] == es[1..][..i - 1];
      WantedSame(s, t, pol, now);
    }
  }

  // ---------------------------------------------------------------------------
  // Every effect of a pass is legitimate
  // ---------------------------------------------------------------------------

  /** A wanted object is named by a row that stays. */
  lemma WantedHasRow(s: Store, pol: Assignment, now: int, key: string) returns (q: VersionId)
    requires Sound(s) && Wanted(s, pol, now, key)
    ensures IsRef(s, q) && RefKey(s, q) == key
    ensures q in s.versions ==> Survives(s, pol, now, q)
    ensures q !in s.versions ==> !Gone(pol, now, q.0, s.files[q.0])
  {
    var files, versions := SettledFiles(s.files, pol, now), SettledVersions(s, pol, now);
    if id :| id in files && files[id].objectKey == key {
      q := (id, s.files[id].version);
    } else {
      q :| q in versions && versions[q].objectKey == key;
    }
  }

  /** A row that goes away takes with it the only reference to its object. */
  lemma OwnKeyNotWanted(s: Store, r: VersionId, pol: Assignment, now: int)
    requires Sound(s) && IsRef(s, r)
    requires r in s.versions ==> !Survives(s, pol, now, r)
    requires r !in s.versions ==> Gone(pol, now, r.0, s.files[r.0])
    ensures !Wanted(s, pol, now, RefKey(s, r))
  {
    assert forall q: VersionId | IsRef(s, q) && RefKey(s, q) == RefKey(s, r) :: Apart(s, q, r);
    if Wanted(s, pol, now, RefKey(s, r)) {
      var q := WantedHasRow(s, pol, now, RefKey(s, r));
    }
  }

  lemma UnlinkKeepsRows(s: Store, key: string, pol: Assignment, now: int, stuck: set<string>)
    requires Sound(s)
    ensures var t := Apply(s, UnlinkObject(key), stuck);
            Sound(t) && t.files == s.files && t.versions == s.versions
            && forall r: VersionId :: Kept(t, pol, r) <==> Kept(s, pol, r)
  {
    var t := Apply(s, UnlinkObject(key), stuck);
    SubsetSound(s, t);
    forall r: VersionId ensures Kept(t, pol, r) <==> Kept(s, pol, r) { KeptSame(s, t, pol, r); }
  }

  lemma {:induction false} PruneEffectsLegit(
    s: Store, id: Uuid, vs: seq<nat>, pol: Assignment, now: int, stuck: set<string>)
    requires Sound(s) && id in s.files
    requires forall i, j | 0 <= i < j < |vs| :: vs[i] != vs[j]
    requires forall v | v in vs :: (id, v) in s.versions && !Kept(s, pol, (id, v))
    ensures LegitRun(s, PruneEffects(s, id, vs), pol, now, stuck)
    decreases |vs|
  {
    if vs != [] {
      var v, key := vs[0], s.versions[(id, vs[0])].objectKey;
      var es := PruneEffects(s, id, vs);
      OwnKeyNotWanted(s, (id, v), pol, now);
      assert Legit(s, es[0], pol, now);
      var u := Apply(s, es[0], stuck);
      UnlinkKeepsRows(s, key, pol, now, stuck);
      assert es[1] == DropVersion(id, v) && Legit(u, es[1], pol, now);
      var t := Apply(u, es[1], stuck);
      LegitKeepsSound(u, es[1], pol, now, stuck);
      forall w | w in vs[1..]
        ensures (id, w) in t.versions && !Kept(t, pol, (id, w))
      {
        assert w != v;
        KeptAfterEviction(u, t, id, v, pol, (id, w));
      }
      PruneEffectsLegit(t, id, vs[1..], pol, now, stuck);
      PruneEffectsFrame(s, t, id, vs[1..]);
      assert es[1..][1..] == PruneEffects(s, id, vs[1..]);
      assert LegitRun(u, es[1..], pol, now, stuck);
    }
  }

  lemma {:induction false} UnlinksLegit(s: Store, keys: seq<string>, pol: Assignment, now: int, stuck: set<string>)
    requires forall k | k in keys :: !Wanted(s, pol, now, k)
    ensures LegitRun(s, UnlinkEffects(keys), pol, now, stuck)
    decreases |keys|
  {
    if keys != [] {
      var t := Apply(s, UnlinkObject(keys[0]), stuck);
      UnlinkSettled(s, keys[0], pol, now, stuck);
      WantedSame(s, t, pol, now);
      UnlinksLegit(t, keys[1..], pol, now, stuck);
      assert UnlinkEffects(keys)[1..] == UnlinkEffects(keys[1..]);
    }
  }

  lemma AgeEffectsLegit(s: Store, t: Store, f: FileMin, pol: Assignment, now: int, stuck: set<string>)
    requires Sound(s) && f.id in s.files && f == Snap(f.id, s.files[f.id])
    requires t.files == s.files && t.versions == s.versions
    ensures LegitRun(s, AgeEffects(t, pol(f.id), f, now), pol, now, stuck)
  {
    var e := pol(f.id);
    var es := AgeEffects(t, e, f, now);
    if ArchiveDue(e, f, now) {
      assert es[1..] == [];
    } else if PurgeDue(e, f, now) {
      var keys := KeyList(t, f.id);
      var dropped := Apply(s, DropRows(f.id), stuck);
      KeyListIsAllKeys(t, f.id);
      DropRowsSettled(s, f.id, pol, now, stuck);
      WantedSame(s, dropped, pol, now);
      forall k | k in keys
        ensures !Wanted(dropped, pol, now, k)
      {
        assert k in KeySet(keys);
        if k == s.files[f.id].objectKey {
          OwnKeyNotWanted(s, (f.id, s.files[f.id].version), pol, now);
        } else {
          var r :| r in t.versions && r.0 == f.id && t.versions[r].objectKey == k;
          OwnKeyNotWanted(s, r, pol, now);
        }
      }
      UnlinksLegit(dropped, keys, pol, now, stuck);
      assert es[1..] == UnlinkEffects(keys);
    }
  }

  /** A job that matches the current row and its policy. */
  ghost predicate Current(s: Store, job: Job, pol: Assignment) {
    job.f.id in s.files && job.f == Snap(job.f.id, s.files[job.f.id]) && job.e == pol(job.f.id)
  }

  lemma FileEffectsLegit(s: Store, job: Job, pol: Assignment, now: int, stuck: set<string>)
    requires Sound(s) && Current(s, job, pol)
    ensures LegitRun(s, FileEffects(s, job, now), pol, now, stuck)
    ensures Sound(RotateFile(s, job, now, stuck))
  {
    var Job(f, e) := job;
    var vs := PruneList(s, e, f.id);
    var prune := PruneEffects(s, f.id, vs);
    ListIsDistinct(s, e, f.id);
    PruneEffectsLegit(s, f.id, vs, pol, now, stuck);
    PruneIsItsEffects(s, f.id, vs, stuck);
    var s1 := Prune(s, f.id, e.keep, stuck);
    assert ApplyAll(s, prune, stuck) == s1;
    PrefixKeepsSettled(s, prune, |prune|, pol, now, stuck);
    assert prune[..|prune|] == prune;
    PruneDbIgnoresStuck(s, f.id, e.keep, stuck);
    PruneFrame(s, f.id, e.keep, stuck);
    AgeEffectsLegit(s1, Prune(s, f.id, e.keep, {}), f, pol, now, stuck);
    LegitRunConcat(s, prune, AgeEffects(Prune(s, f.id, e.keep, {}), e, f, now), pol, now, stuck);
    var es := FileEffects(s, job, now);
    PrefixKeepsSettled(s, es, |es|, pol, now, stuck);
    assert es[..|es|] == es;
    RotateFileIsItsEffects(s, job, now, stuck);
  }

  lemma PruneFrame(s: Store, id: Uuid, keep: int, stuck: set<string>)
    ensures Prune(s, id, keep, stuck).files == s.files
    ensures forall r: VersionId | r.0 != id :: (r in Prune(s, id, keep, stuck).versions <==> r in s.versions)
  {
    if keep > 0 { PruneKeepsNewest(s, id, keep, stuck); }
  }

  /** Nothing about other files changes. */
  ghost predicate OthersSame(s: Store, t: Store, id: Uuid) {
    && (forall x: Uuid | x != id :: (x in t.files <==> x in s.files))
    && (forall x | x != id && x in s.files :: t.files[x] == s.files[x])
    && (forall r: VersionId | r.0 != id :: (r in t.versions <==> r in s.versions))
  }

  lemma AgeFrame(s: Store, job: Job, now: int, stuck: set<string>)
    ensures OthersSame(s, Archive(s, job.f.id, now), job.f.id)
    ensures OthersSame(s, Purge(s, job.f.id, now - job.e.deleteDays * DAY, stuck), job.f.id)
  {
  }

  lemma OthersSameCompose(s: Store, t: Store, u: Store, id: Uuid)
    requires OthersSame(s, t, id) && OthersSame(t, u, id)
    ensures OthersSame(s, u, id)
  {
  }

  /** Rotating one file leaves every other file's rows alone. */
  lemma RotateFileFrame(s: Store, job: Job, now: int, stuck: set<string>)
    ensures OthersSame(s, RotateFile(s, job, now, stuck), job.f.id)
  {
    var id := job.f.id;
    var t := Prune(s, id, job.e.keep, stuck);
    PruneFrame(s, id, job.e.keep, stuck);
    AgeFrame(t, job, now, stuck);
    OthersSameCompose(s, t, Archive(t, id, now), id);
    OthersSameCompose(s, t, Purge(t, id, now - job.e.deleteDays * DAY, stuck), id);
  }

  ghost predicate AllCurrent(s: Store, jobs: seq<Job>, pol: Assignment) {
    && (forall j | j in jobs :: Current(s, j, pol))
    && (forall i, j | 0 <= i < j < |jobs| :: jobs[i].f.id != jobs[j].f.id)
  }

  lemma AllCurrentNext(s: Store, jobs: seq<Job>, pol: Assignment, now: int, stuck: set<string>)
    requires AllCurrent(s, jobs, pol) && jobs != []
    ensures AllCurrent(RotateFile(s, jobs[0], now, stuck), jobs[1..], pol)
  {
    RotateFileFrame(s, jobs[0], now, stuck);
    forall j | j in jobs[1..]
      ensures Current(RotateFile(s, jobs[0], now, stuck), j, pol)
    {
      assert j.f.id != jobs[0].f.id;
      assert Current(s, j, pol);
    }
  }

  lemma {:induction false} PassLegit(s: Store, jobs: seq<Job>, pol: Assignment, now: int, stuck: set<string>)
    requires Sound(s) && AllCurrent(s, jobs, pol)
    ensures LegitRun(s, PassEffects(s, jobs, now, stuck), pol, now, stuck)
    decreases |jobs|
  {
    if jobs != [] {
      var t := RotateFile(s, jobs[0], now, stuck);
      FileEffectsLegit(s, jobs[0], pol, now, stuck);
      RotateFileIsItsEffects(s, jobs[0], now, stuck);
      AllCurrentNext(s, jobs, pol, now, stuck);
      PassLegit(t, jobs[1..], pol, now, stuck);
      LegitRunConcat(s, FileEffects(s, jobs[0], now), PassEffects(t, jobs[1..], now, stuck), pol, now, stuck);
    }
  }

  // ---------------------------------------------------------------------------
  // A completed pass has nothing left to do
  // ---------------------------------------------------------------------------

  ghost predicate Done(s: Store, pol: Assignment, now: int, id: Uuid) {
    id in s.files ==>
      && !Gone(pol, now, id, s.files[id])
      && !ArchiveDue(pol(id), Snap(id, s.files[id]), now)
      && (pol(id).keep > 0 ==> |Stored(s, id)| <= pol(id).keep - 1)
  }

  lemma PrunedIsShort(s: Store, id: Uuid, keep: int, stuck: set<string>)
    ensures Prune(s, id, keep, stuck).files == s.files
    ensures keep > 0 ==> |Stored(Prune(s, id, keep, stuck), id)| <= keep - 1
  {
    if keep > 0 { PruneKeepsNewest(s, id, keep, stuck); }
  }

  lemma RotateFileDone(s: Store, job: Job, pol: Assignment, now: int, stuck: set<string>)
    requires Current(s, job, pol)
    ensures Done(RotateFile(s, job, now, stuck), pol, now, job.f.id)
  {
    var Job(f, e) := job;
    var s1, t := Prune(s, f.id, e.keep, stuck), RotateFile(s, job, now, stuck);
    PrunedIsShort(s, f.id, e.keep, stuck);
    if f.id in t.files { StoredSame(s1, t, f.id); }
  }

  lemma DoneFrame(s: Store, job: Job, pol: Assignment, now: int, stuck: set<string>, id: Uuid)
    requires Done(s, pol, now, id) && id != job.f.id
    ensures Done(RotateFile(s, job, now, stuck), pol, now, id)
  {
    RotateFileFrame(s, job, now, stuck);
    StoredSame(s, RotateFile(s, job, now, stuck), id);
  }

  lemma {:induction false} PassDone(s: Store, jobs: seq<Job>, pol: Assignment, now: int, stuck: set<string>, id: Uuid)
    requires AllCurrent(s, jobs, pol)
    requires Done(s, pol, now, id) || exists j :: j in jobs && j.f.id == id
    ensures Done(Pass(s, jobs, now, stuck), pol, now, id)
    decreases |jobs|
  {
    if jobs != [] {
      AllCurrentNext(s, jobs, pol, now, stuck);
      if jobs[0].f.id == id {
        RotateFileDone(s, jobs[0], pol, now, stuck);
      } else if Done(s, pol, now, id) {
        DoneFrame(s, jobs[0], pol, now, stuck, id);
      } else {
        var j :| j in jobs && j.f.id == id;
        assert j in jobs[1..];
      }
      PassDone(RotateFile(s, jobs[0], now, stuck), jobs[1..], pol, now, stuck, id);
    }
  }

  lemma DoneVersionSurvives(s: Store, pol: Assignment, now: int, r: VersionId)
    requires r in s.versions && r.0 in s.files && Done(s, pol, now, r.0)
    ensures Survives(s, pol, now, r)
  {
    assert r.1 in Stored(s, r.0);
    if pol(r.0).keep > 0 { NewestOfFew(Stored(s, r.0), pol(r.0).keep - 1); }
  }

  lemma DoneFilesAreSettled(s: Store, pol: Assignment, now: int)
    requires forall id | id in s.files :: Done(s, pol, now, id)
    ensures SettledFiles(s.files, pol, now) == s.files
  {
  }

  lemma AllDoneIsSettled(s: Store, pol: Assignment, now: int)
    requires (forall r | r in s.versions :: r.0 in s.files) && forall id | id in s.files :: Done(s, pol, now, id)
    ensures SettledFiles(s.files, pol, now) == s.files && SettledVersions(s, pol, now) == s.versions
  {
    DoneFilesAreSettled(s, pol, now);
    forall r | r in s.versions
      ensures Survives(s, pol, now, r)
    {
      DoneVersionSurvives(s, pol, now, r);
    }
  }

  /** On settled rows a pass has no effect at all: it prunes, archives and purges nothing. */
  lemma {:induction false} DonePassIsIdle(s: Store, jobs: seq<Job>, pol: Assignment, now: int, stuck: set<string>)
    requires AllCurrent(s, jobs, pol) && forall id | id in s.files :: Done(s, pol, now, id)
    ensures PassEffects(s, jobs, now, stuck) == [] && Pass(s, jobs, now, stuck) == s
    decreases |jobs|
  {
    if jobs != [] {
      var Job(f, e) := jobs[0];
      assert Current(s, jobs[0], pol) && Done(s, pol, now, f.id);
      assert PruneList(s, e, f.id) == [];
      RotateFileIsItsEffects(s, jobs[0], now, stuck);
      assert FileEffects(s, jobs[0], now) == [];
      assert RotateFile(s, jobs[0], now, stuck) == s;
      DonePassIsIdle(s, jobs[1..], pol, now, stuck);
    }
  }
}

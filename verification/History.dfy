/**
 The stored history of a file: over every run it is a contiguous block of version numbers ending just
 below the current one, and pruning keeps exactly the newest ones the policy allows.
 */
module History {
  import opened Common
  import opened Storage
  import opened Schema
  import opened Quota
  import opened Lifecycle
  import opened KeyInvariants

  // ---------------------------------------------------------------------------
  // What pruning leaves
  // ---------------------------------------------------------------------------

  /** Rows left after dropping the listed versions of a file. */
  function Without(versions: map<VersionId, VersionRow>, id: Uuid, vs: seq<nat>): map<VersionId, VersionRow> {
    map r | r in versions && !(r.0 == id && r.1 in vs) :: versions[r]
  }

  lemma {:induction false} EvictAllDrops(s: Store, id: Uuid, vs: seq<nat>, stuck: set<string>)
    ensures EvictAll(s, id, vs, stuck).versions == Without(s.versions, id, vs)
    ensures EvictAll(s, id, vs, stuck).files == s.files && EvictAll(s, id, vs, stuck).issued == s.issued
    decreases |vs|
  {
    if vs != [] {
      EvictAllDrops(EvictOne(s, id, vs[0], stuck), id, vs[1..], stuck);
      assert forall v :: v in vs <==> v == vs[0] || v in vs[1..];
    }
  }

  function Elements(d: seq<nat>): set<nat> { set v | v in d }

  /** The newest `n` of a set of versions. */
  function NewestOf(vs: set<nat>, n: nat): (kept: set<nat>)
    ensures kept <= vs
  {
    var d := Descending(vs);
    Elements(d[..Min(n, |d|)])
  }

  lemma NewestOfIsTop(vs: set<nat>, n: nat)
    ensures |NewestOf(vs, n)| == Min(n, |vs|)
    ensures forall a, b | a in NewestOf(vs, n) && b in vs - NewestOf(vs, n) :: a > b
  {
    var d := Descending(vs);
    var k := Min(n, |d|);
    DistinctCount(d[..k]);
    forall a, b | a in NewestOf(vs, n) && b in vs - NewestOf(vs, n)
      ensures a > b
    {
      var i :| 0 <= i < k && d[..k][i] == a;
      var j :| 0 <= j < |d| && d[j] == b;
      assert forall t | 0 <= t < k :: d[..k][t] == d[t];
      assert j >= k;
    }
  }

  lemma SubsetIsSmaller(a: set<nat>, b: set<nat>)
    requires a <= b
    ensures |a| <= |b| && (|a| == |b| ==> a == b)
  {
    assert b == a + (b - a);
  }

  lemma TopByCount(vs: set<nat>, top: set<nat>, newer: set<nat>, n: nat, v: nat)
    requires v in vs && top <= vs && |top| == Min(n, |vs|) && forall w :: w in newer <==> w in vs && w > v
    requires forall a, b | a in top && b in vs - top :: a > b
    ensures v in top <==> |newer| < n
  {
    if v in top {
      forall w | w in newer ensures w in top - {v} { assert w in top || w in vs - top; }
      SubsetIsSmaller(newer, top - {v});
    } else {
      forall a | a in top ensures a in newer { assert v in vs - top; }
      SubsetIsSmaller(top, newer);
      SubsetIsSmaller(top, vs);
    }
  }

  /** A version is among the newest `n` exactly when fewer than `n` are newer. */
  lemma NewestByCount(vs: set<nat>, n: nat, v: nat)
    requires v in vs
    ensures v in NewestOf(vs, n) <==> |set w | w in vs && w > v| < n
  {
    var newer := set w | w in vs && w > v;
    NewestOfIsTop(vs, n);
    TopByCount(vs, NewestOf(vs, n), newer, n, v);
  }

  lemma {:induction false} DistinctCount(d: seq<nat>)
    requires forall i, j | 0 <= i < j < |d| :: d[i] > d[j]
    ensures |Elements(d)| == |d|
  {
    if d != [] {
      DistinctCount(d[1..]);
      assert d[0] !in Elements(d[1..]);
      assert Elements(d) == {d[0]} + Elements(d[1..]);
    }
  }

  lemma DescendingSplit(d: seq<nat>, k: nat, v: nat)
    requires k <= |d| && v in d
    requires forall i, j | 0 <= i < j < |d| :: d[i] > d[j]
    ensures v in d[k..] <==> v !in d[..k]
  {
    var i :| 0 <= i < |d| && d[i] == v;
    if i < k { assert d[..k][i] == v; } else { assert d[k..][i - k] == v; }
  }

  lemma EvictedOrKept(s: Store, id: Uuid, keep: int)
    requires keep > 0
    ensures forall v | v in Stored(s, id) ::
              v in ToEvict(s, id, keep) <==> v !in NewestOf(Stored(s, id), keep - 1)
  {
    var d := Descending(Stored(s, id));
    var k := Min(keep - 1, |d|);
    forall v | v in Stored(s, id)
      ensures v in ToEvict(s, id, keep) <==> v !in NewestOf(Stored(s, id), keep - 1)
    {
      DescendingSplit(d, k, v);
    }
  }

  lemma StoredWithout(s: Store, s': Store, id: Uuid, vs: seq<nat>)
    requires s'.versions == Without(s.versions, id, vs)
    ensures forall v: nat :: v in Stored(s', id) <==> v in Stored(s, id) && v !in vs
  {
    forall v: nat
      ensures v in Stored(s', id) <==> v in Stored(s, id) && v !in vs
    {
      assert v in Stored(s', id) <==> (id, v) in s'.versions;
      assert v in Stored(s, id) <==> (id, v) in s.versions;
    }
  }

  /**
   `keep = n > 0` leaves exactly the min(n - 1, count) highest stored versions of the file, and no other row
   changes.
   */
  lemma PruneKeepsNewest(s: Store, id: Uuid, keep: int, stuck: set<string>)
    requires keep > 0
    ensures var s' := Prune(s, id, keep, stuck);
            && Stored(s', id) == NewestOf(Stored(s, id), keep - 1)
            && |Stored(s', id)| == Min(keep - 1, |Stored(s, id)|)
            && (forall a, b | a in Stored(s', id) && b in Stored(s, id) - Stored(s', id) :: a > b)
            && s'.versions == Without(s.versions, id, ToEvict(s, id, keep))
            && s'.files == s.files && s'.issued == s.issued
  {
    var s' := Prune(s, id, keep, stuck);
    var vs := ToEvict(s, id, keep);
    EvictAllDrops(s, id, vs, stuck);
    NewestOfIsTop(Stored(s, id), keep - 1);
    EvictedOrKept(s, id, keep);
    StoredWithout(s, s', id, vs);
  }

  lemma PruneKeepsFiles(s: Store, id: Uuid, keep: int, stuck: set<string>)
    ensures Prune(s, id, keep, stuck).files == s.files
  {
    if keep > 0 { PruneKeepsNewest(s, id, keep, stuck); }
  }

  // ---------------------------------------------------------------------------
  // Contiguity
  // ---------------------------------------------------------------------------

  /** Every file's history is a block of versions ending at `version - 1`, or empty. */
  ghost predicate Contiguous(s: Store) {
    forall r: VersionId, w: nat | r in s.versions && r.0 in s.files && r.1 <= w < s.files[r.0].version ::
      (r.0, w) in s.versions
  }

  /** The size of a block is known from its lower end. */
  lemma ContiguousBlock(s: Store, id: Uuid)
    requires Shaped(s) && Contiguous(s) && id in s.files
    ensures var h := Stored(s, id); var cur := s.files[id].version;
            forall v: nat :: v in h <==> cur - |h| <= v < cur && v >= 1 && h != {}
  {
    var h := Stored(s, id);
    var cur := s.files[id].version;
    if h != {} {
      var lo := Oldest(h);
      assert (id, lo) in s.versions;
      forall v: nat
        ensures v in h <==> lo <= v < cur
      {
        assert v in h <==> (id, v) in s.versions;
        var r: VersionId := (id, lo);
        if lo <= v < cur { assert (r.0, v) in s.versions; }
      }
      RangeSize(h, lo, cur);
    }
  }

  function Oldest(vs: set<nat>): (m: nat)
    requires vs != {}
    ensures m in vs && forall v | v in vs :: m <= v
  {
    var d := Descending(vs);
    assert forall v | v in vs :: exists i :: 0 <= i < |d| && d[i] == v;
    d[|d| - 1]
  }

  lemma {:induction false} RangeSize(h: set<nat>, lo: nat, hi: nat)
    requires lo <= hi && forall v: nat :: v in h <==> lo <= v < hi
    ensures |h| == hi - lo
    decreases hi - lo
  {
    if lo == hi {
      assert h == {};
    } else {
      RangeSize(h - {lo}, lo + 1, hi);
    }
  }

  lemma PruneStepContiguous(s: Store, id: Uuid, keep: int, stuck: set<string>)
    requires Shaped(s) && Contiguous(s) && keep > 0
    ensures Contiguous(Prune(s, id, keep, stuck))
  {
    var s' := Prune(s, id, keep, stuck);
    PruneKeepsNewest(s, id, keep, stuck);
    forall r: VersionId, w: nat | r in s'.versions && r.0 in s'.files && r.1 <= w < s'.files[r.0].version
      ensures (r.0, w) in s'.versions
    {
      assert (r.0, w) in s.versions;
      if r.0 == id {
        assert w in Stored(s, id) && r.1 in Stored(s', id);
        assert w in Stored(s', id);
      }
    }
  }

  lemma UploadVersionContiguous(
    c: Config, s: Store, user: string, id: Uuid, filename: Option<string>, body: Option<Bytes>, nonce: Nonce)
    requires Shaped(s) && Contiguous(s) && (ReachesQuota(s, id, body) ==> VersionFits(c, s, user, id, body.value))
    ensures Contiguous(UploadVersion(c, s, user, id, filename, body, nonce).0)
  {
    var (s', r) := UploadVersion(c, s, user, id, filename, body, nonce);
    if r.Ok? { AppendContiguous(s, s', id); }
  }

  lemma WopiSaveContiguous(c: Config, s: Store, id: Uuid, body: Bytes, nonce: Nonce)
    requires Shaped(s) && Contiguous(s)
    ensures Contiguous(WopiPutFile(c, s, id, body, nonce).0)
  {
    var (s', r) := WopiPutFile(c, s, id, body, nonce);
    if r.Ok? { AppendContiguous(s, s', id); } else { SameRowsContiguous(s, s'); }
  }

  lemma InsertFileContiguous(c: Config, s: Store, actor: string, f: UploadFields, id: Uuid, now: int, nonce: Nonce)
    requires Shaped(s) && Contiguous(s) && id !in s.issued
    ensures Contiguous(InsertFile(c, s, actor, f, id, now, nonce).0)
  {
    SameRowsContiguous(s, InsertFile(c, s, actor, f, id, now, nonce).0);
  }

  /**
   Uploads and trash changes leave the rows of a surviving file alone, new versions add the one that was current,
   pruning takes the lowest, and deleting takes all.
   */
  lemma StepContiguous(c: Config, s: Store, e: Event)
    requires Shaped(s) && Contiguous(s) && Orderly(c, s, e)
    ensures Contiguous(Step(c, s, e))
  {
    match e {
      case Upload(actor, fields, id, now, nonce) =>
        InsertFileContiguous(c, s, actor, WithDefaults(c, actor, fields), id, now, nonce);
      case FinishUpload(actor, fields, id, now, nonce) => InsertFileContiguous(c, s, actor, fields, id, now, nonce);
      case NewVersion(user, id, filename, body, nonce) =>
        UploadVersionContiguous(c, s, user, id, filename, body, nonce);
      case WopiSave(id, body, nonce) => WopiSaveContiguous(c, s, id, body, nonce);
      case PruneVersions(id, keep, stuck) => if keep > 0 { PruneStepContiguous(s, id, keep, stuck); }
      case PatchFile(id, q) =>
        PatchOutcome(c, s, id, q);
        SameRowsContiguous(s, ApplyPatch(c, s, id, q).0);
      case TrashFile(id, now) => SameRowsContiguous(s, Trash(s, id, now));
      case RestoreFile(id) => SameRowsContiguous(s, Restore(s, id));
      case ArchiveFile(id, now) => SameRowsContiguous(s, Archive(s, id, now));
      case HardDeleteFile(id, stuck) => HardDeleteContiguous(s, id, stuck);
      case PurgeFile(id, cutoff, stuck) => HardDeleteContiguous(s, id, stuck);
    }
  }

  lemma SameRowsContiguous(s: Store, s': Store)
    requires Shaped(s) && Contiguous(s) && s'.versions == s.versions
    requires forall id | id in s'.files && id in s.files :: s'.files[id].version == s.files[id].version
    ensures Contiguous(s')
  {
  }

  lemma AppendContiguous(s: Store, s': Store, id: Uuid)
    requires Shaped(s) && Contiguous(s) && id in s.files && id in s'.files
    requires s'.versions.Keys == s.versions.Keys + {(id, s.files[id].version)}
    requires s'.files[id].version == s.files[id].version + 1
    requires forall x | x in s'.files && x != id :: x in s.files && s'.files[x].version == s.files[x].version
    ensures Contiguous(s')
  {
    forall r: VersionId, w: nat | r in s'.versions && r.0 in s'.files && r.1 <= w < s'.files[r.0].version
      ensures (r.0, w) in s'.versions
    {
      if r in s.versions && w < s.files[r.0].version { assert (r.0, w) in s.versions; }
    }
  }

  lemma HardDeleteContiguous(s: Store, id: Uuid, stuck: set<string>)
    requires Contiguous(s)
    ensures Contiguous(HardDelete(s, id, stuck))
  {
    var s' := HardDelete(s, id, stuck);
    forall r: VersionId, w: nat | r in s'.versions && r.0 in s'.files && r.1 <= w < s'.files[r.0].version
      ensures (r.0, w) in s'.versions
    {
      assert (r.0, w) in s.versions;
    }
  }

  lemma InsertFileShaped(c: Config, s: Store, actor: string, f: UploadFields, id: Uuid, now: int, nonce: Nonce)
    requires Shaped(s) && id !in s.issued
    ensures Shaped(InsertFile(c, s, actor, f, id, now, nonce).0)
  {
  }

  lemma UploadVersionShaped(
    c: Config, s: Store, user: string, id: Uuid, filename: Option<string>, body: Option<Bytes>, nonce: Nonce)
    requires Shaped(s) && (ReachesQuota(s, id, body) ==> VersionFits(c, s, user, id, body.value))
    ensures Shaped(UploadVersion(c, s, user, id, filename, body, nonce).0)
  {
  }

  lemma WopiSaveShaped(c: Config, s: Store, id: Uuid, body: Bytes, nonce: Nonce)
    requires Shaped(s)
    ensures Shaped(WopiPutFile(c, s, id, body, nonce).0)
  {
  }

  lemma FewerRowsShaped(s: Store, s': Store)
    requires Shaped(s) && s'.issued == s.issued && s'.files.Keys <= s.files.Keys && s'.versions.Keys <= s.versions.Keys
    requires forall id | id in s'.files :: s'.files[id].version == s.files[id].version
    requires forall r | r in s'.versions :: r.0 in s'.files
    ensures Shaped(s')
  {
  }

  predicate OnlyRemoves(e: Event) {
    !e.Upload? && !e.FinishUpload? && !e.NewVersion? && !e.WopiSave? && !e.PatchFile?
  }

  lemma PruneShaped(s: Store, id: Uuid, keep: int, stuck: set<string>)
    requires Shaped(s)
    ensures Shaped(Prune(s, id, keep, stuck))
  {
    if keep > 0 { PruneKeepsNewest(s, id, keep, stuck); }
    FewerRowsShaped(s, Prune(s, id, keep, stuck));
  }

  lemma TrashShaped(s: Store, id: Uuid, deletedAt: Option<int>)
    requires Shaped(s) && id in s.files
    ensures Shaped(s.(files := s.files[id := s.files[id].(deletedAt := deletedAt)]))
  {
  }

  lemma HardDeleteShaped(s: Store, id: Uuid, stuck: set<string>)
    requires Shaped(s)
    ensures Shaped(HardDelete(s, id, stuck))
  {
    FewerRowsShaped(s, HardDelete(s, id, stuck));
  }

  lemma RemovalKeepsShaped(c: Config, s: Store, e: Event)
    requires Shaped(s) && OnlyRemoves(e)
    ensures Shaped(Step(c, s, e))
  {
    match e {
      case PruneVersions(id, keep, stuck) => PruneShaped(s, id, keep, stuck);
      case TrashFile(id, now) => if id in s.files { TrashShaped(s, id, Some(now)); }
      case RestoreFile(id) => if id in s.files { TrashShaped(s, id, None); }
      case ArchiveFile(id, now) => if Live(s, id) { TrashShaped(s, id, Some(now)); }
      case HardDeleteFile(id, stuck) => HardDeleteShaped(s, id, stuck);
      case PurgeFile(id, cutoff, stuck) => HardDeleteShaped(s, id, stuck);
    }
  }

  lemma StepKeepsShaped(c: Config, s: Store, e: Event)
    requires Shaped(s) && Orderly(c, s, e)
    ensures Shaped(Step(c, s, e))
  {
    match e {
      case Upload(actor, fields, id, now, nonce) =>
        InsertFileShaped(c, s, actor, WithDefaults(c, actor, fields), id, now, nonce);
      case FinishUpload(actor, fields, id, now, nonce) => InsertFileShaped(c, s, actor, fields, id, now, nonce);
      case NewVersion(user, id, filename, body, nonce) =>
        UploadVersionShaped(c, s, user, id, filename, body, nonce);
      case WopiSave(id, body, nonce) => WopiSaveShaped(c, s, id, body, nonce);
      case PatchFile(id, q) =>
        PatchOutcome(c, s, id, q);
        FewerRowsShaped(s, ApplyPatch(c, s, id, q).0);
      case _ => RemovalKeepsShaped(c, s, e);
    }
  }

  ghost predicate OrderlyRun(c: Config, s: Store, events: seq<Event>) {
    forall i | 0 <= i < |events| :: Orderly(c, Run(c, s, events[..i]), events[i])
  }

  lemma OrderlyPrefix(c: Config, s: Store, events: seq<Event>)
    requires OrderlyRun(c, s, events) && events != []
    ensures OrderlyRun(c, s, events[..|events| - 1])
  {
    var prefix := events[..|events| - 1];
    forall i | 0 <= i < |prefix|
      ensures Orderly(c, Run(c, s, prefix[..i]), prefix[i])
    {
      assert prefix[..i] == events[..i];
    }
  }

  /** After any run, pruned or not, each file's history is a contiguous block below its current version. */
  lemma {:induction false} RunKeepsHistoryContiguous(c: Config, events: seq<Event>)
    requires OrderlyRun(c, EMPTY, events)
    ensures Shaped(Run(c, EMPTY, events)) && Contiguous(Run(c, EMPTY, events))
  {
    if events != [] {
      var n := |events| - 1;
      var prefix := events[..n];
      OrderlyPrefix(c, EMPTY, events);
      RunKeepsHistoryContiguous(c, prefix);
      StepKeepsShaped(c, Run(c, EMPTY, prefix), events[n]);
      StepContiguous(c, Run(c, EMPTY, prefix), events[n]);
    }
  }
}

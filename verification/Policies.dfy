/** Retention policies and their resolution: user over org over system over workspace, axis by axis. */
module Policies {
  import opened Common
  import opened Schema

  datatype ScopeType = WorkspaceScope | SystemScope | OrgScope | UserScope

  datatype Policy = Policy(scopeType: ScopeType, scopeId: Option<string>, keep: int, archiveDays: int, deleteDays: int)

  datatype Effective = Effective(keep: int, archiveDays: int, deleteDays: int)

  /** The columns the worker reads of a `files` row. */
  datatype FileMin = FileMin(
    id: Uuid, systemId: string, orgId: Option<string>, createdBy: Option<string>, createdAt: int,
    deletedAt: Option<int>)

  function Snap(id: Uuid, row: FileRow): FileMin {
    FileMin(id, row.systemId, row.orgId, row.createdBy, row.createdAt, row.deletedAt)
  }

  /** The table's CHECK constraint and its two unique indexes. */
  ghost predicate TableConstraints(ps: seq<Policy>) {
    && (forall p | p in ps :: p.scopeType.WorkspaceScope? <==> p.scopeId.None?)
    && (forall i, j | 0 <= i < j < |ps| :: !(ps[i].scopeType == ps[j].scopeType && ps[i].scopeId == ps[j].scopeId))
  }

  /** Policy `p` speaks about file `f` at a level of specificity: 0 user, 1 org, 2 system, 3 workspace. */
  predicate Applies(p: Policy, f: FileMin, level: nat) {
    match level
    case 0 => p.scopeType.UserScope? && f.createdBy.Some? && p.scopeId == f.createdBy
    case 1 => p.scopeType.OrgScope? && f.orgId.Some? && p.scopeId == f.orgId
    case 2 => p.scopeType.SystemScope? && p.scopeId == Some(f.systemId)
    case 3 => p.scopeType.WorkspaceScope?
    case _ => false
  }

  /** A plain scan of the policy list for the policy of one level. */
  function Scan(ps: seq<Policy>, f: FileMin, level: nat): (r: Option<Policy>)
    ensures r.Some? ==> r.value in ps && Applies(r.value, f, level)
    ensures r.None? ==> forall p | p in ps :: !Applies(p, f, level)
  {
    if ps == [] then None else if Applies(ps[0], f, level) then Some(ps[0]) else Scan(ps[1..], f, level)
  }

  function FirstPositive(vs: seq<int>): int {
    if vs == [] then 0 else if vs[0] > 0 then vs[0] else FirstPositive(vs[1..])
  }

  function Axis(ps: seq<Policy>, f: FileMin, axis: Policy -> int): int {
    var at := (level: nat) => match Scan(ps, f, level) case Some(p) => axis(p) case None => 0;
    FirstPositive([at(0), at(1), at(2), at(3)])
  }

  const KEEP: Policy -> int := (p: Policy) => p.keep
  const ARCHIVE: Policy -> int := (p: Policy) => p.archiveDays
  const DELETE: Policy -> int := (p: Policy) => p.deleteDays

  /** The policy in force for a file, by scanning the list once per level and axis. */
  function Resolved(ps: seq<Policy>, f: FileMin): Effective {
    Effective(Axis(ps, f, KEEP), Axis(ps, f, ARCHIVE), Axis(ps, f, DELETE))
  }

  /** The value of an axis, said without any order of evaluation. */
  ghost predicate MostSpecificPositive(ps: seq<Policy>, f: FileMin, axis: Policy -> int, v: int) {
    if v == 0 then forall q, m | q in ps && Applies(q, f, m) :: axis(q) <= 0
    else
      && v > 0
      && exists p, l :: p in ps && Applies(p, f, l) && axis(p) == v
                        && forall q, m | q in ps && Applies(q, f, m) && m < l :: axis(q) <= 0
  }

  lemma OnePerLevel(ps: seq<Policy>, f: FileMin, p: Policy, q: Policy, level: nat)
    requires TableConstraints(ps) && p in ps && q in ps && Applies(p, f, level) && Applies(q, f, level)
    ensures p == q
  {
    var i :| 0 <= i < |ps| && ps[i] == p;
    var j :| 0 <= j < |ps| && ps[j] == q;
    assert ps[i].scopeType == ps[j].scopeType && ps[i].scopeId == ps[j].scopeId;
    if i < j {
    } else if j < i {
    }
  }

  lemma FirstOfFour(a: int, b: int, c: int, d: int)
    ensures FirstPositive([a, b, c, d])
         == if a > 0 then a else if b > 0 then b else if c > 0 then c else if d > 0 then d else 0
  {
    assert [a, b, c, d][1..] == [b, c, d];
    assert [b, c, d][1..] == [c, d];
    assert [c, d][1..] == [d];
    assert FirstPositive([d]) == if d > 0 then d else 0;
    assert FirstPositive([c, d]) == if c > 0 then c else FirstPositive([d]);
    assert FirstPositive([b, c, d]) == if b > 0 then b else FirstPositive([c, d]);
  }

  /** Each axis independently takes the positive value of the most specific policy that has one, else 0. */
  lemma AxisIsMostSpecificPositive(ps: seq<Policy>, f: FileMin, axis: Policy -> int)
    requires TableConstraints(ps)
    ensures MostSpecificPositive(ps, f, axis, Axis(ps, f, axis))
  {
    var at := (level: nat) => match Scan(ps, f, level) case Some(p) => axis(p) case None => 0;
    var v := FirstPositive([at(0), at(1), at(2), at(3)]);
    FirstOfFour(at(0), at(1), at(2), at(3));
    forall q, m | q in ps && Applies(q, f, m)
      ensures m < 4 && at(m) == axis(q)
    {
      var p := Scan(ps, f, m).value;
      OnePerLevel(ps, f, p, q, m);
    }
    if v > 0 {
      var l := if at(0) > 0 then 0 else if at(1) > 0 then 1 else if at(2) > 0 then 2 else 3;
      var p := Scan(ps, f, l).value;
      assert p in ps && Applies(p, f, l) && axis(p) == v;
    }
  }

  /** A policy whose value on an axis is not positive never affects that axis, wherever it stands. */
  lemma NonPositivePolicyIsInert(before: seq<Policy>, p: Policy, after: seq<Policy>, f: FileMin, axis: Policy -> int)
    requires TableConstraints(before + [p] + after) && axis(p) <= 0
    ensures Axis(before + [p] + after, f, axis) == Axis(before + after, f, axis)
  {
    var with, without := before + [p] + after, before + after;
    assert TableConstraints(without) by {
      forall i, j | 0 <= i < j < |without|
        ensures !(without[i].scopeType == without[j].scopeType && without[i].scopeId == without[j].scopeId)
      {
        var i', j' := if i < |before| then i else i + 1, if j < |before| then j else j + 1;
        assert with[i'] == without[i] && with[j'] == without[j];
      }
      forall q | q in without ensures q in with { }
    }
    AxisIsMostSpecificPositive(with, f, axis);
    AxisIsMostSpecificPositive(without, f, axis);
    assert forall q :: q in with <==> q == p || q in without;
    SamePositivePolicies(with, without, f, axis);
  }

  lemma SamePositivePolicies(ps: seq<Policy>, qs: seq<Policy>, f: FileMin, axis: Policy -> int)
    requires TableConstraints(ps) && TableConstraints(qs)
    requires forall q | axis(q) > 0 :: q in ps <==> q in qs
    ensures Axis(ps, f, axis) == Axis(qs, f, axis)
  {
    AxisIsMostSpecificPositive(ps, f, axis);
    AxisIsMostSpecificPositive(qs, f, axis);
    var v, w := Axis(ps, f, axis), Axis(qs, f, axis);
    if v > 0 && w > 0 {
      var p, l :| p in ps && Applies(p, f, l) && axis(p) == v
                  && forall q, m | q in ps && Applies(q, f, m) && m < l :: axis(q) <= 0;
      var p', l' :| p' in qs && Applies(p', f, l') && axis(p') == w
                    && forall q, m | q in qs && Applies(q, f, m) && m < l' :: axis(q) <= 0;
      assert p' in ps && p in qs;
      assert l == l';
      OnePerLevel(ps, f, p, p', l);
    }
  }

  // ---------------------------------------------------------------------------
  // By the columns of `rotation_policies`
  // ---------------------------------------------------------------------------

  /**
   The value in force for a file: that of the user's policy if positive, else that of the org's, else that of the
   system's, else that of the workspace's, else 0.
   */
  ghost predicate InForce(ps: seq<Policy>, f: FileMin, axis: Policy -> int, v: int) {
    var user := exists p ::
                  p in ps && p.scopeType.UserScope? && f.createdBy.Some? && p.scopeId == f.createdBy && axis(p) > 0;
    var org := exists p ::
                 p in ps && p.scopeType.OrgScope? && f.orgId.Some? && p.scopeId == f.orgId && axis(p) > 0;
    var system := exists p ::
                    p in ps && p.scopeType.SystemScope? && p.scopeId == Some(f.systemId) && axis(p) > 0;
    var workspace := exists p :: p in ps && p.scopeType.WorkspaceScope? && axis(p) > 0;
    && (forall p | p in ps && p.scopeType.UserScope? && f.createdBy.Some? && p.scopeId == f.createdBy && axis(p) > 0 ::
          v == axis(p))
    && (!user ==>
          forall p | p in ps && p.scopeType.OrgScope? && f.orgId.Some? && p.scopeId == f.orgId && axis(p) > 0 ::
            v == axis(p))
    && (!user && !org ==>
          forall p | p in ps && p.scopeType.SystemScope? && p.scopeId == Some(f.systemId) && axis(p) > 0 ::
            v == axis(p))
    && (!user && !org && !system ==>
          forall p | p in ps && p.scopeType.WorkspaceScope? && axis(p) > 0 :: v == axis(p))
    && (!user && !org && !system && !workspace ==> v == 0)
  }

  lemma AxisBeats(ps: seq<Policy>, f: FileMin, axis: Policy -> int, p: Policy, level: nat)
    requires TableConstraints(ps) && p in ps && Applies(p, f, level) && axis(p) > 0
    requires forall q, m: nat | q in ps && Applies(q, f, m) && m < level :: axis(q) <= 0
    ensures Axis(ps, f, axis) == axis(p)
  {
    AxisIsMostSpecificPositive(ps, f, axis);
    var r, l :| r in ps && Applies(r, f, l) && axis(r) == Axis(ps, f, axis)
                && forall q, m | q in ps && Applies(q, f, m) && m < l :: axis(q) <= 0;
    OnePerLevel(ps, f, p, r, level);
  }

  lemma AxisIsInForce(ps: seq<Policy>, f: FileMin, axis: Policy -> int)
    requires TableConstraints(ps)
    ensures InForce(ps, f, axis, Axis(ps, f, axis))
  {
    AxisIsMostSpecificPositive(ps, f, axis);
    forall p, l: nat | p in ps && Applies(p, f, l) && axis(p) > 0
                       && forall q, m: nat | q in ps && Applies(q, f, m) && m < l :: axis(q) <= 0
      ensures Axis(ps, f, axis) == axis(p)
    {
      AxisBeats(ps, f, axis, p, l);
    }
    assert forall p | p in ps ::
        && (p.scopeType.UserScope? && f.createdBy.Some? && p.scopeId == f.createdBy <==> Applies(p, f, 0))
        && (p.scopeType.OrgScope? && f.orgId.Some? && p.scopeId == f.orgId <==> Applies(p, f, 1))
        && (p.scopeType.SystemScope? && p.scopeId == Some(f.systemId) <==> Applies(p, f, 2))
        && (p.scopeType.WorkspaceScope? <==> Applies(p, f, 3));
  }

  /** The resolved policy, number by number. */
  lemma ResolvedIsInForce(ps: seq<Policy>, f: FileMin)
    requires TableConstraints(ps)
    ensures InForce(ps, f, (p: Policy) => p.keep, Resolved(ps, f).keep)
    ensures InForce(ps, f, (p: Policy) => p.archiveDays, Resolved(ps, f).archiveDays)
    ensures InForce(ps, f, (p: Policy) => p.deleteDays, Resolved(ps, f).deleteDays)
  {
    AxisIsInForce(ps, f, KEEP);
    AxisIsInForce(ps, f, ARCHIVE);
    AxisIsInForce(ps, f, DELETE);
  }

  // ---------------------------------------------------------------------------
  // As the worker computes it
  // ---------------------------------------------------------------------------

  /** `collect()` into a hash map keyed by scope id: later rows replace earlier ones. */
  method IndexBy(ps: seq<Policy>, scopeType: ScopeType) returns (index: map<string, Policy>)
    requires TableConstraints(ps) && !scopeType.WorkspaceScope?
    ensures forall id :: id in index <==> exists p :: p in ps && p.scopeType == scopeType && p.scopeId == Some(id)
    ensures forall id | id in index ::
              index[id] in ps && index[id].scopeType == scopeType && index[id].scopeId == Some(id)
  {
    index := map[];
    var i := 0;
    while i < |ps|
      invariant 0 <= i <= |ps|
      invariant forall id ::
                  id in index <==> exists p :: p in ps[..i] && p.scopeType == scopeType && p.scopeId == Some(id)
      invariant forall id | id in index ::
                  index[id] in ps && index[id].scopeType == scopeType && index[id].scopeId == Some(id)
    {
      assert ps[..i + 1] == ps[..i] + [ps[i]];
      if ps[i].scopeType == scopeType && ps[i].scopeId.Some? {
        index := index[ps[i].scopeId.value := ps[i]];
      }
      i := i + 1;
    }
    assert ps[..|ps|] == ps;
  }

  /** `policies.iter().find(..)` for the workspace row. */
  method FindWorkspace(ps: seq<Policy>) returns (w: Option<Policy>)
    ensures w.Some? ==> w.value in ps && w.value.scopeType.WorkspaceScope?
    ensures w.None? ==> forall p | p in ps :: !p.scopeType.WorkspaceScope?
  {
    var i := 0;
    while i < |ps|
      invariant 0 <= i <= |ps|
      invariant forall j | 0 <= j < i :: !ps[j].scopeType.WorkspaceScope?
    {
      if ps[i].scopeType.WorkspaceScope? { return Some(ps[i]); }
      i := i + 1;
    }
    w := None;
  }

  ghost predicate IsIndex(ps: seq<Policy>, index: map<string, Policy>, scopeType: ScopeType) {
    && (forall id :: id in index <==> exists p :: p in ps && p.scopeType == scopeType && p.scopeId == Some(id))
    && (forall id | id in index :: index[id] in ps && index[id].scopeType == scopeType && index[id].scopeId == Some(id))
  }

  /** A hash lookup finds the policy that a scan finds. */
  lemma LookupIsScan(ps: seq<Policy>, f: FileMin, level: nat, found: Option<Policy>)
    requires TableConstraints(ps)
    requires found.Some? ==> found.value in ps && Applies(found.value, f, level)
    requires found.None? ==> forall p | p in ps :: !Applies(p, f, level)
    ensures found == Scan(ps, f, level)
  {
    var r := Scan(ps, f, level);
    if found.Some? && r.Some? { OnePerLevel(ps, f, found.value, r.value, level); }
  }

  function Merge(e: Effective, p: Policy): Effective {
    Effective(if e.keep == 0 && p.keep > 0 then p.keep else e.keep,
              if e.archiveDays == 0 && p.archiveDays > 0 then p.archiveDays else e.archiveDays,
              if e.deleteDays == 0 && p.deleteDays > 0 then p.deleteDays else e.deleteDays)
  }

  /** The merging loop over the chain, most specific policy first. */
  method MergeChain(levels: seq<Option<Policy>>) returns (e: Effective)
    ensures e.keep == FirstPositive(Values(levels, KEEP))
    ensures e.archiveDays == FirstPositive(Values(levels, ARCHIVE))
    ensures e.deleteDays == FirstPositive(Values(levels, DELETE))
  {
    e := Effective(0, 0, 0);
    var i := 0;
    while i < |levels|
      invariant 0 <= i <= |levels|
      invariant e.keep == FirstPositive(Values(levels[..i], KEEP))
      invariant e.archiveDays == FirstPositive(Values(levels[..i], ARCHIVE))
      invariant e.deleteDays == FirstPositive(Values(levels[..i], DELETE))
    {
      NextLevel(levels, i, KEEP);
      NextLevel(levels, i, ARCHIVE);
      NextLevel(levels, i, DELETE);
      if levels[i].Some? { e := Merge(e, levels[i].value); }
      i := i + 1;
    }
    assert levels[..|levels|] == levels;
  }

  /** `resolve`: the chain of policies found in the indexes, merged into an all-zero result. */
  method Resolve(
    ghost ps: seq<Policy>, f: FileMin, workspace: Option<Policy>,
    bySystem: map<string, Policy>, byOrg: map<string, Policy>, byUser: map<string, Policy>) returns (e: Effective)
    requires TableConstraints(ps)
    requires workspace.Some? ==> workspace.value in ps && workspace.value.scopeType.WorkspaceScope?
    requires workspace.None? ==> forall p | p in ps :: !p.scopeType.WorkspaceScope?
    requires IsIndex(ps, bySystem, SystemScope) && IsIndex(ps, byOrg, OrgScope) && IsIndex(ps, byUser, UserScope)
    ensures e == Resolved(ps, f)
  {
    var user := if f.createdBy.Some? && f.createdBy.value in byUser then Some(byUser[f.createdBy.value]) else None;
    var org := if f.orgId.Some? && f.orgId.value in byOrg then Some(byOrg[f.orgId.value]) else None;
    var system := if f.systemId in bySystem then Some(bySystem[f.systemId]) else None;
    LookupIsScan(ps, f, 0, user);
    LookupIsScan(ps, f, 1, org);
    LookupIsScan(ps, f, 2, system);
    LookupIsScan(ps, f, 3, workspace);
    e := MergeChain([user, org, system, workspace]);
    ScannedLevelsResolve(ps, f, [user, org, system, workspace]);
  }

  lemma ScannedLevelsResolve(ps: seq<Policy>, f: FileMin, levels: seq<Option<Policy>>)
    requires |levels| == 4 && levels[0] == Scan(ps, f, 0) && levels[1] == Scan(ps, f, 1)
    requires levels[2] == Scan(ps, f, 2) && levels[3] == Scan(ps, f, 3)
    ensures FirstPositive(Values(levels, KEEP)) == Resolved(ps, f).keep
    ensures FirstPositive(Values(levels, ARCHIVE)) == Resolved(ps, f).archiveDays
    ensures FirstPositive(Values(levels, DELETE)) == Resolved(ps, f).deleteDays
  {
    LevelValues(ps, f, levels, KEEP);
    LevelValues(ps, f, levels, ARCHIVE);
    LevelValues(ps, f, levels, DELETE);
  }

  function Values(levels: seq<Option<Policy>>, axis: Policy -> int): seq<int> {
    seq(|levels|, i requires 0 <= i < |levels| => match levels[i] case Some(p) => axis(p) case None => 0)
  }

  lemma NextLevel(levels: seq<Option<Policy>>, i: nat, axis: Policy -> int)
    requires i < |levels|
    ensures var before := FirstPositive(Values(levels[..i], axis));
            var v := match levels[i] case Some(p) => axis(p) case None => 0;
            FirstPositive(Values(levels[..i + 1], axis)) == if before == 0 && v > 0 then v else before
  {
    var v := match levels[i] case Some(p) => axis(p) case None => 0;
    assert Values(levels[..i + 1], axis) == Values(levels[..i], axis) + [v];
    FirstPositiveAppend(Values(levels[..i], axis), v);
  }

  lemma {:induction false} FirstPositiveAppend(vs: seq<int>, v: int)
    ensures FirstPositive(vs + [v]) == if FirstPositive(vs) == 0 && v > 0 then v else FirstPositive(vs)
    ensures FirstPositive(vs) >= 0
  {
    if vs != [] {
      assert (vs + [v])[1..] == vs[1..] + [v];
      FirstPositiveAppend(vs[1..], v);
    }
  }

  lemma LevelValues(ps: seq<Policy>, f: FileMin, levels: seq<Option<Policy>>, axis: Policy -> int)
    requires |levels| == 4 && forall l: nat | l < 4 :: levels[l] == Scan(ps, f, l)
    ensures FirstPositive(Values(levels, axis)) == Axis(ps, f, axis)
  {
    var at := (level: nat) => match Scan(ps, f, level) case Some(p) => axis(p) case None => 0;
    assert Values(levels, axis) == [at(0), at(1), at(2), at(3)];
  }
}

/** Nested storage quotas: workspace, system, org and user. */
module Quota {
  import opened Common
  import opened Schema

  datatype Scope = Workspace | InSystem(id: string) | InOrg(id: string) | OfUser(id: string)

  predicate InScope(row: FileRow, scope: Scope) {
    && row.deletedAt.None?
    && match scope
       case Workspace => true
       case InSystem(id) => row.systemId == id
       case InOrg(id) => row.orgId == Some(id)
       case OfUser(id) => row.createdBy == Some(id)
  }

  function Weight(row: FileRow, scope: Scope): nat { if InScope(row, scope) then row.size else 0 }

  /** `SUM(size_bytes)` over the live rows of a scope. */
  ghost function Usage(files: map<Uuid, FileRow>, scope: Scope): nat
    decreases |files|
  {
    if files == map[] then 0
    else
      var id :| id in files;
      assert |files - {id}| < |files| by { assert (files - {id}).Keys == files.Keys - {id}; }
      Weight(files[id], scope) + Usage(files - {id}, scope)
  }

  /** The sum does not depend on the order in which rows are added up. */
  lemma {:induction false} UsageWithout(files: map<Uuid, FileRow>, id: Uuid, scope: Scope)
    requires id in files
    ensures Usage(files, scope) == Weight(files[id], scope) + Usage(files - {id}, scope)
    decreases |files|
  {
    var pick: Uuid :| pick in files && Usage(files, scope) == Weight(files[pick], scope) + Usage(files - {pick}, scope);
    if pick != id {
      assert (files - {pick}).Keys == files.Keys - {pick};
      UsageWithout(files - {pick}, id, scope);
      assert (files - {id}).Keys == files.Keys - {id};
      UsageWithout(files - {id}, pick, scope);
      assert files - {pick} - {id} == files - {id} - {pick};
    }
  }

  lemma UsageUpdate(files: map<Uuid, FileRow>, id: Uuid, row: FileRow, scope: Scope)
    ensures Usage(files[id := row], scope)
         == Usage(files, scope) + Weight(row, scope) - (if id in files then Weight(files[id], scope) else 0)
  {
    var next := files[id := row];
    UsageWithout(next, id, scope);
    assert next - {id} == files - {id};
    if id in files {
      UsageWithout(files, id, scope);
    } else {
      assert files - {id} == files;
    }
  }

  /** The cap of a scope; 0 or less stands for "no cap here". */
  function Cap(c: Config, scope: Scope): int {
    match scope
    case Workspace => if c.workspaceCap.Some? then c.workspaceCap.value else 0
    case InSystem(id) => if id in c.systems then c.systems[id].quota else 0
    case InOrg(id) => if id in c.orgQuota then c.orgQuota[id] else 0
    case OfUser(id) => if id in c.userQuota then c.userQuota[id] else 0
  }

  ghost predicate Fits(c: Config, files: map<Uuid, FileRow>, incoming: nat, scope: Scope) {
    Cap(c, scope) > 0 ==> Usage(files, scope) + incoming <= Cap(c, scope)
  }

  /** `enforce_quota`: the scopes in order, the first overflow refuses. */
  ghost function Enforce(
    c: Config, files: map<Uuid, FileRow>, incoming: nat, systemId: Option<string>, orgId: Option<string>,
    userId: Option<string>)
    : Result<()>
  {
    if !Fits(c, files, incoming, Workspace) then Err(PayloadTooLarge)
    else if systemId.Some? && !Fits(c, files, incoming, InSystem(systemId.value)) then Err(PayloadTooLarge)
    else if orgId.Some? && !Fits(c, files, incoming, InOrg(orgId.value)) then Err(PayloadTooLarge)
    else if userId.Some? && !Fits(c, files, incoming, OfUser(userId.value)) then Err(PayloadTooLarge)
    else Ok(())
  }

  datatype ScopeReport = ScopeReport(scope: Scope, limit: int, used: nat)

  ghost function Line(c: Config, files: map<Uuid, FileRow>, scope: Scope): ScopeReport {
    ScopeReport(scope, Cap(c, scope), Usage(files, scope))
  }

  /** `quota_report` for a caller who may narrow it to a system and an org. */
  ghost function Report(
    c: Config, files: map<Uuid, FileRow>, caller: string, systemId: Option<string>, orgId: Option<string>)
    : seq<ScopeReport>
  {
    [Line(c, files, Workspace)]
    + (if systemId.Some? then [Line(c, files, InSystem(systemId.value))] else [])
    + (if orgId.Some? then [Line(c, files, InOrg(orgId.value))] else [])
    + [Line(c, files, OfUser(caller))]
  }

  /** A report has a line for each scope the caller is in, and no other. */
  lemma ReportLines(
    c: Config, files: map<Uuid, FileRow>, caller: string, systemId: Option<string>, orgId: Option<string>,
    q: ScopeReport)
    ensures q in Report(c, files, caller, systemId, orgId) <==>
              || q == Line(c, files, Workspace)
              || (systemId.Some? && q == Line(c, files, InSystem(systemId.value)))
              || (orgId.Some? && q == Line(c, files, InOrg(orgId.value)))
              || q == Line(c, files, OfUser(caller))
  {
  }

  predicate HasRoom(q: ScopeReport, incoming: nat) { q.limit > 0 ==> q.used + incoming <= q.limit }

  /** An upload is accepted exactly when every limit the caller is shown still has room for it. */
  lemma EnforceAgreesWithReport(
    c: Config, files: map<Uuid, FileRow>, incoming: nat, caller: string, systemId: Option<string>,
    orgId: Option<string>)
    ensures Enforce(c, files, incoming, systemId, orgId, Some(caller)).Ok?
       <==> forall q | q in Report(c, files, caller, systemId, orgId) :: HasRoom(q, incoming)
  {
    forall q
      ensures q in Report(c, files, caller, systemId, orgId) <==>
                || q == Line(c, files, Workspace)
                || (systemId.Some? && q == Line(c, files, InSystem(systemId.value)))
                || (orgId.Some? && q == Line(c, files, InOrg(orgId.value)))
                || q == Line(c, files, OfUser(caller))
    {
      ReportLines(c, files, caller, systemId, orgId, q);
    }
    assert forall scope: Scope :: HasRoom(Line(c, files, scope), incoming) <==> Fits(c, files, incoming, scope);
  }

  // ---------------------------------------------------------------------------
  // By the columns of the tables
  // ---------------------------------------------------------------------------

  /** The sum of the sizes of the rows that meet a condition. */
  ghost function SizeOf(files: map<Uuid, FileRow>, counts: FileRow -> bool): nat
    decreases |files|
  {
    if files == map[] then 0
    else
      var id :| id in files;
      assert |files - {id}| < |files| by { assert (files - {id}).Keys == files.Keys - {id}; }
      (if counts(files[id]) then files[id].size else 0) + SizeOf(files - {id}, counts)
  }

  lemma {:induction false} UsageIsSizeOf(files: map<Uuid, FileRow>, scope: Scope, counts: FileRow -> bool)
    requires forall row: FileRow :: counts(row) <==> InScope(row, scope)
    ensures Usage(files, scope) == SizeOf(files, counts)
    decreases |files|
  {
    if files != map[] {
      var id :| id in files && SizeOf(files, counts)
                               == (if counts(files[id]) then files[id].size else 0) + SizeOf(files - {id}, counts);
      assert (files - {id}).Keys == files.Keys - {id};
      UsageWithout(files, id, scope);
      UsageIsSizeOf(files - {id}, scope, counts);
    }
  }

  ghost function LiveSize(files: map<Uuid, FileRow>): nat {
    SizeOf(files, (row: FileRow) => row.deletedAt.None?)
  }

  ghost function LiveSizeOfSystem(files: map<Uuid, FileRow>, id: string): nat {
    SizeOf(files, (row: FileRow) => row.deletedAt.None? && row.systemId == id)
  }

  ghost function LiveSizeOfOrg(files: map<Uuid, FileRow>, id: string): nat {
    SizeOf(files, (row: FileRow) => row.deletedAt.None? && row.orgId == Some(id))
  }

  ghost function LiveSizeOfUser(files: map<Uuid, FileRow>, id: string): nat {
    SizeOf(files, (row: FileRow) => row.deletedAt.None? && row.createdBy == Some(id))
  }

  lemma UsageByColumns(files: map<Uuid, FileRow>, id: string)
    ensures Usage(files, Workspace) == LiveSize(files)
    ensures Usage(files, InSystem(id)) == LiveSizeOfSystem(files, id)
    ensures Usage(files, InOrg(id)) == LiveSizeOfOrg(files, id)
    ensures Usage(files, OfUser(id)) == LiveSizeOfUser(files, id)
  {
    UsageIsSizeOf(files, Workspace, (row: FileRow) => row.deletedAt.None?);
    UsageIsSizeOf(files, InSystem(id), (row: FileRow) => row.deletedAt.None? && row.systemId == id);
    UsageIsSizeOf(files, InOrg(id), (row: FileRow) => row.deletedAt.None? && row.orgId == Some(id));
    UsageIsSizeOf(files, OfUser(id), (row: FileRow) => row.deletedAt.None? && row.createdBy == Some(id));
  }

  /**
   The check accepts exactly when the workspace cap and the quotas of the system, the org and the user, where there are
   any, leave room beside the live files.
   */
  lemma EnforceByColumns(
    c: Config, files: map<Uuid, FileRow>, incoming: nat, systemId: Option<string>, orgId: Option<string>,
    userId: Option<string>)
    ensures Enforce(c, files, incoming, systemId, orgId, userId).Ok? <==>
              && (c.workspaceCap.Some? && c.workspaceCap.value > 0 ==>
                    LiveSize(files) + incoming <= c.workspaceCap.value)
              && (systemId.Some? && systemId.value in c.systems && c.systems[systemId.value].quota > 0 ==>
                    LiveSizeOfSystem(files, systemId.value) + incoming <= c.systems[systemId.value].quota)
              && (orgId.Some? && orgId.value in c.orgQuota && c.orgQuota[orgId.value] > 0 ==>
                    LiveSizeOfOrg(files, orgId.value) + incoming <= c.orgQuota[orgId.value])
              && (userId.Some? && userId.value in c.userQuota && c.userQuota[userId.value] > 0 ==>
                    LiveSizeOfUser(files, userId.value) + incoming <= c.userQuota[userId.value])
  {
    UsageByColumns(files, "");
    if systemId.Some? { UsageByColumns(files, systemId.value); }
    if orgId.Some? { UsageByColumns(files, orgId.value); }
    if userId.Some? { UsageByColumns(files, userId.value); }
  }

  /** A report shows, line by line, the quota in the table and the live files beside it. */
  lemma ReportByColumns(
    c: Config, files: map<Uuid, FileRow>, caller: string, systemId: Option<string>, orgId: Option<string>,
    q: ScopeReport)
    requires q in Report(c, files, caller, systemId, orgId)
    ensures match q.scope
            case Workspace =>
              q.used == LiveSize(files) && q.limit == if c.workspaceCap.Some? then c.workspaceCap.value else 0
            case InSystem(id) =>
              && systemId == Some(id) && q.used == LiveSizeOfSystem(files, id)
              && q.limit == if id in c.systems then c.systems[id].quota else 0
            case InOrg(id) =>
              && orgId == Some(id) && q.used == LiveSizeOfOrg(files, id)
              && q.limit == if id in c.orgQuota then c.orgQuota[id] else 0
            case OfUser(id) =>
              && caller == id && q.used == LiveSizeOfUser(files, id)
              && q.limit == if id in c.userQuota then c.userQuota[id] else 0
  {
    ReportLines(c, files, caller, systemId, orgId, q);
    var id := match q.scope case Workspace => "" case InSystem(id) => id case InOrg(id) => id case OfUser(id) => id;
    UsageByColumns(files, id);
  }

  /** No quota of the tables is overrun. */
  ghost predicate WithinQuotas(c: Config, files: map<Uuid, FileRow>) {
    && (c.workspaceCap.Some? && c.workspaceCap.value > 0 ==> LiveSize(files) <= c.workspaceCap.value)
    && (forall id | id in c.systems && c.systems[id].quota > 0 ::
          LiveSizeOfSystem(files, id) <= c.systems[id].quota)
    && (forall id | id in c.orgQuota && c.orgQuota[id] > 0 :: LiveSizeOfOrg(files, id) <= c.orgQuota[id])
    && (forall id | id in c.userQuota && c.userQuota[id] > 0 :: LiveSizeOfUser(files, id) <= c.userQuota[id])
  }

  lemma CapsAreQuotas(c: Config, files: map<Uuid, FileRow>)
    ensures WithinCaps(c, files) <==> WithinQuotas(c, files)
  {
    UsageByColumns(files, "");
    forall id: string
      ensures Usage(files, InSystem(id)) == LiveSizeOfSystem(files, id)
      ensures Usage(files, InOrg(id)) == LiveSizeOfOrg(files, id)
      ensures Usage(files, OfUser(id)) == LiveSizeOfUser(files, id)
    {
      UsageByColumns(files, id);
    }
    if WithinCaps(c, files) {
      CapsGiveQuotas(c, files);
    } else {
      var scope :| Cap(c, scope) > 0 && Usage(files, scope) > Cap(c, scope);
      match scope {
        case Workspace =>
        case InSystem(id) => assert LiveSizeOfSystem(files, id) > c.systems[id].quota;
        case InOrg(id) => assert LiveSizeOfOrg(files, id) > c.orgQuota[id];
        case OfUser(id) => assert LiveSizeOfUser(files, id) > c.userQuota[id];
      }
    }
  }

  lemma CapsGiveQuotas(c: Config, files: map<Uuid, FileRow>)
    requires WithinCaps(c, files)
    ensures WithinQuotas(c, files)
  {
    UsageByColumns(files, "");
    assert Cap(c, Workspace) > 0 ==> Usage(files, Workspace) <= Cap(c, Workspace);
    forall id: string
      ensures Cap(c, InSystem(id)) > 0 ==> LiveSizeOfSystem(files, id) <= Cap(c, InSystem(id))
      ensures Cap(c, InOrg(id)) > 0 ==> LiveSizeOfOrg(files, id) <= Cap(c, InOrg(id))
      ensures Cap(c, OfUser(id)) > 0 ==> LiveSizeOfUser(files, id) <= Cap(c, OfUser(id))
    {
      UsageByColumns(files, id);
    }
  }

  /** Every capped scope is within its cap. */
  ghost predicate WithinCaps(c: Config, files: map<Uuid, FileRow>) {
    forall scope :: Cap(c, scope) > 0 ==> Usage(files, scope) <= Cap(c, scope)
  }

  /**
   Putting a row in place of another keeps every cap if the quota check passed for the new size in the
   row's own scopes.
   */
  lemma AcceptedRowKeepsCaps(c: Config, files: map<Uuid, FileRow>, id: Uuid, row: FileRow, userId: Option<string>)
    requires WithinCaps(c, files)
    requires Enforce(c, files, row.size, Some(row.systemId), row.orgId, userId).Ok?
    requires userId == row.createdBy || row.createdBy.None? || Cap(c, OfUser(row.createdBy.value)) <= 0
    ensures WithinCaps(c, files[id := row]) && WithinQuotas(c, files[id := row])
  {
    forall scope | Cap(c, scope) > 0
      ensures Usage(files[id := row], scope) <= Cap(c, scope)
    {
      UsageUpdate(files, id, row, scope);
    }
    CapsAreQuotas(c, files[id := row]);
  }

  /** Shrinking what counts never breaks a cap. */
  lemma LighterRowKeepsCaps(c: Config, files: map<Uuid, FileRow>, id: Uuid, row: FileRow)
    requires WithinCaps(c, files) && id in files
    requires forall scope :: Weight(row, scope) <= Weight(files[id], scope)
    ensures WithinCaps(c, files[id := row])
  {
    forall scope | Cap(c, scope) > 0
      ensures Usage(files[id := row], scope) <= Cap(c, scope)
    {
      UsageUpdate(files, id, row, scope);
    }
  }

  lemma RemovedRowKeepsCaps(c: Config, files: map<Uuid, FileRow>, id: Uuid)
    requires WithinCaps(c, files)
    ensures WithinCaps(c, files - {id})
  {
    forall scope | Cap(c, scope) > 0
      ensures Usage(files - {id}, scope) <= Cap(c, scope)
    {
      if id in files { UsageWithout(files, id, scope); } else { assert files - {id} == files; }
    }
  }
}

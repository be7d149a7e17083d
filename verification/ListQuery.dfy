/**
 The queries of `list_files`, `search_files` and `list_folders`, from their WHERE on: the text the handlers assemble,
 the parameters they bind, and that the bound query asks for exactly the rows, order and limits requested.
 */
module ListQuery {
  import opened Common
  import opened Decimal
  import opened Sql
  import Paging

  /** What a filter asks of a row. */
  datatype Cond =
    | Null(col: string)
    | Same(col: string, v: string)
    | Within(col: string, ids: seq<string>)
    | Found(term: string, pattern: string)

  predicate Holds(d: Cond, row: Row) {
    match d
    case Null(col) => row.cell(col).None?
    case Same(col, v) => row.cell(col) == Some(v)
    case Within(col, ids) => row.cell(col).Some? && row.cell(col).value in ids
    case Found(term, pattern) => row.matches(term, pattern)
  }

  ghost predicate HoldsAll(conds: seq<Cond>, row: Row) { forall d | d in conds :: Holds(d, row) }

  /** A query under construction. `n` is the number of the latest placeholder. */
  datatype Query = Query(text: string, strBinds: seq<string>, vecBinds: seq<seq<string>>, n: nat)

  /** Parameters in binding order: strings, then vectors, then the numbers of the paging clause. */
  function Params(q: Query, numbers: seq<int>): seq<Param> {
    seq(|q.strBinds|, i requires 0 <= i < |q.strBinds| => Text(q.strBinds[i]))
    + seq(|q.vecBinds|, i requires 0 <= i < |q.vecBinds| => Texts(q.vecBinds[i]))
    + seq(|numbers|, i requires 0 <= i < |numbers| => Number(numbers[i]))
  }

  // ---------------------------------------------------------------------------
  // What a query built so far stands for
  // ---------------------------------------------------------------------------

  /** The clauses of a query and what they are to mean; `block` is the text of the one text match there is. */
  datatype Plan = Plan(block: string, cs: seq<Clause>, conds: seq<Cond>)

  function Planned(p: Plan, c: Clause, d: Cond): Plan { p.(cs := p.cs + [c], conds := p.conds + [d]) }

  /** Clause `c` means condition `d` once `strs` and `vecs` are bound and no further string is. */
  predicate Matches(c: Clause, d: Cond, strs: seq<string>, vecs: seq<seq<string>>) {
    match d
    case Null(col) => c == IsNull(col)
    case Same(col, v) => c.Equals? && c.col == col && 1 <= c.n <= |strs| && strs[c.n - 1] == v
    case Within(col, ids) =>
      c.AnyOf? && c.col == col && |strs| < c.n <= |strs| + |vecs| && vecs[c.n - |strs| - 1] == ids
    case Found(term, pattern) => c.TextMatch? && |strs| >= 2 && strs[0] == term && strs[1] == pattern
  }

  /** `q` is the text of the plan's clauses with its parameters. */
  ghost predicate Means(q: Query, p: Plan) {
    && IsBlock(p.block) && p.cs != [] && |p.cs| == |p.conds|
    && q.text == RenderWhere(p.cs) && q.n == |q.strBinds| + |q.vecBinds|
    && (forall c | c in p.cs :: Readable(p.block, c))
    && forall i | 0 <= i < |p.cs| :: Matches(p.cs[i], p.conds[i], q.strBinds, q.vecBinds)
  }

  lemma MatchingClauseMeans(c: Clause, d: Cond, q: Query, numbers: seq<int>, row: Row)
    requires Matches(c, d, q.strBinds, q.vecBinds)
    ensures Eval(c, Params(q, numbers), row) <==> Holds(d, row)
  {
    var params := Params(q, numbers);
    match d {
      case Null(_) =>
      case Same(_, v) => assert params[c.n - 1] == Text(q.strBinds[c.n - 1]);
      case Within(_, ids) => assert params[c.n - 1] == Texts(q.vecBinds[c.n - |q.strBinds| - 1]);
      case Found(_, _) => assert params[0] == Text(q.strBinds[0]) && params[1] == Text(q.strBinds[1]);
    }
  }

  lemma PlanHolds(q: Query, p: Plan, numbers: seq<int>, row: Row)
    requires Means(q, p)
    ensures (forall c | c in p.cs :: Eval(c, Params(q, numbers), row)) <==> HoldsAll(p.conds, row)
  {
    forall i | 0 <= i < |p.cs|
      ensures Eval(p.cs[i], Params(q, numbers), row) <==> Holds(p.conds[i], row)
    {
      MatchingClauseMeans(p.cs[i], p.conds[i], q, numbers, row);
    }
  }

  /**
   A query built to plan, with an ending appended and its parameters bound, asks for exactly the rows that pass the
   plan's conditions.
   */
  lemma MeaningIsAsked(
    q: Query, p: Plan, end: Option<Ending>, numbers: seq<int>, filter: Row -> bool, page: Option<Page>)
    requires Means(q, p) && (end.Some? ==> EndingOk(end.value)) && EndsAs(end, Params(q, numbers), page)
    requires forall row: Row :: filter(row) <==> HoldsAll(p.conds, row)
    ensures Selects(p.block, q.text + EndText(end), Params(q, numbers), filter, page)
  {
    ReadBack(p.block, p.cs, end);
    forall row: Row
      ensures filter(row) <==> forall c | c in p.cs :: Eval(c, Params(q, numbers), row)
    {
      PlanHolds(q, p, numbers, row);
    }
  }

  // ---------------------------------------------------------------------------
  // Appending filters
  // ---------------------------------------------------------------------------

  /** Strings may only be added while no vector is bound; vectors any time. */
  predicate Extends(q: Query, q': Query) {
    q.strBinds <= q'.strBinds && q.vecBinds <= q'.vecBinds && (q.vecBinds != [] ==> q'.strBinds == q.strBinds)
  }

  lemma MatchesMore(c: Clause, d: Cond, q: Query, q': Query)
    requires Matches(c, d, q.strBinds, q.vecBinds) && Extends(q, q')
    ensures Matches(c, d, q'.strBinds, q'.vecBinds)
  {
  }

  lemma MeansAppend(q: Query, q': Query, p: Plan, c: Clause, d: Cond)
    requires Means(q, p) && q'.text == q.text + Render(c) && q'.n == |q'.strBinds| + |q'.vecBinds| && Extends(q, q')
    requires Readable(p.block, c) && Matches(c, d, q'.strBinds, q'.vecBinds)
    ensures Means(q', Planned(p, c, d))
  {
    var p' := Planned(p, c, d);
    WhereAppend(p.cs, c);
    forall i | 0 <= i < |p'.cs|
      ensures Matches(p'.cs[i], p'.conds[i], q'.strBinds, q'.vecBinds)
    {
      if i < |p.cs| { MatchesMore(p.cs[i], p.conds[i], q, q'); }
    }
  }

  lemma WhereAppend(cs: seq<Clause>, c: Clause)
    requires cs != []
    ensures RenderWhere(cs + [c]) == RenderWhere(cs) + Render(c)
  {
    assert (cs + [c])[1..] == cs[1..] + [c];
    RenderAllAppend(cs[1..], c);
  }

  function PushEquals(q: Query, col: string, v: string): Query {
    Query(q.text + Render(Equals(col, q.n + 1)), q.strBinds + [v], q.vecBinds, q.n + 1)
  }

  function PushNull(q: Query, col: string): Query { q.(text := q.text + Render(IsNull(col))) }

  function PushScope(q: Query, ids: seq<string>): Query {
    Query(q.text + Render(AnyOf("system_id", q.n + 1)), q.strBinds, q.vecBinds + [ids], q.n + 1)
  }

  /** Conditions of an optional equality filter. */
  function IfSame(col: string, v: Option<string>): seq<Cond> { if v.Some? then [Same(col, v.value)] else [] }

  /** Folder scoping: "null" and "" ask for the root, absence for every folder. */
  function IfFolder(col: string, v: Option<string>): seq<Cond> {
    if v.None? then [] else if v.value == "null" || v.value == "" then [Null(col)] else [Same(col, v.value)]
  }

  function IfScope(scope: Option<seq<string>>): seq<Cond> {
    if scope.Some? then [Within("system_id", scope.value)] else []
  }

  /** `if let Some(v) = ... { n += 1; push " AND col = $n"; str_binds.push(v) }`. */
  method AddEquals(q: Query, col: string, v: Option<string>, ghost p: Plan) returns (q': Query, ghost p': Plan)
    requires Means(q, p) && q.vecBinds == [] && IsColumn(col)
    ensures Means(q', p') && q'.vecBinds == [] && p'.conds == p.conds + IfSame(col, v) && p'.block == p.block
  {
    if v.None? { return q, p; }
    var n := q.n + 1;
    MeansAppend(q, PushEquals(q, col, v.value), p, Equals(col, n), Same(col, v.value));
    q' := Query(q.text + (AND + (col + (EQUALS + Dec(n)))), q.strBinds + [v.value], q.vecBinds, n);
    p' := Planned(p, Equals(col, n), Same(col, v.value));
  }

  method AddFolder(q: Query, col: string, v: Option<string>, ghost p: Plan) returns (q': Query, ghost p': Plan)
    requires Means(q, p) && q.vecBinds == [] && IsColumn(col)
    ensures Means(q', p') && q'.vecBinds == [] && p'.conds == p.conds + IfFolder(col, v) && p'.block == p.block
  {
    if v.Some? && (v.value == "null" || v.value == "") {
      MeansAppend(q, PushNull(q, col), p, IsNull(col), Null(col));
      q' := q.(text := q.text + (AND + (col + IS_NULL)));
      p' := Planned(p, IsNull(col), Null(col));
    } else {
      q', p' := AddEquals(q, col, v, p);
    }
  }

  /** The caller's scope comes last, so that its vector is bound after every string. */
  method AddScope(q: Query, scope: Option<seq<string>>, ghost p: Plan) returns (q': Query, ghost p': Plan)
    requires Means(q, p)
    ensures Means(q', p') && p'.conds == p.conds + IfScope(scope) && p'.block == p.block
    ensures q'.strBinds == q.strBinds && q'.vecBinds == q.vecBinds + (if scope.Some? then [scope.value] else [])
  {
    if scope.None? { return q, p; }
    var n := q.n + 1;
    assert IsColumn("system_id");
    MeansAppend(q, PushScope(q, scope.value), p, AnyOf("system_id", n), Within("system_id", scope.value));
    q' := Query(q.text + (AND + ("system_id" + (ANY + (Dec(n) + ")")))), q.strBinds, q.vecBinds + [scope.value], n);
    p' := Planned(p, AnyOf("system_id", n), Within("system_id", scope.value));
  }

  // ---------------------------------------------------------------------------
  // What is asked for
  // ---------------------------------------------------------------------------

  datatype FilesQuery = FilesQuery(
    systemId: Option<string>, orgId: Option<string>, status: Option<string>, project: Option<string>,
    owner: Option<string>, folderId: Option<string>)

  datatype SearchQuery = SearchQuery(systemId: Option<string>, fileType: Option<string>, status: Option<string>)

  datatype FoldersQuery = FoldersQuery(systemId: Option<string>, parentId: Option<string>)

  predicate Asked(v: Option<string>, cell: Option<string>) { v.Some? ==> cell == v }

  predicate AskedFolder(v: Option<string>, cell: Option<string>) {
    v.Some? ==> if v.value == "null" || v.value == "" then cell.None? else cell == v
  }

  predicate InScope(scope: Option<seq<string>>, cell: Option<string>) {
    scope.Some? ==> cell.Some? && cell.value in scope.value
  }

  predicate FilesFilter(f: FilesQuery, scope: Option<seq<string>>, row: Row) {
    && row.cell("deleted_at").None?
    && Asked(f.systemId, row.cell("system_id")) && Asked(f.orgId, row.cell("org_id"))
    && Asked(f.status, row.cell("status")) && Asked(f.project, row.cell("project"))
    && Asked(f.owner, row.cell("owner")) && AskedFolder(f.folderId, row.cell("folder_id"))
    && InScope(scope, row.cell("system_id"))
  }

  function Like(term: string): string { "%" + term + "%" }

  predicate SearchFilter(term: string, f: SearchQuery, scope: Option<seq<string>>, row: Row) {
    && row.cell("deleted_at").None? && row.matches(term, Like(term))
    && Asked(f.systemId, row.cell("system_id")) && Asked(f.fileType, row.cell("file_type"))
    && Asked(f.status, row.cell("status"))
    && InScope(scope, row.cell("system_id"))
  }

  predicate FoldersFilter(f: FoldersQuery, scope: Option<seq<string>>, row: Row) {
    && row.cell("deleted_at").None?
    && Asked(f.systemId, row.cell("system_id")) && AskedFolder(f.parentId, row.cell("parent_id"))
    && InScope(scope, row.cell("system_id"))
  }

  /** The three filters by their columns. A folder or parent given as "null" or "" is the root. */
  lemma FilesByColumns(f: FilesQuery, scope: Option<seq<string>>, row: Row)
    ensures FilesFilter(f, scope, row) <==>
              && row.cell("deleted_at") == None
              && (f.systemId.Some? ==> row.cell("system_id") == Some(f.systemId.value))
              && (f.orgId.Some? ==> row.cell("org_id") == Some(f.orgId.value))
              && (f.status.Some? ==> row.cell("status") == Some(f.status.value))
              && (f.project.Some? ==> row.cell("project") == Some(f.project.value))
              && (f.owner.Some? ==> row.cell("owner") == Some(f.owner.value))
              && (f.folderId in {Some("null"), Some("")} ==> row.cell("folder_id") == None)
              && (f.folderId.Some? && f.folderId.value !in {"null", ""} ==>
                    row.cell("folder_id") == Some(f.folderId.value))
              && (scope.Some? ==> exists id :: id in scope.value && row.cell("system_id") == Some(id))
  {
  }

  lemma SearchByColumns(term: string, f: SearchQuery, scope: Option<seq<string>>, row: Row)
    ensures SearchFilter(term, f, scope, row) <==>
              && row.cell("deleted_at") == None && row.matches(term, "%" + term + "%")
              && (f.systemId.Some? ==> row.cell("system_id") == Some(f.systemId.value))
              && (f.fileType.Some? ==> row.cell("file_type") == Some(f.fileType.value))
              && (f.status.Some? ==> row.cell("status") == Some(f.status.value))
              && (scope.Some? ==> exists id :: id in scope.value && row.cell("system_id") == Some(id))
  {
  }

  lemma FoldersByColumns(f: FoldersQuery, scope: Option<seq<string>>, row: Row)
    ensures FoldersFilter(f, scope, row) <==>
              && row.cell("deleted_at") == None
              && (f.systemId.Some? ==> row.cell("system_id") == Some(f.systemId.value))
              && (f.parentId in {Some("null"), Some("")} ==> row.cell("parent_id") == None)
              && (f.parentId.Some? && f.parentId.value !in {"null", ""} ==>
                    row.cell("parent_id") == Some(f.parentId.value))
              && (scope.Some? ==> exists id :: id in scope.value && row.cell("system_id") == Some(id))
  {
  }

  function FilesConds(f: FilesQuery, scope: Option<seq<string>>): seq<Cond> {
    [Null("deleted_at")] + IfSame("system_id", f.systemId) + IfSame("org_id", f.orgId) + IfSame("status", f.status)
    + IfSame("project", f.project) + IfSame("owner", f.owner) + IfFolder("folder_id", f.folderId) + IfScope(scope)
  }

  function SearchConds(term: string, f: SearchQuery, scope: Option<seq<string>>): seq<Cond> {
    [Null("deleted_at"), Found(term, Like(term))] + IfSame("system_id", f.systemId) + IfSame("file_type", f.fileType)
    + IfSame("status", f.status) + IfScope(scope)
  }

  function FoldersConds(f: FoldersQuery, scope: Option<seq<string>>): seq<Cond> {
    [Null("deleted_at")] + IfSame("system_id", f.systemId) + IfFolder("parent_id", f.parentId) + IfScope(scope)
  }

  lemma HoldsAllAppend(conds: seq<Cond>, more: seq<Cond>, row: Row)
    ensures HoldsAll(conds + more, row) <==> HoldsAll(conds, row) && HoldsAll(more, row)
  {
  }

  lemma OneHolds(d: Cond, row: Row)
    ensures HoldsAll([d], row) <==> Holds(d, row)
  {
    assert d in [d];
  }

  lemma AddSame(conds: seq<Cond>, col: string, v: Option<string>, row: Row)
    ensures HoldsAll(conds + IfSame(col, v), row) <==> HoldsAll(conds, row) && Asked(v, row.cell(col))
  {
    HoldsAllAppend(conds, IfSame(col, v), row);
    if v.Some? { OneHolds(Same(col, v.value), row); }
  }

  lemma AddPlace(conds: seq<Cond>, col: string, v: Option<string>, row: Row)
    ensures HoldsAll(conds + IfFolder(col, v), row) <==> HoldsAll(conds, row) && AskedFolder(v, row.cell(col))
  {
    HoldsAllAppend(conds, IfFolder(col, v), row);
    if v.Some? { OneHolds(if v.value == "null" || v.value == "" then Null(col) else Same(col, v.value), row); }
  }

  lemma AddWithin(conds: seq<Cond>, scope: Option<seq<string>>, row: Row)
    ensures HoldsAll(conds + IfScope(scope), row) <==> HoldsAll(conds, row) && InScope(scope, row.cell("system_id"))
  {
    HoldsAllAppend(conds, IfScope(scope), row);
    if scope.Some? { OneHolds(Within("system_id", scope.value), row); }
  }

  lemma FilesCondsMean(f: FilesQuery, scope: Option<seq<string>>, row: Row)
    ensures FilesFilter(f, scope, row) <==> HoldsAll(FilesConds(f, scope), row)
  {
    OneHolds(Null("deleted_at"), row);
    var c1 := [Null("deleted_at")];
    AddSame(c1, "system_id", f.systemId, row);
    var c2 := c1 + IfSame("system_id", f.systemId);
    AddSame(c2, "org_id", f.orgId, row);
    var c3 := c2 + IfSame("org_id", f.orgId);
    AddSame(c3, "status", f.status, row);
    var c4 := c3 + IfSame("status", f.status);
    AddSame(c4, "project", f.project, row);
    var c5 := c4 + IfSame("project", f.project);
    AddSame(c5, "owner", f.owner, row);
    var c6 := c5 + IfSame("owner", f.owner);
    AddPlace(c6, "folder_id", f.folderId, row);
    AddWithin(c6 + IfFolder("folder_id", f.folderId), scope, row);
  }

  lemma SearchCondsMean(term: string, f: SearchQuery, scope: Option<seq<string>>, row: Row)
    ensures SearchFilter(term, f, scope, row) <==> HoldsAll(SearchConds(term, f, scope), row)
  {
    OneHolds(Null("deleted_at"), row);
    OneHolds(Found(term, Like(term)), row);
    HoldsAllAppend([Null("deleted_at")], [Found(term, Like(term))], row);
    var c1 := [Null("deleted_at"), Found(term, Like(term))];
    assert c1 == [Null("deleted_at")] + [Found(term, Like(term))];
    AddSame(c1, "system_id", f.systemId, row);
    var c2 := c1 + IfSame("system_id", f.systemId);
    AddSame(c2, "file_type", f.fileType, row);
    var c3 := c2 + IfSame("file_type", f.fileType);
    AddSame(c3, "status", f.status, row);
    AddWithin(c3 + IfSame("status", f.status), scope, row);
  }

  lemma FoldersCondsMean(f: FoldersQuery, scope: Option<seq<string>>, row: Row)
    ensures FoldersFilter(f, scope, row) <==> HoldsAll(FoldersConds(f, scope), row)
  {
    OneHolds(Null("deleted_at"), row);
    var c1 := [Null("deleted_at")];
    AddSame(c1, "system_id", f.systemId, row);
    var c2 := c1 + IfSame("system_id", f.systemId);
    AddPlace(c2, "parent_id", f.parentId, row);
    AddWithin(c2 + IfFolder("parent_id", f.parentId), scope, row);
  }

  // ---------------------------------------------------------------------------
  // The three queries
  // ---------------------------------------------------------------------------

  lemma ColumnNames()
    ensures IsColumn("system_id") && IsColumn("org_id") && IsColumn("status") && IsColumn("project")
    ensures IsColumn("owner") && IsColumn("folder_id") && IsColumn("parent_id") && IsColumn("file_type")
    ensures IsColumn("deleted_at")
  {
  }

  /** Stands for the text match of queries without one. */
  const NO_MATCH: string := "()"

  /** ` WHERE deleted_at IS NULL`, nothing bound yet. */
  method Undeleted(ghost block: string) returns (q: Query, ghost p: Plan)
    requires IsBlock(block)
    ensures Means(q, p) && q.strBinds == [] && q.vecBinds == [] && p.block == block && p.conds == [Null("deleted_at")]
  {
    ColumnNames();
    p := Plan(block, [IsNull("deleted_at")], [Null("deleted_at")]);
    q := Query(WHERE + ("deleted_at" + IS_NULL), [], [], 0);
    assert RenderAll(p.cs[1..]) == "";
  }

  /** Three optional equality filters in a row. */
  method AddThree(
    q: Query, c1: string, v1: Option<string>, c2: string, v2: Option<string>, c3: string, v3: Option<string>,
    ghost p: Plan) returns (q': Query, ghost p': Plan)
    requires Means(q, p) && q.vecBinds == [] && IsColumn(c1) && IsColumn(c2) && IsColumn(c3)
    ensures Means(q', p') && q'.vecBinds == [] && p'.block == p.block
    ensures p'.conds == p.conds + IfSame(c1, v1) + IfSame(c2, v2) + IfSame(c3, v3)
  {
    q', p' := AddEquals(q, c1, v1, p);
    q', p' := AddEquals(q', c2, v2, p');
    q', p' := AddEquals(q', c3, v3, p');
  }

  /** `list_files`: one text and one set of binds for both the count and the page. */
  method FilesWhere(f: FilesQuery, scope: Option<seq<string>>) returns (q: Query, ghost p: Plan)
    ensures Means(q, p) && p.block == NO_MATCH && p.conds == FilesConds(f, scope)
  {
    ColumnNames();
    q, p := Undeleted(NO_MATCH);
    q, p := AddThree(q, "system_id", f.systemId, "org_id", f.orgId, "status", f.status, p);
    q, p := AddEquals(q, "project", f.project, p);
    q, p := AddEquals(q, "owner", f.owner, p);
    q, p := AddFolder(q, "folder_id", f.folderId, p);
    q, p := AddScope(q, scope, p);
  }

  function ColumnOf(sort: Paging.Sort): string {
    match sort
    case ByName => "name"
    case BySize => "size_bytes"
    case ByStatus => "status"
    case ByOwner => "owner"
    case ByCreated => "created_at"
    case ByModified => "modified_at"
  }

  function OrderTerms(sort: Paging.Sort, asc: bool): seq<Term> { [Term(ColumnOf(sort), asc), Term("id", asc)] }

  /** `col dir, id dir`. */
  function OrderText(sort: Paging.Sort, asc: bool): string {
    var dir := if asc then ASC else DESC;
    (ColumnOf(sort) + dir) + (COMMA + ("id" + dir))
  }

  lemma OrderReadsBack(sort: Paging.Sort, asc: bool)
    ensures ReadOrder(OrderText(sort, asc)) == Some(OrderTerms(sort, asc))
  {
    var ts := OrderTerms(sort, asc);
    assert ts[1..] == [Term("id", asc)];
    assert IsColumn(ColumnOf(sort)) && IsColumn("id");
    ReadOrderOf(ts);
  }

  /** The value a listed file has in a column that can be sorted by. */
  function ColumnKey(collate: string -> real, col: string, e: Paging.Entry): real {
    match col
    case "name" => collate(e.name)
    case "size_bytes" => e.size as real
    case "status" => collate(e.status)
    case "owner" => collate(e.owner)
    case "created_at" => e.created as real
    case "modified_at" => e.modified as real
    case "id" => e.id as real
    case _ => 0.0
  }

  /** `ORDER BY`: column by column. */
  predicate Precedes(collate: string -> real, ts: seq<Term>, a: Paging.Entry, b: Paging.Entry) {
    if ts == [] then false
    else
      var ka, kb := ColumnKey(collate, ts[0].col, a), ColumnKey(collate, ts[0].col, b);
      (if ts[0].asc then ka < kb else kb < ka) || (ka == kb && Precedes(collate, ts[1..], a, b))
  }

  lemma SortedColumn(collate: string -> real, sort: Paging.Sort, e: Paging.Entry)
    ensures ColumnKey(collate, ColumnOf(sort), e) == Paging.SortKey(collate, sort, e)
    ensures ColumnKey(collate, "id", e) == e.id as real
  {
  }

  lemma PrecedesByTwo(collate: string -> real, first: Term, second: Term, a: Paging.Entry, b: Paging.Entry)
    ensures var ka, kb := ColumnKey(collate, first.col, a), ColumnKey(collate, first.col, b);
            var ja, jb := ColumnKey(collate, second.col, a), ColumnKey(collate, second.col, b);
            Precedes(collate, [first, second], a, b)
            <==> (if first.asc then ka < kb else kb < ka) || (ka == kb && if second.asc then ja < jb else jb < ja)
  {
    assert [second][1..] == [] && !Precedes(collate, [], a, b);
    assert Precedes(collate, [second], a, b) <==>
             (if second.asc then ColumnKey(collate, second.col, a) < ColumnKey(collate, second.col, b)
              else ColumnKey(collate, second.col, b) < ColumnKey(collate, second.col, a));
    assert [first, second][1..] == [second];
  }

  /** The order that the text asks for is the one that pages are cut from. */
  lemma OrderIsPagings(collate: string -> real, sort: Paging.Sort, asc: bool, a: Paging.Entry, b: Paging.Entry)
    ensures ReadOrder(OrderText(sort, asc)) == Some(OrderTerms(sort, asc))
    ensures Precedes(collate, OrderTerms(sort, asc), a, b) <==> Paging.Before(collate, sort, asc, a, b)
  {
    OrderReadsBack(sort, asc);
    SortedColumn(collate, sort, a);
    SortedColumn(collate, sort, b);
    PrecedesByTwo(collate, Term(ColumnOf(sort), asc), Term("id", asc), a, b);
  }

  /** What the two sorting parameters of a listing ask for. */
  lemma OrderByParameters(sort: Option<string>, dir: Option<string>)
    ensures var terms := OrderTerms(Paging.SortOf(sort), Paging.Ascending(dir));
            && terms == [Term(terms[0].col, dir == Some("asc")), Term("id", dir == Some("asc"))]
            && (sort == Some("name") ==> terms[0].col == "name")
            && (sort == Some("size") ==> terms[0].col == "size_bytes")
            && (sort == Some("status") ==> terms[0].col == "status")
            && (sort == Some("owner") ==> terms[0].col == "owner")
            && (sort == Some("created") ==> terms[0].col == "created_at")
            && (sort !in {Some("name"), Some("size"), Some("status"), Some("owner"), Some("created")} ==>
                  terms[0].col == "modified_at")
  {
  }

  lemma NoDollar(a: string, b: string)
    requires '$' !in a && '$' !in b
    ensures '$' !in a + b
  {
  }

  lemma OrderHasNoDollar(sort: Paging.Sort, asc: bool)
    ensures '$' !in OrderText(sort, asc)
  {
    var dir := if asc then ASC else DESC;
    NoDollar("id", dir);
    NoDollar(COMMA, "id" + dir);
    NoDollar(ColumnOf(sort), dir);
    NoDollar(ColumnOf(sort) + dir, COMMA + ("id" + dir));
  }

  /** The paging clause takes the next two placeholders, which bind the limit and the offset. */
  method AddPaging(q: Query, order: string, ghost terms: seq<Term>, limit: int, offset: int)
    returns (text: string, ghost end: Ending)
    requires q.n == |q.strBinds| + |q.vecBinds| && '$' !in order && ReadOrder(order) == Some(terms)
    ensures text == q.text + EndText(Some(end)) && EndingOk(end)
    ensures EndsAs(Some(end), Params(q, [limit, offset]), Some(Page(terms, Some(limit), Some(offset))))
  {
    var limitN := q.n + 1;
    var offsetN := limitN + 1;
    text := q.text + (ORDER_BY + (order + (LIMIT + ("$" + (Dec(limitN) + (OFFSET + Dec(offsetN)))))));
    end := Ending(order, Some(limitN), Some(offsetN));
  }

  /** What `list_files` sends: a count and a page, with the same string and vector binds. */
  datatype Listing = Listing(count: string, page: string, q: Query, numbers: seq<int>)

  /** `list_files`: count and page ask for the same rows, the page sorted and cut as requested. */
  method ListFiles(
    f: FilesQuery, scope: Option<seq<string>>, sort: Option<string>, dir: Option<string>, limit: Option<int>,
    offset: Option<int>) returns (r: Listing)
    ensures Selects(NO_MATCH, r.count, Params(r.q, []), (row: Row) => FilesFilter(f, scope, row), None)
    ensures Selects(NO_MATCH, r.page, Params(r.q, r.numbers), (row: Row) => FilesFilter(f, scope, row),
                    Some(Page(OrderTerms(Paging.SortOf(sort), Paging.Ascending(dir)),
                              Some(Paging.Limit(limit, 200, 2000)), Some(Paging.Offset(offset)))))
  {
    var q, p := FilesWhere(f, scope);
    var order := OrderText(Paging.SortOf(sort), Paging.Ascending(dir));
    ghost var terms := OrderTerms(Paging.SortOf(sort), Paging.Ascending(dir));
    OrderReadsBack(Paging.SortOf(sort), Paging.Ascending(dir));
    OrderHasNoDollar(Paging.SortOf(sort), Paging.Ascending(dir));
    var most, start := Paging.Limit(limit, 200, 2000), Paging.Offset(offset);
    var text, end := AddPaging(q, order, terms, most, start);
    r := Listing(q.text, text, q, [most, start]);
    ghost var filter := (row: Row) => FilesFilter(f, scope, row);
    forall row: Row ensures filter(row) <==> HoldsAll(p.conds, row) { FilesCondsMean(f, scope, row); }
    assert q.text + EndText(None) == q.text;
    MeaningIsAsked(q, p, None, [], filter, None);
    MeaningIsAsked(q, p, Some(end), [most, start], filter, Some(Page(terms, Some(most), Some(start))));
  }

  /** The text match of `search_files`. */
  const MATCH: string :=
    "("
    + " search_tsv @@ plainto_tsquery('simple', $1)"
    + " OR name ILIKE $2 OR tags ILIKE $2 OR coalesce(owner,'') ILIKE $2 OR coalesce(project,'') ILIKE $2"
    + " OR id IN (SELECT file_id FROM file_content WHERE content_tsv @@ plainto_tsquery('simple', $1)) )"

  /** The text match owns $1 and $2, and its two strings are bound first. */
  method Searching(block: string, term: string) returns (q: Query, ghost p: Plan)
    requires IsBlock(block)
    ensures Means(q, p) && q.vecBinds == [] && p.block == block
    ensures p.conds == [Null("deleted_at"), Found(term, Like(term))]
  {
    q, p := Undeleted(block);
    var q' := Query(q.text + (AND + block), [term, "%" + term + "%"], [], 2);
    MeansAppend(q, q', p, TextMatch(block), Found(term, Like(term)));
    q, p := q', Planned(p, TextMatch(block), Found(term, Like(term)));
  }

  /** The order of a search; files modified at the same time come in any order. */
  const NEWEST: seq<Term> := [Term("modified_at", false)]

  lemma NewestFirst()
    ensures ReadOrder("modified_at DESC") == Some(NEWEST)
  {
    assert IsColumn("modified_at");
    ReadOrderOf(NEWEST);
    assert RenderOrder(NEWEST) == "modified_at DESC";
  }

  /** One placeholder more, which binds the limit. */
  method AddLimit(q: Query, order: string, ghost terms: seq<Term>, limit: int)
    returns (text: string, ghost end: Ending)
    requires q.n == |q.strBinds| + |q.vecBinds| && '$' !in order && ReadOrder(order) == Some(terms)
    ensures text == q.text + EndText(Some(end)) && EndingOk(end)
    ensures EndsAs(Some(end), Params(q, [limit]), Some(Page(terms, Some(limit), None)))
  {
    var n := q.n + 1;
    text := q.text + (ORDER_BY + (order + (LIMIT + ("$" + (Dec(n) + "")))));
    end := Ending(order, Some(n), None);
  }

  lemma NewestHasNoDollar()
    ensures '$' !in "modified_at DESC"
  {
  }

  /** ` ORDER BY modified_at DESC LIMIT $n`. */
  method AddNewest(q: Query, limit: int) returns (text: string, ghost end: Ending)
    requires q.n == |q.strBinds| + |q.vecBinds|
    ensures text == q.text + EndText(Some(end)) && EndingOk(end)
    ensures EndsAs(Some(end), Params(q, [limit]), Some(Page(NEWEST, Some(limit), None)))
  {
    NewestFirst();
    NewestHasNoDollar();
    text, end := AddLimit(q, "modified_at DESC", NEWEST, limit);
  }

  lemma SearchSelected(
    q: Query, p: Plan, term: string, f: SearchQuery, scope: Option<seq<string>>, end: Ending, most: int)
    requires Means(q, p) && p.conds == SearchConds(term, f, scope) && EndingOk(end)
    requires EndsAs(Some(end), Params(q, [most]), Some(Page(NEWEST, Some(most), None)))
    ensures Selects(p.block, q.text + EndText(Some(end)), Params(q, [most]),
                    (row: Row) => SearchFilter(term, f, scope, row), Some(Page(NEWEST, Some(most), None)))
  {
    var filter := (row: Row) => SearchFilter(term, f, scope, row);
    forall row: Row ensures filter(row) <==> HoldsAll(p.conds, row) { SearchCondsMean(term, f, scope, row); }
    MeaningIsAsked(q, p, Some(end), [most], filter, Some(Page(NEWEST, Some(most), None)));
  }

  /** `search_files` around a text match: the newest rows that pass every filter, up to the limit. */
  method SearchWith(
    block: string, term: string, f: SearchQuery, scope: Option<seq<string>>, limit: Option<int>)
    returns (r: Result<(string, seq<Param>)>)
    requires IsBlock(block)
    ensures r.Ok? <==> term != ""
    ensures r.Err? ==> r.error == BadRequest
    ensures r.Ok? ==> Selects(block, r.value.0, r.value.1, (row: Row) => SearchFilter(term, f, scope, row),
                              Some(Page(NEWEST, Some(Paging.Limit(limit, 50, 500)), None)))
  {
    if term == "" { return Err(BadRequest); }
    ColumnNames();
    var most := Paging.Limit(limit, 50, 500);
    var q, p := Searching(block, term);
    q, p := AddThree(q, "system_id", f.systemId, "file_type", f.fileType, "status", f.status, p);
    q, p := AddScope(q, scope, p);
    var text, end := AddNewest(q, most);
    r := Ok((text, Params(q, [most])));
    SearchSelected(q, p, term, f, scope, end, most);
  }

  lemma MatchIsBlock()
    ensures IsBlock(MATCH)
  {
  }

  method SearchFiles(term: string, f: SearchQuery, scope: Option<seq<string>>, limit: Option<int>)
    returns (r: Result<(string, seq<Param>)>)
    ensures r.Ok? <==> term != ""
    ensures r.Err? ==> r.error == BadRequest
    ensures r.Ok? ==> Selects(MATCH, r.value.0, r.value.1, (row: Row) => SearchFilter(term, f, scope, row),
                              Some(Page(NEWEST, Some(Paging.Limit(limit, 50, 500)), None)))
  {
    MatchIsBlock();
    r := SearchWith(MATCH, term, f, scope, limit);
  }

  /** `list_folders`: every folder that passes, by name. */
  method ListFolders(f: FoldersQuery, scope: Option<seq<string>>) returns (text: string, q: Query)
    ensures Selects(NO_MATCH, text, Params(q, []), (row: Row) => FoldersFilter(f, scope, row),
                    Some(Page([Term("name", true)], None, None)))
  {
    ColumnNames();
    ghost var p;
    q, p := Undeleted(NO_MATCH);
    q, p := AddEquals(q, "system_id", f.systemId, p);
    q, p := AddFolder(q, "parent_id", f.parentId, p);
    q, p := AddScope(q, scope, p);
    text := q.text + (ORDER_BY + ("name" + ""));
    assert IsColumn("name");
    ReadColumnOf("name");
    ghost var filter := (row: Row) => FoldersFilter(f, scope, row);
    forall row: Row ensures filter(row) <==> HoldsAll(p.conds, row) { FoldersCondsMean(f, scope, row); }
    MeaningIsAsked(q, p, Some(Ending("name", None, None)), [], filter, Some(Page([Term("name", true)], None, None)));
  }
}

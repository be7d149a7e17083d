/** Which systems a caller may read: the per-system check and the scope that the listings use agree. */
module Access {
  import opened Common
  import opened Schema
  import opened Sql
  import opened ListQuery

  datatype User = User(id: string, role: string)

  /** `ensure_system_access`: an unknown system is left to the caller's own check. */
  function EnsureSystemAccess(systems: map<string, System>, user: User, id: string): Result<()> {
    if user.role == "admin" then Ok(())
    else if id !in systems || systems[id].deleted then Ok(())
    else if systems[id].kind == "personal" && systems[id].owner != Some(user.id) then Err(Forbidden)
    else Ok(())
  }

  /** Access is refused exactly to somebody else's existing personal system, administrators excepted. */
  lemma ForbiddenIff(systems: map<string, System>, user: User, id: string)
    ensures EnsureSystemAccess(systems, user, id) != Ok(()) <==>
              && id in systems && !systems[id].deleted && user.role != "admin"
              && systems[id].kind == "personal" && systems[id].owner != Some(user.id)
  {
  }

  /** What `effective_system_ids` may return: the rows come in any order. */
  predicate IsScope(systems: map<string, System>, user: User, scope: Option<seq<string>>) {
    if user.role == "admin" then scope.None?
    else
      scope.Some? && (forall id | id in scope.value :: id in systems)
      && forall id | id in systems ::
           (id in scope.value
            <==> !systems[id].deleted && (systems[id].kind == "shared" || systems[id].owner == Some(user.id)))
  }

  /** For existing systems of the two kinds, the listing scope is exactly what the access check allows. */
  lemma ScopeIsAccess(systems: map<string, System>, user: User, scope: Option<seq<string>>, id: string)
    requires IsScope(systems, user, scope) && id in systems && !systems[id].deleted
    requires systems[id].kind == "shared" || systems[id].kind == "personal"
    ensures ListQuery.InScope(scope, Some(id)) <==> EnsureSystemAccess(systems, user, id).Ok?
  {
  }

  /** Whatever a caller asks for, no listing, search or folder list shows a row of a system the caller may not read. */
  lemma ListedRowsAreReadable(
    systems: map<string, System>, user: User, scope: Option<seq<string>>, files: FilesQuery, term: string,
    search: SearchQuery, folders: FoldersQuery, row: Row)
    requires IsScope(systems, user, scope) && user.role != "admin"
    requires || FilesFilter(files, scope, row)
             || SearchFilter(term, search, scope, row)
             || FoldersFilter(folders, scope, row)
    ensures row.cell("system_id").Some? && row.cell("deleted_at").None?
    ensures var id := row.cell("system_id").value;
            && id in systems && !systems[id].deleted && EnsureSystemAccess(systems, user, id) == Ok(())
            && !(systems[id].kind == "personal" && systems[id].owner != Some(user.id))
  {
  }
}

/** The folder tree: what creating and deleting keep, and the breadcrumb walk over whatever list was fetched. */
module Folders {
  import opened Common

  datatype Folder = Folder(id: string, systemId: string, parent: Option<string>, deleted: bool)

  type Table = map<string, Folder>

  predicate WellKeyed(t: Table) { forall k | k in t :: t[k].id == k }

  // ---------------------------------------------------------------------------
  // The table is a forest
  // ---------------------------------------------------------------------------

  /** Parents exist and are less deep than their children. */
  ghost predicate Layered(t: Table, depth: map<string, nat>) {
    forall k | k in t :: k in depth && (t[k].parent.Some? ==>
        t[k].parent.value in t && t[k].parent.value in depth && depth[t[k].parent.value] < depth[k])
  }

  ghost predicate Forest(t: Table) { WellKeyed(t) && exists depth :: Layered(t, depth) }

  /** The INSERT of a folder: its id is the primary key. */
  function Create(t: Table, systems: set<string>, id: string, systemId: string, parent: Option<string>)
    : (Table, Result<()>)
  {
    if systemId !in systems || (parent.Some? && parent.value !in t) then (t, Err(BadRequest))
    else if id in t then (t, Err(Other))
    else (t[id := Folder(id, systemId, parent, false)], Ok(()))
  }

  function Delete(t: Table, id: string): (Table, Result<()>) {
    if id !in t || t[id].deleted then (t, Err(NotFound)) else (t[id := t[id].(deleted := true)], Ok(()))
  }

  datatype Event =
    | CreateFolder(systems: set<string>, id: string, systemId: string, parent: Option<string>)
    | DeleteFolder(id: string)

  function Step(t: Table, e: Event): Table {
    match e
    case CreateFolder(systems, id, systemId, parent) => Create(t, systems, id, systemId, parent).0
    case DeleteFolder(id) => Delete(t, id).0
  }

  function Run(t: Table, events: seq<Event>): Table {
    if events == [] then t else Step(Run(t, events[..|events| - 1]), events[|events| - 1])
  }

  lemma StepKeepsForest(t: Table, e: Event)
    requires Forest(t)
    ensures Forest(Step(t, e))
  {
    var depth :| Layered(t, depth);
    match e {
      case CreateFolder(systems, id, systemId, parent) =>
        if Create(t, systems, id, systemId, parent).1.Ok? {
          assert Layered(Step(t, e), depth[id := if parent.Some? then depth[parent.value] + 1 else 0]);
        }
      case DeleteFolder(id) => assert Layered(Step(t, e), depth);
    }
  }

  /** After any run the folder graph is a forest. */
  lemma {:induction false} RunKeepsForest(t: Table, events: seq<Event>)
    requires Forest(t)
    ensures Forest(Run(t, events))
  {
    if events != [] {
      RunKeepsForest(t, events[..|events| - 1]);
      StepKeepsForest(Run(t, events[..|events| - 1]), events[|events| - 1]);
    }
  }

  // ---------------------------------------------------------------------------
  // Where a folder comes from
  // ---------------------------------------------------------------------------

  /** A folder is created exactly in a known system, below a known parent if any, under a new id. */
  lemma CreatedIff(t: Table, systems: set<string>, id: string, systemId: string, parent: Option<string>)
    ensures var (t', r) := Create(t, systems, id, systemId, parent);
            && (r.Ok? <==> systemId in systems && (parent.Some? ==> parent.value in t) && id !in t)
            && (r.Ok? ==> id in t' && t'[id].parent == parent && t'[id].systemId == systemId && !t'[id].deleted)
            && (forall k | k in t :: k in t' && t'[k] == t[k]) && (forall k | k in t' :: k in t || k == id)
  {
  }

  predicate Deletes(e: Event, id: string) { e == DeleteFolder(id) }

  ghost predicate DeletedAfter(events: seq<Event>, j: nat, id: string) {
    exists k :: j < k < |events| && Deletes(events[k], id)
  }

  lemma SameDeletions(events: seq<Event>, j: nat, id: string)
    requires events != [] && !Deletes(events[|events| - 1], id)
    ensures DeletedAfter(events, j, id) <==> DeletedAfter(events[..|events| - 1], j, id)
  {
    var prefix := events[..|events| - 1];
    if k :| j < k < |events| && Deletes(events[k], id) { assert k < |prefix| && Deletes(prefix[k], id); }
    if k :| j < k < |prefix| && Deletes(prefix[k], id) { assert Deletes(events[k], id); }
  }

  lemma StepOnFolder(t: Table, e: Event, id: string)
    requires id in t
    ensures id in Step(t, e)
    ensures Step(t, e)[id] == if Deletes(e, id) then t[id].(deleted := true) else t[id]
  {
  }

  /**
   In every run each folder has the id, system and parent of the request that created it, and is deleted exactly when a
   later request deleted it.
   */
  lemma {:induction false} FolderOrigin(events: seq<Event>, id: string) returns (j: nat)
    requires id in Run(map[], events)
    ensures j < |events| && events[j].CreateFolder? && events[j].id == id
    ensures var e := events[j];
            Run(map[], events)[id] == Folder(id, e.systemId, e.parent, DeletedAfter(events, j, id))
  {
    var n := |events| - 1;
    var t := Run(map[], events[..n]);
    if id in t {
      j := FolderOrigin(events[..n], id);
      StepOnFolder(t, events[n], id);
      if Deletes(events[n], id) { assert j < n < |events|; } else { SameDeletions(events, j, id); }
    } else {
      CreatedIff(t, events[n].systems, events[n].id, events[n].systemId, events[n].parent);
      j := n;
    }
  }

  // ---------------------------------------------------------------------------
  // Breadcrumbs
  // ---------------------------------------------------------------------------

  /** `cur.parent_id ? folderById.get(cur.parent_id) : undefined`. */
  function ParentIn(byId: Table, f: Folder): Option<Folder> {
    if f.parent.Some? && f.parent.value != "" && f.parent.value in byId then Some(byId[f.parent.value]) else None
  }

  /** A chain of parents, root first, without repeats, that ends at `open`. */
  ghost predicate IsChain(byId: Table, open: string, c: seq<Folder>) {
    && c != [] && c[|c| - 1].id == open
    && (forall i | 0 <= i < |c| :: c[i].id in byId && byId[c[i].id] == c[i])
    && (forall i | 0 < i < |c| :: ParentIn(byId, c[i]) == Some(c[i - 1]))
    && (forall i, j | 0 <= i < j < |c| :: c[i].id != c[j].id)
  }

  /** The chain goes as far up as the list allows without repeating a folder. */
  ghost predicate IsMaximal(byId: Table, c: seq<Folder>)
    requires c != []
  {
    ParentIn(byId, c[0]).Some? ==> exists i :: 0 <= i < |c| && c[i].id == ParentIn(byId, c[0]).value.id
  }

  /** The walk of the files page; it ends on any list, a cyclic one included. */
  method FolderTrail(byId: Table, folderId: Option<string>) returns (trail: seq<Folder>)
    requires WellKeyed(byId)
    ensures folderId.None? || folderId.value !in byId ==> trail == []
    ensures folderId.Some? && folderId.value in byId ==> IsChain(byId, folderId.value, trail) && IsMaximal(byId, trail)
  {
    trail := [];
    if folderId.None? || folderId.value !in byId { return; }
    var cur := Some(byId[folderId.value]);
    var seen: set<string> := {};
    while cur.Some? && cur.value.id !in seen
      invariant seen <= byId.Keys && seen == Ids(trail)
      invariant Walking(byId, folderId.value, trail, cur)
      decreases |byId.Keys - seen|
    {
      assert byId.Keys - (seen + {cur.value.id}) == (byId.Keys - seen) - {cur.value.id};
      WalkStep(byId, folderId.value, trail, cur.value);
      trail := [cur.value] + trail;
      seen := seen + {cur.value.id};
      cur := ParentIn(byId, cur.value);
    }
    WalkEnds(byId, folderId.value, trail, cur);
  }

  /** The walk has collected `trail` and looks at `cur` next. */
  ghost predicate Walking(byId: Table, open: string, trail: seq<Folder>, cur: Option<Folder>) {
    && (cur.Some? ==> cur.value.id in byId && byId[cur.value.id] == cur.value)
    && if trail == [] then cur.Some? && cur.value.id == open
       else IsChain(byId, open, trail) && cur == ParentIn(byId, trail[0])
  }

  lemma WalkStep(byId: Table, open: string, trail: seq<Folder>, f: Folder)
    requires WellKeyed(byId) && Walking(byId, open, trail, Some(f)) && f.id !in Ids(trail)
    ensures Walking(byId, open, [f] + trail, ParentIn(byId, f)) && Ids([f] + trail) == Ids(trail) + {f.id}
  {
    ChainGrows(byId, open, f, trail);
  }

  lemma WalkEnds(byId: Table, open: string, trail: seq<Folder>, cur: Option<Folder>)
    requires Walking(byId, open, trail, cur) && (cur.Some? ==> cur.value.id in Ids(trail))
    ensures IsChain(byId, open, trail) && IsMaximal(byId, trail)
  {
    if cur.Some? {
      var f :| f in trail && f.id == cur.value.id;
      var i :| 0 <= i < |trail| && trail[i] == f;
    }
  }

  function Ids(c: seq<Folder>): set<string> { set f | f in c :: f.id }

  lemma ChainGrows(byId: Table, open: string, f: Folder, c: seq<Folder>)
    requires f.id in byId && byId[f.id] == f && f.id !in Ids(c)
    requires if c == [] then f.id == open else IsChain(byId, open, c) && ParentIn(byId, c[0]) == Some(f)
    ensures IsChain(byId, open, [f] + c) && Ids([f] + c) == Ids(c) + {f.id}
  {
    var d := [f] + c;
    assert forall i | 0 < i < |d| :: d[i] == c[i - 1] && d[i].id in Ids(c);
    forall i | 0 < i < |d|
      ensures ParentIn(byId, d[i]) == Some(d[i - 1])
    {
      if i > 1 { assert ParentIn(byId, c[i - 1]) == Some(c[i - 2]); }
    }
  }

  /** `byId` holds some of the rows of the table: what a listing with filters and scope returned. */
  predicate ListedFrom(byId: Table, t: Table) { forall k | k in byId :: k in t && byId[k] == t[k] }

  lemma {:induction false} ChainGetsDeeper(
    byId: Table, t: Table, depth: map<string, nat>, open: string, c: seq<Folder>, i: nat)
    requires WellKeyed(t) && ListedFrom(byId, t) && Layered(t, depth) && IsChain(byId, open, c) && i < |c|
    ensures c[i].id in depth && c[0].id in depth && depth[c[0].id] + i <= depth[c[i].id]
  {
    if i > 0 {
      ChainGetsDeeper(byId, t, depth, open, c, i - 1);
      assert ParentIn(byId, c[i]) == Some(c[i - 1]);
      assert t[c[i].id].parent == Some(c[i - 1].id);
    }
  }

  /** On a forest the walk stops only where the list ends: at a root or at a parent that was not fetched. */
  lemma TrailReachesTheTop(byId: Table, t: Table, open: string, c: seq<Folder>)
    requires Forest(t) && ListedFrom(byId, t) && IsChain(byId, open, c)
    ensures IsMaximal(byId, c) <==> ParentIn(byId, c[0]).None?
  {
    var depth :| Layered(t, depth);
    if ParentIn(byId, c[0]).Some? {
      var p := ParentIn(byId, c[0]).value;
      assert t[c[0].id].parent == Some(p.id);
      forall i | 0 <= i < |c|
        ensures c[i].id != p.id
      {
        ChainGetsDeeper(byId, t, depth, open, c, i);
      }
    }
  }

  lemma {:induction false} ChainsAgree(byId: Table, open: string, c: seq<Folder>, d: seq<Folder>, k: nat)
    requires IsChain(byId, open, c) && IsChain(byId, open, d) && k < |c| && k < |d|
    ensures c[|c| - 1 - k] == d[|d| - 1 - k]
  {
    if k > 0 {
      ChainsAgree(byId, open, c, d, k - 1);
      assert ParentIn(byId, c[|c| - k]) == Some(c[|c| - 1 - k]);
      assert ParentIn(byId, d[|d| - k]) == Some(d[|d| - 1 - k]);
    }
  }

  lemma FullChainIsLongest(byId: Table, open: string, c: seq<Folder>, d: seq<Folder>)
    requires IsChain(byId, open, c) && IsChain(byId, open, d) && ParentIn(byId, c[0]).None?
    ensures |d| <= |c|
  {
    if |c| < |d| {
      assert ParentIn(byId, d[|d| - |c|]) == Some(d[|d| - |c| - 1]);
      ChainsAgree(byId, open, c, d, |c| - 1);
    }
  }

  /** On a forest there is only one full chain, so the trail is the whole ancestor chain present in the list. */
  lemma FullChainIsUnique(byId: Table, t: Table, open: string, c: seq<Folder>, d: seq<Folder>)
    requires Forest(t) && ListedFrom(byId, t) && IsChain(byId, open, c) && IsChain(byId, open, d)
    requires IsMaximal(byId, c) && IsMaximal(byId, d)
    ensures c == d
  {
    TrailReachesTheTop(byId, t, open, c);
    TrailReachesTheTop(byId, t, open, d);
    FullChainIsLongest(byId, open, c, d);
    FullChainIsLongest(byId, open, d, c);
    forall i | 0 <= i < |c|
      ensures c[i] == d[i]
    {
      ChainsAgree(byId, open, c, d, |c| - 1 - i);
    }
  }

  class FolderServer {
    var folders: Table

    constructor ()
      ensures folders == map[]
    {
      folders := map[];
    }

    method NewFolder(systems: set<string>, id: string, systemId: string, parent: Option<string>) returns (r: Result<()>)
      modifies this
      ensures (folders, r) == Create(old(folders), systems, id, systemId, parent)
    {
      if systemId !in systems { return Err(BadRequest); }
      if parent.Some? && parent.value !in folders { return Err(BadRequest); }
      if id in folders { return Err(Other); }
      folders := folders[id := Folder(id, systemId, parent, false)];
      r := Ok(());
    }

    method RemoveFolder(id: string) returns (r: Result<()>)
      modifies this
      ensures (folders, r) == Delete(old(folders), id)
    {
      if id !in folders || folders[id].deleted { return Err(NotFound); }
      folders := folders[id := folders[id].(deleted := true)];
      r := Ok(());
    }
  }
}

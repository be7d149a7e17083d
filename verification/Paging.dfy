/**
 Sorting and paging of `list_files`: every sort column and direction is a strict total order thanks to the id
 tie-break, so pages fetched by separate queries join to the whole result.
 */
module Paging {
  import opened Common

  datatype Sort = ByName | BySize | ByStatus | ByOwner | ByCreated | ByModified

  /** The columns that can be sorted by are NOT NULL; ids compare as numbers. */
  datatype Entry = Entry(id: nat, name: string, size: int, status: string, owner: string, created: int, modified: int)

  function SortOf(param: Option<string>): Sort {
    match param
    case Some("name") => ByName
    case Some("size") => BySize
    case Some("status") => ByStatus
    case Some("owner") => ByOwner
    case Some("created") => ByCreated
    case _ => ByModified
  }

  predicate Ascending(param: Option<string>) { param == Some("asc") }

  /** `limit.unwrap_or(standard).min(most).max(1)`. */
  function Limit(requested: Option<int>, standard: int, most: int): (n: int)
    requires 1 <= standard <= most
    ensures requested.None? ==> n == standard
    ensures requested.Some? ==>
              n == if requested.value < 1 then 1 else if requested.value > most then most else requested.value
  {
    Max(Min(if requested.Some? then requested.value else standard, most), 1)
  }

  function Offset(requested: Option<int>): (n: int)
    ensures n == if requested.Some? && requested.value >= 0 then requested.value else 0
  {
    Max(if requested.Some? then requested.value else 0, 0)
  }

  /** The value a row is sorted by. `collate` ranks texts as the database's collation does; it may tie. */
  function SortKey(collate: string -> real, sort: Sort, e: Entry): real {
    match sort
    case ByName => collate(e.name)
    case BySize => e.size as real
    case ByStatus => collate(e.status)
    case ByOwner => collate(e.owner)
    case ByCreated => e.created as real
    case ByModified => e.modified as real
  }

  /** `ORDER BY col dir, id dir`. */
  predicate Before(collate: string -> real, sort: Sort, asc: bool, a: Entry, b: Entry) {
    var ka, kb := SortKey(collate, sort, a), SortKey(collate, sort, b);
    if asc then ka < kb || (ka == kb && a.id < b.id) else kb < ka || (ka == kb && b.id < a.id)
  }

  type Order = (Entry, Entry) -> bool

  function OrderOf(collate: string -> real, sort: Sort, asc: bool): Order {
    (a: Entry, b: Entry) => Before(collate, sort, asc, a, b)
  }

  ghost predicate StrictTotal(less: Order, rows: set<Entry>) {
    && (forall a | a in rows :: !less(a, a))
    && (forall a, b | a in rows && b in rows && a != b :: less(a, b) || less(b, a))
    && (forall a, b, c | a in rows && b in rows && c in rows && less(a, b) && less(b, c) :: less(a, c))
  }

  ghost predicate IdsAreKeys(rows: set<Entry>) { forall a, b | a in rows && b in rows && a.id == b.id :: a == b }

  /** Every sort column and direction orders rows with distinct ids strictly and totally. */
  lemma EverySortIsStrictTotal(collate: string -> real, sort: Sort, asc: bool, rows: set<Entry>)
    requires IdsAreKeys(rows)
    ensures StrictTotal(OrderOf(collate, sort, asc), rows)
  {
    var less := OrderOf(collate, sort, asc);
    forall a, b | a in rows && b in rows && a != b
      ensures less(a, b) || less(b, a)
    {
      assert a.id != b.id;
    }
  }

  // ---------------------------------------------------------------------------
  // Listings
  // ---------------------------------------------------------------------------

  /** `l` holds exactly the rows, each once, in order: what an ORDER BY query may return. */
  ghost predicate IsListing(less: Order, rows: set<Entry>, l: seq<Entry>) {
    && (forall e :: e in l <==> e in rows)
    && forall i, j | 0 <= i < j < |l| :: less(l[i], l[j])
  }

  lemma {:induction false} ListingSize(less: Order, rows: set<Entry>, l: seq<Entry>)
    requires StrictTotal(less, rows) && IsListing(less, rows, l)
    ensures |l| == |rows|
    decreases |l|
  {
    if l != [] {
      TailIsListing(less, rows, l);
      ListingSize(less, rows - {l[0]}, l[1..]);
    } else {
      assert rows == {};
    }
  }

  lemma TailIsListing(less: Order, rows: set<Entry>, l: seq<Entry>)
    requires StrictTotal(less, rows) && IsListing(less, rows, l) && l != []
    ensures l[0] in rows && StrictTotal(less, rows - {l[0]}) && IsListing(less, rows - {l[0]}, l[1..])
    ensures forall e | e in rows && e != l[0] :: less(l[0], e)
  {
    assert forall i | 0 < i < |l| :: less(l[0], l[i]) && l[i] in rows;
    assert forall e | e in rows :: e in l;
  }

  /** The database has no choice: a filter, a column and a direction determine the listing. */
  lemma {:induction false} ListingIsUnique(less: Order, rows: set<Entry>, l: seq<Entry>, m: seq<Entry>)
    requires StrictTotal(less, rows) && IsListing(less, rows, l) && IsListing(less, rows, m)
    ensures l == m
    decreases |l|
  {
    ListingSize(less, rows, l);
    ListingSize(less, rows, m);
    if l != [] {
      TailIsListing(less, rows, l);
      TailIsListing(less, rows, m);
      assert l[0] == m[0];
      ListingIsUnique(less, rows - {l[0]}, l[1..], m[1..]);
      assert l == [l[0]] + l[1..] && m == [m[0]] + m[1..];
    }
  }

  function Reversed(l: seq<Entry>): (r: seq<Entry>)
    ensures |r| == |l| && forall i | 0 <= i < |l| :: r[i] == l[|l| - 1 - i]
  {
    if l == [] then [] else Reversed(l[1..]) + [l[0]]
  }

  lemma ReversedHolds(l: seq<Entry>)
    ensures forall e :: e in Reversed(l) <==> e in l
  {
    var r := Reversed(l);
    forall e | e in l
      ensures e in r
    {
      var i :| 0 <= i < |l| && l[i] == e;
      assert r[|l| - 1 - i] == e;
    }
  }

  lemma FlippedOrder(collate: string -> real, sort: Sort, a: Entry, b: Entry)
    ensures OrderOf(collate, sort, true)(a, b) <==> OrderOf(collate, sort, false)(b, a)
    ensures OrderOf(collate, sort, true)(a, b) ==> SortKey(collate, sort, a) <= SortKey(collate, sort, b)
  {
  }

  lemma ReversedIsListing(up: Order, down: Order, rows: set<Entry>, l: seq<Entry>)
    requires IsListing(up, rows, l) && forall a, b | up(a, b) :: down(b, a)
    ensures IsListing(down, rows, Reversed(l))
  {
    ReversedHolds(l);
  }

  /** Sorting the other way gives the same listing backwards, ties included. */
  lemma DescendingIsReversed(collate: string -> real, sort: Sort, rows: set<Entry>, l: seq<Entry>)
    requires IsListing(OrderOf(collate, sort, true), rows, l)
    ensures IsListing(OrderOf(collate, sort, false), rows, Reversed(l))
    ensures forall i, j | 0 <= i < j < |l| :: SortKey(collate, sort, l[i]) <= SortKey(collate, sort, l[j])
  {
    var up, down := OrderOf(collate, sort, true), OrderOf(collate, sort, false);
    forall a, b | up(a, b) ensures down(b, a) { FlippedOrder(collate, sort, a, b); }
    ReversedIsListing(up, down, rows, l);
    forall i, j | 0 <= i < j < |l|
      ensures SortKey(collate, sort, l[i]) <= SortKey(collate, sort, l[j])
    {
      assert up(l[i], l[j]);
      FlippedOrder(collate, sort, l[i], l[j]);
    }
  }

  /** What an ascending listing is sorted by. */
  lemma ListingIsSorted(collate: string -> real, sort: Sort, rows: set<Entry>, l: seq<Entry>, i: nat, j: nat)
    requires IsListing(OrderOf(collate, sort, true), rows, l) && i < j < |l|
    ensures match sort
            case ByName => collate(l[i].name) <= collate(l[j].name)
            case BySize => l[i].size <= l[j].size
            case ByStatus => collate(l[i].status) <= collate(l[j].status)
            case ByOwner => collate(l[i].owner) <= collate(l[j].owner)
            case ByCreated => l[i].created <= l[j].created
            case ByModified => l[i].modified <= l[j].modified
  {
    assert OrderOf(collate, sort, true)(l[i], l[j]);
  }

  // ---------------------------------------------------------------------------
  // Pages
  // ---------------------------------------------------------------------------

  /** `LIMIT limit OFFSET offset`. */
  function Slice(l: seq<Entry>, limit: nat, offset: nat): seq<Entry> {
    if offset >= |l| then [] else l[offset..Min(offset + limit, |l|)]
  }

  /** What a page query may return; each query sorts the rows afresh. */
  ghost predicate IsPage(less: Order, rows: set<Entry>, limit: nat, offset: nat, page: seq<Entry>) {
    exists l :: IsListing(less, rows, l) && page == Slice(l, limit, offset)
  }

  function Joined(pages: seq<seq<Entry>>): seq<Entry> {
    if pages == [] then [] else Joined(pages[..|pages| - 1]) + pages[|pages| - 1]
  }

  lemma NextPage(l: seq<Entry>, limit: nat, offset: nat)
    ensures l[..Min(offset, |l|)] + Slice(l, limit, offset) == l[..Min(offset + limit, |l|)]
  {
  }

  /** The offset of page `k`. */
  function PageStart(limit: nat, k: nat): nat { k * limit }

  lemma NextStart(limit: nat, k: nat)
    ensures PageStart(limit, k + 1) == PageStart(limit, k) + limit && PageStart(limit, 0) == 0
  {
  }

  /** Page `k` is the slice of the one listing there is. */
  lemma PageIsSlice(less: Order, rows: set<Entry>, l: seq<Entry>, limit: nat, offset: nat, page: seq<Entry>)
    requires StrictTotal(less, rows) && IsListing(less, rows, l) && IsPage(less, rows, limit, offset, page)
    ensures page == Slice(l, limit, offset)
  {
    var m :| IsListing(less, rows, m) && page == Slice(m, limit, offset);
    ListingIsUnique(less, rows, l, m);
  }

  lemma {:induction false} PagesArePrefix(l: seq<Entry>, limit: nat, pages: seq<seq<Entry>>)
    requires forall k | 0 <= k < |pages| :: pages[k] == Slice(l, limit, PageStart(limit, k))
    ensures Joined(pages) == l[..Min(PageStart(limit, |pages|), |l|)]
  {
    if pages == [] {
      NextStart(limit, 0);
    } else {
      var k := |pages| - 1;
      assert forall i | 0 <= i < k :: pages[..k][i] == pages[i];
      PagesArePrefix(l, limit, pages[..k]);
      NextPage(l, limit, PageStart(limit, k));
      NextStart(limit, k);
    }
  }

  /**
   Pages fetched one after another join to the whole listing: no gap, no repeat, and as many rows as the
   `x-total-count` header says.
   */
  lemma PagesJoinToTheListing(
    collate: string -> real, sort: Sort, asc: bool, rows: set<Entry>, l: seq<Entry>, limit: nat,
    pages: seq<seq<Entry>>)
    requires IdsAreKeys(rows) && IsListing(OrderOf(collate, sort, asc), rows, l)
    requires forall k | 0 <= k < |pages| ::
             IsPage(OrderOf(collate, sort, asc), rows, limit, PageStart(limit, k), pages[k])
    requires PageStart(limit, |pages|) >= |rows|
    ensures Joined(pages) == l && |Joined(pages)| == |rows|
    ensures forall i, j | 0 <= i < j < |Joined(pages)| :: Joined(pages)[i].id != Joined(pages)[j].id
  {
    var less := OrderOf(collate, sort, asc);
    EverySortIsStrictTotal(collate, sort, asc, rows);
    ListingSize(less, rows, l);
    forall k | 0 <= k < |pages|
      ensures pages[k] == Slice(l, limit, PageStart(limit, k))
    {
      assert IsPage(less, rows, limit, PageStart(limit, k), pages[k]);
      PageIsSlice(less, rows, l, limit, PageStart(limit, k), pages[k]);
    }
    PagesArePrefix(l, limit, pages);
    forall i, j | 0 <= i < j < |l|
      ensures l[i].id != l[j].id
    {
      assert less(l[i], l[j]) && l[i] in rows && l[j] in rows;
    }
  }

  /** Every page but the last is full; a page past the end is empty. */
  lemma PageSize(less: Order, rows: set<Entry>, limit: nat, offset: nat, page: seq<Entry>)
    requires StrictTotal(less, rows) && IsPage(less, rows, limit, offset, page)
    ensures |page| == Min(limit, Max(|rows| - offset, 0))
  {
    var l :| IsListing(less, rows, l) && page == Slice(l, limit, offset);
    ListingSize(less, rows, l);
  }
}

/** The files page after sorting: pages of a fixed size, or groups in order of first appearance. */
module FileView {
  import opened Common

  const PAGE_SIZE: nat := 50

  // ---------------------------------------------------------------------------
  // Grouping
  // ---------------------------------------------------------------------------

  datatype Group<T> = Group(title: string, rows: seq<T>)

  function Having<T>(rows: seq<T>, value: T -> string, title: string): seq<T> {
    if rows == [] then []
    else
      var n := |rows| - 1;
      Having(rows[..n], value, title) + if value(rows[n]) == title then [rows[n]] else []
  }

  /** Labels in order of first appearance. */
  function Labels<T>(rows: seq<T>, value: T -> string): seq<string> {
    if rows == [] then []
    else
      var n := |rows| - 1;
      var before := Labels(rows[..n], value);
      if value(rows[n]) in before then before else before + [value(rows[n])]
  }

  lemma {:induction false} LabelsAreValues<T>(rows: seq<T>, value: T -> string)
    ensures forall title :: title in Labels(rows, value) <==> exists i :: 0 <= i < |rows| && value(rows[i]) == title
    ensures forall i, j | 0 <= i < j < |Labels(rows, value)| :: Labels(rows, value)[i] != Labels(rows, value)[j]
  {
    if rows != [] {
      var n := |rows| - 1;
      LabelsAreValues(rows[..n], value);
      forall title
        ensures title in Labels(rows, value) <==> exists i :: 0 <= i < |rows| && value(rows[i]) == title
      {
        if i :| 0 <= i < |rows| && value(rows[i]) == title {
          if i < n { assert value(rows[..n][i]) == title; }
        } else {
          assert forall i | 0 <= i < n :: rows[..n][i] == rows[i];
        }
      }
    }
  }

  /** The loop over a map that remembers insertion order. */
  method GroupRows<T>(rows: seq<T>, value: T -> string) returns (groups: seq<Group<T>>)
    ensures |groups| == |Labels(rows, value)|
    ensures forall g | 0 <= g < |groups| ::
              groups[g].title == Labels(rows, value)[g] && groups[g].rows == Having(rows, value, groups[g].title)
  {
    var buckets: map<string, seq<T>> := map[];
    var order: seq<string> := [];
    for i := 0 to |rows|
      invariant order == Labels(rows[..i], value)
      invariant forall v :: v in buckets <==> v in order
      invariant forall v | v in buckets :: buckets[v] == Having(rows[..i], value, v)
    {
      var v := value(rows[i]);
      assert rows[..i + 1][..i] == rows[..i];
      if v !in buckets {
        NoneHaving(rows[..i], value, v);
        buckets, order := buckets[v := []], order + [v];
      }
      buckets := buckets[v := buckets[v] + [rows[i]]];
    }
    assert rows[..|rows|] == rows;
    groups := seq(|order|, g requires 0 <= g < |order| && order[g] in buckets => Group(order[g], buckets[order[g]]));
  }

  lemma {:induction false} NoneHaving<T>(rows: seq<T>, value: T -> string, title: string)
    requires title !in Labels(rows, value)
    ensures Having(rows, value, title) == []
  {
    if rows != [] { NoneHaving(rows[..|rows| - 1], value, title); }
  }

  function Sizes<T>(rows: seq<T>, value: T -> string, labels: seq<string>): nat {
    if labels == [] then 0 else Sizes(rows, value, labels[..|labels| - 1]) + |Having(rows, value, labels[|labels| - 1])|
  }

  lemma {:induction false} HavingOf<T>(rows: seq<T>, value: T -> string, title: string, x: T)
    ensures multiset(Having(rows, value, title))[x] == if value(x) == title then multiset(rows)[x] else 0
  {
    if rows != [] {
      var n := |rows| - 1;
      HavingOf(rows[..n], value, title, x);
      assert rows == rows[..n] + [rows[n]];
    }
  }

  /** Grouping loses and repeats nothing: each row is in the group of its own value, as often as before. */
  lemma GroupsPartitionRows<T>(rows: seq<T>, value: T -> string, x: T)
    ensures x in rows ==> value(x) in Labels(rows, value)
    ensures forall title | title in Labels(rows, value) ::
              multiset(Having(rows, value, title))[x] == if value(x) == title then multiset(rows)[x] else 0
  {
    LabelsAreValues(rows, value);
    forall title ensures multiset(Having(rows, value, title))[x] == if value(x) == title then multiset(rows)[x] else 0 {
      HavingOf(rows, value, title, x);
    }
  }

  // ---------------------------------------------------------------------------
  // Pages
  // ---------------------------------------------------------------------------

  /** `Math.max(1, Math.ceil(total / PAGE_SIZE))`. */
  function PageCount(total: nat): nat { Max(1, (total + PAGE_SIZE - 1) / PAGE_SIZE) }

  /** The requested page, pulled into range. */
  function PageShown(total: nat, requested: int): int { Min(Max(0, requested), PageCount(total) - 1) }

  /** Every row is on exactly one page, and no page shown is empty unless there is nothing to show. */
  lemma EveryRowHasOnePage(total: nat, requested: int)
    ensures 0 <= PageShown(total, requested) < PageCount(total)
    ensures total > 0 ==> PageShown(total, requested) * PAGE_SIZE < total
    ensures forall i: nat | i < total :: i / PAGE_SIZE < PageCount(total)
    ensures 0 <= requested < PageCount(total) ==> PageShown(total, requested) == requested
  {
  }
}

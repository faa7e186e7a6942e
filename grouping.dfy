/**
 * Group-by with sum aggregation, as a two-pass algorithm: one pass folds
 * every row into an accumulator entry for its key (`GroupTotals`), the
 * caller then finalises the entries (renames, sorts). `Summary` is the
 * reference definition the fold is proved against: the totals of a group
 * read straight off the rows that carry its key.
 */
module Grouping {
  import opened Common
  import opened Table

  /** The running totals of one group; `count` is the number of its rows. */
  datatype Totals<K> = Totals(key: K, units: real, revenue: real, count: nat)

  function TotalUnits<K>(t: Totals<K>): real { t.units }
  function TotalRevenue<K>(t: Totals<K>): real { t.revenue }

  /** The rows of group `k`, in table order. */
  function RowsWithKey<K(==,!new)>(rows: seq<Row>, key: Row -> K, k: K): (g: seq<Row>)
    ensures forall x :: multiset(g)[x] == if key(x) == k then multiset(rows)[x] else 0
    ensures forall x :: x in g <==> x in rows && key(x) == k
  {
    if rows == [] then []
    else
      var init := RowsWithKey(rows[..|rows| - 1], key, k);
      assert rows == rows[..|rows| - 1] + [rows[|rows| - 1]];
      if key(rows[|rows| - 1]) == k then init + [rows[|rows| - 1]] else init
  }

  /** The totals of group `k`, or `None` when no row has that key. */
  function Summary<K(==,!new)>(rows: seq<Row>, key: Row -> K, k: K): Option<Totals<K>>
  {
    GroupSummary(RowsWithKey(rows, key, k), k)
  }

  /** The totals of the rows `g`, all of group `k`. */
  function GroupSummary<K>(g: seq<Row>, k: K): Option<Totals<K>>
  {
    if g == [] then None else Some(Totals(k, Sum(g, Units), Sum(g, Revenue), |g|))
  }

  predicate DistinctKeys<K(==,!new)>(acc: seq<Totals<K>>) {
    forall i, j :: 0 <= i < j < |acc| ==> acc[i].key != acc[j].key
  }

  /** The first entry for key `k`. */
  function Lookup<K(==,!new)>(acc: seq<Totals<K>>, k: K): (o: Option<Totals<K>>)
    ensures o.None? <==> forall i :: 0 <= i < |acc| ==> acc[i].key != k
    ensures o.Some? ==> o.value.key == k && o.value in acc
  {
    if acc == [] then None
    else if acc[0].key == k then Some(acc[0])
    else
      assert forall i :: 1 <= i < |acc| ==> acc[i] == acc[1..][i - 1];
      Lookup(acc[1..], k)
  }

  /** An accumulator entry after row `r` of group `k` is added to it. */
  function Bump<K>(o: Option<Totals<K>>, k: K, r: Row): Totals<K>
  {
    match o
    case None => Totals(k, r.unitsSold, r.revenue, 1)
    case Some(t) => Totals(k, t.units + r.unitsSold, t.revenue + r.revenue, t.count + 1)
  }

  /** Adds row `r` to the entry for `k`, opening a new entry at the end when there is none. */
  function AddRow<K(==,!new)>(acc: seq<Totals<K>>, k: K, r: Row): (acc': seq<Totals<K>>)
    ensures forall k' :: Lookup(acc', k') == if k' == k then Some(Bump(Lookup(acc, k), k, r)) else Lookup(acc, k')
    ensures DistinctKeys(acc) ==> DistinctKeys(acc')
  {
    if acc == [] then [Bump(None, k, r)]
    else if acc[0].key == k then [Bump(Some(acc[0]), k, r)] + acc[1..]
    else
      var rest := AddRow(acc[1..], k, r);
      assert Lookup(rest, acc[0].key) == Lookup(acc[1..], acc[0].key);
      [acc[0]] + rest
  }

  /** Adding a row adds its units and revenue to the accumulator's totals. */
  lemma {:induction false} AddRowSums<K(!new)>(acc: seq<Totals<K>>, k: K, r: Row)
    ensures Sum(AddRow(acc, k, r), TotalUnits) == Sum(acc, TotalUnits) + r.unitsSold
    ensures Sum(AddRow(acc, k, r), TotalRevenue) == Sum(acc, TotalRevenue) + r.revenue
  {
    if acc == [] {
      assert [Bump(None, k, r)][..0] == [];
    } else {
      assert acc == [acc[0]] + acc[1..];
      SumCons(acc[0], acc[1..], TotalUnits);
      SumCons(acc[0], acc[1..], TotalRevenue);
      if acc[0].key == k {
        SumCons(Bump(Some(acc[0]), k, r), acc[1..], TotalUnits);
        SumCons(Bump(Some(acc[0]), k, r), acc[1..], TotalRevenue);
      } else {
        AddRowSums(acc[1..], k, r);
        SumCons(acc[0], AddRow(acc[1..], k, r), TotalUnits);
        SumCons(acc[0], AddRow(acc[1..], k, r), TotalRevenue);
      }
    }
  }

  /** pandas `groupby(key).agg(sum)`: one entry per key, in order of first appearance. */
  function GroupTotals<K(==,!new)>(rows: seq<Row>, key: Row -> K): (g: seq<Totals<K>>)
    ensures DistinctKeys(g)
  {
    if rows == [] then []
    else
      var last := rows[|rows| - 1];
      AddRow(GroupTotals(rows[..|rows| - 1], key), key(last), last)
  }

  lemma RowsWithKeyAppend<K(!new)>(init: seq<Row>, last: Row, key: Row -> K, k: K)
    ensures RowsWithKey(init + [last], key, k) ==
      if key(last) == k then RowsWithKey(init, key, k) + [last] else RowsWithKey(init, key, k)
  {
    var rows := init + [last];
    assert rows[..|rows| - 1] == init;
  }

  /** A row of group `k` appended to the table is added to that group's totals. */
  lemma SummaryAppendHit<K(!new)>(init: seq<Row>, last: Row, key: Row -> K, k: K)
    requires key(last) == k
    ensures Summary(init + [last], key, k) == Some(Bump(Summary(init, key, k), k, last))
  {
    RowsWithKeyAppend(init, last, key, k);
    GroupSummarySnoc(RowsWithKey(init, key, k), last, k);
  }

  lemma GroupSummarySnoc<K>(g: seq<Row>, last: Row, k: K)
    ensures GroupSummary(g + [last], k) == Some(Bump(GroupSummary(g, k), k, last))
  {
    SumsSnoc(g, last);
  }

  lemma SumsSnoc(g: seq<Row>, last: Row)
    ensures Sum(g + [last], Units) == Sum(g, Units) + last.unitsSold
    ensures Sum(g + [last], Revenue) == Sum(g, Revenue) + last.revenue
  {
    assert (g + [last])[..|g|] == g;
  }

  /** A row of another group leaves the totals of group `k` as they were. */
  lemma SummaryAppendMiss<K(!new)>(init: seq<Row>, last: Row, key: Row -> K, k: K)
    requires key(last) != k
    ensures Summary(init + [last], key, k) == Summary(init, key, k)
  {
    RowsWithKeyAppend(init, last, key, k);
  }

  /** How one more row changes the reference totals of a group. */
  lemma SummaryStep<K(!new)>(rows: seq<Row>, key: Row -> K, k: K)
    requires rows != []
    ensures Summary(rows, key, k) ==
      var init, last := rows[..|rows| - 1], rows[|rows| - 1];
      if key(last) == k then Some(Bump(Summary(init, key, k), k, last)) else Summary(init, key, k)
  {
    var init, last := rows[..|rows| - 1], rows[|rows| - 1];
    assert rows == init + [last];
    if key(last) == k {
      SummaryAppendHit(init, last, key, k);
    } else {
      SummaryAppendMiss(init, last, key, k);
    }
  }

  /** Every group's entry holds exactly the totals of the rows with its key. */
  lemma {:induction false} GroupTotalsSummary<K(!new)>(rows: seq<Row>, key: Row -> K)
    ensures forall k :: Lookup(GroupTotals(rows, key), k) == Summary(rows, key, k)
  {
    if rows != [] {
      var init := rows[..|rows| - 1];
      GroupTotalsSummary(init, key);
      forall k ensures Lookup(GroupTotals(rows, key), k) == Summary(rows, key, k) {
        SummaryStep(rows, key, k);
      }
    }
  }

  /** Grouping conserves the table's total units and revenue. */
  lemma {:induction false} GroupTotalsConserve<K(!new)>(rows: seq<Row>, key: Row -> K)
    ensures Sum(GroupTotals(rows, key), TotalUnits) == Sum(rows, Units)
    ensures Sum(GroupTotals(rows, key), TotalRevenue) == Sum(rows, Revenue)
  {
    if rows != [] {
      var init, last := rows[..|rows| - 1], rows[|rows| - 1];
      GroupTotalsConserve(init, key);
      AddRowSums(GroupTotals(init, key), key(last), last);
    }
  }

  /** With distinct keys, looking up an entry's own key finds that entry. */
  lemma LookupEntry<K(!new)>(acc: seq<Totals<K>>, i: nat)
    requires DistinctKeys(acc) && i < |acc|
    ensures Lookup(acc, acc[i].key) == Some(acc[i])
  {
    var o := Lookup(acc, acc[i].key);
    var j :| 0 <= j < |acc| && acc[j] == o.value;
    assert i == j;
  }

  /**
   * The group table as a whole: each entry is a group that occurs, with the
   * totals of exactly its rows, and each row's key has an entry.
   */
  lemma GroupTotalsSpec<K(!new)>(rows: seq<Row>, key: Row -> K)
    ensures forall i :: 0 <= i < |GroupTotals(rows, key)| ==>
      Summary(rows, key, GroupTotals(rows, key)[i].key) == Some(GroupTotals(rows, key)[i])
    ensures forall x :: x in rows ==> Lookup(GroupTotals(rows, key), key(x)).Some?
  {
    var g := GroupTotals(rows, key);
    GroupTotalsSummary(rows, key);
    forall i | 0 <= i < |g| ensures Summary(rows, key, g[i].key) == Some(g[i]) {
      LookupEntry(g, i);
    }
    forall x | x in rows ensures Lookup(g, key(x)).Some? {
      assert x in RowsWithKey(rows, key, key(x));
    }
  }
}

/**
 * The pandas pipeline `groupby(key).agg(sum).reset_index().sort_values(...)`:
 * group the rows, turn each group's totals into an output record, sort the
 * records. The lemmas state what every such pipeline guarantees: each
 * record carries the totals of exactly its group, every group that occurs
 * has its record, no group has two, and the totals are conserved.
 */
module Aggregation {
  import opened Common
  import opened Table
  import opened Sorting
  import opened Grouping

  /** Each group's totals turned into an output record (`reset_index`). */
  function MapTotals<K, O>(groups: seq<Totals<K>>, out: Totals<K> -> O): (r: seq<O>)
    ensures |r| == |groups|
    ensures forall i :: 0 <= i < |groups| ==> r[i] == out(groups[i])
  {
    seq(|groups|, i requires 0 <= i < |groups| => out(groups[i]))
  }

  /** Group by `key`, finalise with `out`, sort by `le`. */
  function Aggregate<K(==,!new), O>(rows: seq<Row>, key: Row -> K, out: Totals<K> -> O,
                                    le: (O, O) -> bool): (r: seq<O>)
    ensures multiset(r) == multiset(MapTotals(GroupTotals(rows, key), out))
  {
    SortBy(MapTotals(GroupTotals(rows, key), out), le)
  }

  /** `out` keeps the key where `okey` can read it back. */
  ghost predicate KeepsKey<K(!new), O>(out: Totals<K> -> O, okey: O -> K) {
    forall t: Totals<K> :: okey(out(t)) == t.key
  }

  /**
   * Every record is the finalised totals of its own group, and every row's
   * group has its record.
   */
  lemma AggregateEntries<K(!new), O(!new)>(rows: seq<Row>, key: Row -> K, out: Totals<K> -> O,
                                           okey: O -> K, le: (O, O) -> bool)
    requires KeepsKey(out, okey)
    ensures forall o :: o in Aggregate(rows, key, out, le) ==>
      Summary(rows, key, okey(o)).Some? && o == out(Summary(rows, key, okey(o)).value)
    ensures forall x :: x in rows ==>
      Summary(rows, key, key(x)).Some? && out(Summary(rows, key, key(x)).value) in Aggregate(rows, key, out, le)
  {
    var g := GroupTotals(rows, key);
    var m := MapTotals(g, out);
    var r := Aggregate(rows, key, out, le);
    GroupTotalsSpec(rows, key);
    GroupTotalsSummary(rows, key);
    forall o | o in r
      ensures Summary(rows, key, okey(o)).Some? && o == out(Summary(rows, key, okey(o)).value)
    {
      assert o in multiset(m);
      var i :| 0 <= i < |m| && m[i] == o;
      assert Summary(rows, key, g[i].key) == Some(g[i]);
    }
    forall x | x in rows
      ensures Summary(rows, key, key(x)).Some? && out(Summary(rows, key, key(x)).value) in r
    {
      var t := Lookup(g, key(x)).value;
      var i :| 0 <= i < |g| && g[i] == t;
      assert m[i] == out(t);
      assert out(t) in multiset(r);
    }
  }

  /** An element at two positions is counted twice. */
  lemma TwoPositions<T>(s: seq<T>, i: nat, j: nat)
    requires i < j < |s| && s[i] == s[j]
    ensures multiset(s)[s[i]] >= 2
  {
    assert s == s[..j] + [s[j]] + s[j + 1..];
    assert s[..j][i] == s[i];
    assert s[i] in multiset(s[..j]);
  }

  /** An element at one position only is counted once. */
  lemma OnePosition<T>(s: seq<T>, p: nat)
    requires p < |s| && forall q :: 0 <= q < |s| && s[q] == s[p] ==> q == p
    ensures multiset(s)[s[p]] == 1
  {
    assert s == s[..p] + [s[p]] + s[p + 1..];
    assert s[p] !in s[..p];
    assert s[p] !in s[p + 1..];
  }

  /** Distinct keys survive a permutation. */
  lemma PermutationKeepsDistinct<K, O>(a: seq<O>, b: seq<O>, okey: O -> K)
    requires multiset(a) == multiset(b)
    requires forall i, j :: 0 <= i < j < |a| ==> okey(a[i]) != okey(a[j])
    ensures forall i, j :: 0 <= i < j < |b| ==> okey(b[i]) != okey(b[j])
  {
    forall i, j | 0 <= i < j < |b| ensures okey(b[i]) != okey(b[j]) {
      if okey(b[i]) == okey(b[j]) {
        assert b[i] in multiset(a) && b[j] in multiset(a);
        var p :| 0 <= p < |a| && a[p] == b[i];
        var q :| 0 <= q < |a| && a[q] == b[j];
        assert p == q;
        TwoPositions(b, i, j);
        OnePosition(a, p);
        assert false;
      }
    }
  }

  /** No group has two records. */
  lemma AggregateDistinct<K(!new), O>(rows: seq<Row>, key: Row -> K, out: Totals<K> -> O,
                                      okey: O -> K, le: (O, O) -> bool)
    requires KeepsKey(out, okey)
    ensures var r := Aggregate(rows, key, out, le);
            forall i, j :: 0 <= i < j < |r| ==> okey(r[i]) != okey(r[j])
  {
    var m := MapTotals(GroupTotals(rows, key), out);
    PermutationKeepsDistinct(m, Aggregate(rows, key, out, le), okey);
  }

  lemma {:induction false} SumMapTotals<K, O>(groups: seq<Totals<K>>, out: Totals<K> -> O, f: O -> real,
                                          g: Totals<K> -> real)
    requires forall t :: f(out(t)) == g(t)
    ensures Sum(MapTotals(groups, out), f) == Sum(groups, g)
  {
    if groups != [] {
      var init := groups[..|groups| - 1];
      SumMapTotals(init, out, f, g);
      assert MapTotals(groups, out)[..|groups| - 1] == MapTotals(init, out);
    }
  }

  /** A column of the records sums to the matching column of the totals. */
  lemma AggregateSum<K(!new), O>(rows: seq<Row>, key: Row -> K, out: Totals<K> -> O,
                                 le: (O, O) -> bool, f: O -> real, g: Totals<K> -> real)
    requires forall t :: f(out(t)) == g(t)
    ensures Sum(Aggregate(rows, key, out, le), f) == Sum(GroupTotals(rows, key), g)
  {
    var m := MapTotals(GroupTotals(rows, key), out);
    SumPermutation(m, Aggregate(rows, key, out, le), f);
    SumMapTotals(GroupTotals(rows, key), out, f, g);
  }
}

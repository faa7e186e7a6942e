/**
 * The sales table: one `Row` per sales record, plus the column sums, means
 * and row filters that every analytic operation is built from.
 */
module Table {

  /**
   * One sales record. `date` is a day number counted from 1970-01-01 (the
   * epoch of pandas timestamps); `promoFlag` is the raw 0/1 column, kept as
   * an integer because the operations compare it with `== 0` and `== 1`.
   */
  datatype Row = Row(
    date: int,
    storeId: int,
    storeRegion: string,
    skuId: int,
    category: string,
    unitsSold: real,
    revenue: real,
    promoFlag: int,
    price: real,
    inventoryLevel: int)

  /** The constraints of the table's schema. */
  predicate WellFormed(r: Row) {
    && r.unitsSold >= 0.0
    && r.revenue >= 0.0
    && (r.promoFlag == 0 || r.promoFlag == 1)
    && r.price > 0.0
    && r.inventoryLevel >= 0
  }

  // Numeric columns, as functions so that `Sum` and `Mean` can take them.
  function Units(r: Row): real { r.unitsSold }
  function Revenue(r: Row): real { r.revenue }
  function Price(r: Row): real { r.price }

  /** The sum of column `f` over `s` (pandas `Series.sum`, 0 on no rows). */
  function Sum<T>(s: seq<T>, f: T -> real): (r: real)
    ensures s == [] ==> r == 0.0
  {
    if s == [] then 0.0 else Sum(s[..|s| - 1], f) + f(s[|s| - 1])
  }

  lemma {:induction false} SumAppend<T>(a: seq<T>, b: seq<T>, f: T -> real)
    ensures Sum(a + b, f) == Sum(a, f) + Sum(b, f)
  {
    if b == [] {
      assert a + b == a;
    } else {
      assert (a + b)[..|a + b| - 1] == a + b[..|b| - 1];
      SumAppend(a, b[..|b| - 1], f);
    }
  }

  lemma SumCons<T>(x: T, s: seq<T>, f: T -> real)
    ensures Sum([x] + s, f) == f(x) + Sum(s, f)
  {
    SumAppend([x], s, f);
    assert [x][..0] == [];
  }

  /** Taking one element out of a sequence takes its value out of the sum. */
  lemma SumRemove<T>(b: seq<T>, i: nat, f: T -> real)
    requires i < |b|
    ensures Sum(b, f) == Sum(b[..i] + b[i + 1..], f) + f(b[i])
  {
    var front, back := b[..i], b[i + 1..];
    var rest := [b[i]] + back;
    assert b == front + rest;
    assert Sum(b, f) == Sum(front + rest, f);
    SumAppend(front, rest, f);
    assert Sum(b, f) == Sum(front, f) + Sum(rest, f);
    SumCons(b[i], back, f);
    assert Sum(rest, f) == f(b[i]) + Sum(back, f);
    SumAppend(front, back, f);
    assert Sum(front + back, f) == Sum(front, f) + Sum(back, f);
  }

  /** Taking one element out of a sequence takes one occurrence out of its multiset. */
  lemma RemoveMultiset<T>(b: seq<T>, i: nat)
    requires i < |b|
    ensures multiset(b[..i] + b[i + 1..]) == multiset(b) - multiset{b[i]}
  {
    assert b == b[..i] + ([b[i]] + b[i + 1..]);
  }

  /** Summation does not depend on the order of the rows. */
  lemma {:induction false} SumPermutation<T>(a: seq<T>, b: seq<T>, f: T -> real)
    requires multiset(a) == multiset(b)
    ensures Sum(a, f) == Sum(b, f)
  {
    if a != [] {
      var x := a[|a| - 1];
      var a' := a[..|a| - 1];
      assert a == a' + [x];
      assert multiset(a') == multiset(a) - multiset{x};
      assert x in multiset(b);
      var i :| 0 <= i < |b| && b[i] == x;
      SumRemove(b, i, f);
      RemoveMultiset(b, i);
      SumPermutation(a', b[..i] + b[i + 1..], f);
    }
  }

  /** The mean of column `f` over a non-empty `s` (pandas `Series.mean`). */
  function Mean<T>(s: seq<T>, f: T -> real): (r: real)
    requires |s| > 0
    ensures r * (|s| as real) == Sum(s, f)
  {
    Sum(s, f) / (|s| as real)
  }

  /** A sum over rows whose column all equals `v` is `v` times their number. */
  lemma {:induction false} SumConstant<T>(s: seq<T>, f: T -> real, v: real)
    requires forall x :: x in s ==> f(x) == v
    ensures Sum(s, f) == (|s| as real) * v
  {
    if s != [] {
      SumConstant(s[..|s| - 1], f, v);
    }
  }

  lemma {:induction false} SumNonNegative<T>(s: seq<T>, f: T -> real)
    requires forall x :: x in s ==> f(x) >= 0.0
    ensures Sum(s, f) >= 0.0
  {
    if s != [] {
      SumNonNegative(s[..|s| - 1], f);
    }
  }

  /** The rows of `s` that satisfy `p`, in order (a boolean-mask selection). */
  function Filter<T(!new)>(s: seq<T>, p: T -> bool): (r: seq<T>)
    ensures forall x :: multiset(r)[x] == if p(x) then multiset(s)[x] else 0
    ensures forall x :: x in r <==> x in s && p(x)
    ensures |r| <= |s|
  {
    if s == [] then []
    else
      var init := Filter(s[..|s| - 1], p);
      assert s == s[..|s| - 1] + [s[|s| - 1]];
      if p(s[|s| - 1]) then init + [s[|s| - 1]] else init
  }

  /** Selecting from a table with one more row at the end. */
  lemma FilterSnoc<T(!new)>(s: seq<T>, x: T, p: T -> bool)
    ensures Filter(s + [x], p) == if p(x) then Filter(s, p) + [x] else Filter(s, p)
  {
    assert (s + [x])[..|s|] == s;
  }

  /** A non-empty `b` is its initial part followed by its last element, also after `a`. */
  lemma SnocSplit<T>(a: seq<T>, b: seq<T>)
    requires b != []
    ensures b == b[..|b| - 1] + [b[|b| - 1]]
    ensures a + b == (a + b[..|b| - 1]) + [b[|b| - 1]]
  {
    assert b == b[..|b| - 1] + [b[|b| - 1]];
  }

  lemma AppendAssoc<T>(x: seq<T>, y: seq<T>, z: seq<T>)
    ensures (x + y) + z == x + (y + z)
  {
  }

  lemma {:induction false} FilterAppend<T(!new)>(a: seq<T>, b: seq<T>, p: T -> bool)
    ensures Filter(a + b, p) == Filter(a, p) + Filter(b, p)
  {
    if b == [] {
      assert a + b == a;
    } else {
      var init, last := b[..|b| - 1], b[|b| - 1];
      SnocSplit(a, b);
      FilterAppend(a, init, p);
      FilterSnoc(a + init, last, p);
      FilterSnoc(init, last, p);
      AppendAssoc(Filter(a, p), Filter(init, p), [last]);
    }
  }

  // Row selectors (the boolean masks of the source).
  function HasSku(skuId: int): Row -> bool { (r: Row) => r.skuId == skuId }
  function InCategory(category: string): Row -> bool { (r: Row) => r.category == category }
  function IsNonPromo(r: Row): bool { r.promoFlag == 0 }
  function IsPromo(r: Row): bool { r.promoFlag == 1 }

  /** Column `f` where `p` holds and 0 elsewhere. */
  function Masked<T>(p: T -> bool, f: T -> real): T -> real {
    (x: T) => if p(x) then f(x) else 0.0
  }

  /** Summing the selected rows is summing every row with the others counted as 0. */
  lemma {:induction false} SumFilter<T(!new)>(s: seq<T>, p: T -> bool, f: T -> real)
    ensures Sum(Filter(s, p), f) == Sum(s, Masked(p, f))
  {
    if s != [] {
      var init, last := s[..|s| - 1], s[|s| - 1];
      SumFilter(init, p, f);
      if p(last) {
        assert (Filter(init, p) + [last])[..|Filter(init, p) + [last]| - 1] == Filter(init, p);
      }
    }
  }

  /** A selection is empty exactly when no row meets the mask. */
  lemma FilterEmpty<T(!new)>(s: seq<T>, p: T -> bool)
    ensures Filter(s, p) == [] <==> forall x :: x in s ==> !p(x)
  {
    if Filter(s, p) != [] {
      assert Filter(s, p)[0] in Filter(s, p);
    }
  }
}

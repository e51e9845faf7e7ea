/** The column reductions the page calls: `min`, `max` (Home.py:41-42,
    53-54) and pandas' default `quantile` (Home.py:47-48), which sorts the
    values and interpolates linearly between the two closest ranks. Values
    are exact reals; NaN is not modelled. */
module Stats {
  import opened Wrappers

  predicate Sorted(s: seq<real>) {
    forall i, j :: 0 <= i <= j < |s| ==> s[i] <= s[j]
  }

  /** Inserts `x` into an ascending sequence. */
  function Insert(x: real, s: seq<real>): (r: seq<real>)
    requires Sorted(s)
    ensures Sorted(r)
    ensures multiset(r) == multiset(s) + multiset{x}
  {
    if s == [] || x <= s[0] then [x] + s
    else
      var t := Insert(x, s[1..]);
      assert s == [s[0]] + s[1..];
      assert forall k :: 0 <= k < |t| ==> t[k] in multiset(s[1..]) + multiset{x};
      [s[0]] + t
  }

  /** The ascending arrangement of a column's values. */
  function Sort(s: seq<real>): (r: seq<real>)
    ensures Sorted(r)
    ensures multiset(r) == multiset(s)
  {
    if s == [] then []
    else
      assert s == [s[0]] + s[1..];
      Insert(s[0], Sort(s[1..]))
  }

  /** `Series.min()` of a non-empty column. */
  function Min(s: seq<real>): (m: real)
    requires |s| > 0
    ensures m in s
    ensures forall x :: x in s ==> m <= x
  {
    if |s| == 1 then s[0]
    else
      var t := Min(s[1..]);
      assert s == [s[0]] + s[1..];
      if s[0] <= t then s[0] else t
  }

  /** `Series.max()` of a non-empty column. */
  function Max(s: seq<real>): (m: real)
    requires |s| > 0
    ensures m in s
    ensures forall x :: x in s ==> x <= m
  {
    if |s| == 1 then s[0]
    else
      var t := Max(s[1..]);
      assert s == [s[0]] + s[1..];
      if s[0] >= t then s[0] else t
  }

  /** The first and last elements of the sorted column are its minimum and
      maximum. */
  lemma SortEnds(s: seq<real>)
    requires |s| > 0
    ensures |Sort(s)| == |s|
    ensures Sort(s)[0] == Min(s) && Sort(s)[|s| - 1] == Max(s)
  {
    var t := Sort(s);
    assert |t| == |multiset(t)| == |multiset(s)| == |s|;
    var first, last := t[0], t[|s| - 1];
    assert first in multiset(t) && last in multiset(t);
    assert first in s && last in s;
    var lo, hi := Min(s), Max(s);
    assert lo in multiset(s) && hi in multiset(s);
    assert lo in t && hi in t;
    var i :| 0 <= i < |t| && t[i] == lo;
    var j :| 0 <= j < |t| && t[j] == hi;
    assert first <= t[i] && t[j] <= last;
  }

  /** numpy's linear interpolation `a + t * (b - a)`. */
  function Lerp(a: real, b: real, t: real): (r: real)
    requires 0.0 <= t <= 1.0
    ensures a <= b ==> a <= r <= b
    ensures t == 0.0 ==> r == a
  {
    var diff := b - a;
    ProductBounds(diff, t);
    a + diff * t
  }

  lemma ProductBounds(d: real, t: real)
    requires 0.0 <= t <= 1.0
    ensures 0.0 <= d ==> 0.0 <= d * t <= d
  {
    assert d - d * t == d * (1.0 - t);
  }

  /** numpy's virtual index `(n - 1) * q` of the `q`-quantile among `n`
      sorted values; it lies in [0, n - 1]. */
  function VirtualIndex(n: nat, q: real): (h: real)
    requires n > 0 && 0.0 <= q <= 1.0
    ensures 0.0 <= h <= (n - 1) as real
  {
    var m := (n - 1) as real;
    ProductBounds(m, q);
    m * q
  }

  /** Rank below the virtual index `(n - 1) * q`. */
  function LowRank(n: nat, q: real): (lo: nat)
    requires n > 0 && 0.0 <= q <= 1.0
    ensures lo < n
    ensures lo as real <= VirtualIndex(n, q) < lo as real + 1.0
  {
    VirtualIndex(n, q).Floor
  }

  /** Rank above the virtual index, clipped to the last element. */
  function HighRank(n: nat, q: real): (hi: nat)
    requires n > 0 && 0.0 <= q <= 1.0
    ensures LowRank(n, q) <= hi < n
    ensures hi == LowRank(n, q) || hi == LowRank(n, q) + 1
  {
    var lo := LowRank(n, q);
    if lo + 1 < n then lo + 1 else lo
  }

  /** Fractional part of the virtual index, the interpolation weight. */
  function Weight(n: nat, q: real): (g: real)
    requires n > 0 && 0.0 <= q <= 1.0
    ensures 0.0 <= g < 1.0
    ensures HighRank(n, q) == LowRank(n, q) ==> g == 0.0
  {
    VirtualIndex(n, q) - LowRank(n, q) as real
  }

  /** The `q`-quantile of an ascending, non-empty sequence. */
  function QuantileOfSorted(s: seq<real>, q: real): (r: real)
    requires Sorted(s) && |s| > 0 && 0.0 <= q <= 1.0
    ensures s[LowRank(|s|, q)] <= r <= s[HighRank(|s|, q)]
    ensures s[0] <= r <= s[|s| - 1]
  {
    var n := |s|;
    Lerp(s[LowRank(n, q)], s[HighRank(n, q)], Weight(n, q))
  }

  /** `Series.quantile(q)`: `None` stands for the NaN of an empty column. */
  function Quantile(col: seq<real>, q: real): (r: Option<real>)
    requires 0.0 <= q <= 1.0
    ensures r.Some? <==> |col| > 0
    ensures r.Some? ==> Min(col) <= r.value <= Max(col)
  {
    if |col| == 0 then None
    else
      SortEnds(col);
      Some(QuantileOfSorted(Sort(col), q))
  }

  /** A larger `q` never gives a smaller quantile. */
  lemma QuantileOfSortedMonotone(s: seq<real>, q1: real, q2: real)
    requires Sorted(s) && |s| > 0 && 0.0 <= q1 <= q2 <= 1.0
    ensures QuantileOfSorted(s, q1) <= QuantileOfSorted(s, q2)
  {
    var n := |s|;
    var lo1, lo2 := LowRank(n, q1), LowRank(n, q2);
    VirtualIndexMonotone(n, q1, q2);
    assert lo1 <= lo2;
    if lo1 < lo2 {
      assert HighRank(n, q1) == lo1 + 1 <= lo2;
    } else {
      var a, b := s[lo1], s[HighRank(n, q1)];
      assert HighRank(n, q2) == HighRank(n, q1);
      var g1, g2 := Weight(n, q1), Weight(n, q2);
      assert g1 <= g2;
      var d := b - a;
      ProductMonotone(d, g1, g2);
      calc {
        QuantileOfSorted(s, q1);
      ==
        a + d * g1;
      <=
        a + d * g2;
      ==
        QuantileOfSorted(s, q2);
      }
    }
  }

  lemma VirtualIndexMonotone(n: nat, q1: real, q2: real)
    requires n > 0 && 0.0 <= q1 <= q2 <= 1.0
    ensures VirtualIndex(n, q1) <= VirtualIndex(n, q2)
  {
    var m := (n - 1) as real;
    var h1, h2 := VirtualIndex(n, q1), VirtualIndex(n, q2);
    ProductMonotone(m, q1, q2);
    calc {
      h1;
    ==
      m * q1;
    <=
      m * q2;
    ==
      h2;
    }
  }

  lemma ProductMonotone(m: real, x: real, y: real)
    requires 0.0 <= m && x <= y
    ensures m * x <= m * y
  {
    assert m * y - m * x == m * (y - x);
  }

  /** The first quartile never exceeds the third. */
  lemma QuartilesOrdered(col: seq<real>)
    requires |col| > 0
    ensures Quantile(col, 0.25).value <= Quantile(col, 0.75).value
  {
    QuantileOfSortedMonotone(Sort(col), 0.25, 0.75);
  }

  /** The column `1, 2, 3, 4, 100` has quartiles 2 and 4. */
  lemma QuartilesExample()
    ensures Quantile([1.0, 2.0, 3.0, 4.0, 100.0], 0.25) == Some(2.0)
    ensures Quantile([1.0, 2.0, 3.0, 4.0, 100.0], 0.75) == Some(4.0)
  {
    var col := [1.0, 2.0, 3.0, 4.0, 100.0];
    QuartileRanksOfFive();
    assert QuantileOfSorted(col, 0.25) == 2.0;
    assert QuantileOfSorted(col, 0.75) == 4.0;
    assert Sorted(col);
    SortedIsSort(col);
  }

  /** The column `1, 2, 3, 4, 100` ranges from 1 to 100. */
  lemma ExtremesExample()
    ensures Min([1.0, 2.0, 3.0, 4.0, 100.0]) == 1.0
    ensures Max([1.0, 2.0, 3.0, 4.0, 100.0]) == 100.0
  {
  }

  /** Among five values the quartiles fall exactly on ranks 1 and 3. */
  lemma QuartileRanksOfFive()
    ensures LowRank(5, 0.25) == 1 && Weight(5, 0.25) == 0.0
    ensures LowRank(5, 0.75) == 3 && Weight(5, 0.75) == 0.0
  {
    assert VirtualIndex(5, 0.25) == 1.0;
    assert VirtualIndex(5, 0.75) == 3.0;
  }

  /** Sorting an ascending sequence leaves it as it is. */
  lemma {:induction false} SortedIsSort(s: seq<real>)
    requires Sorted(s)
    ensures Sort(s) == s
  {
    if s != [] {
      SortedIsSort(s[1..]);
      assert Sort(s[1..]) == s[1..];
      assert s == [s[0]] + s[1..];
    }
  }
}

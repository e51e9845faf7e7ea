/** The numeric branch of the page: Tukey fences from the quartiles
    (Home.py:47-51), the default scale bounds offered to the user
    (Home.py:53-54) and the inclusive row filter (Home.py:56). */
module Scale {
  import opened Wrappers
  import opened Seqs
  import opened Stats
  import opened Table

  /** The factor 1.5 applied to the interquartile range. */
  const Whisker: real := 1.5

  /** `Q1 - 1.5 * IQR`: below the first quartile exactly when the quartiles
      are ordered, and equal to it exactly when the IQR is zero. */
  function LowerFence(q1: real, q3: real): (lower: real)
    ensures lower <= q1 <==> q1 <= q3
    ensures lower == q1 <==> q1 == q3
  {
    q1 - Whisker * (q3 - q1)
  }

  /** `Q3 + 1.5 * IQR`: above the third quartile exactly when the quartiles
      are ordered, and equal to it exactly when the IQR is zero. */
  function UpperFence(q1: real, q3: real): (upper: real)
    ensures q3 <= upper <==> q1 <= q3
    ensures upper == q3 <==> q1 == q3
  {
    q3 + Whisker * (q3 - q1)
  }

  /** `max(column.min(), lower_bound)`. */
  function DefaultMin(colMin: real, lower: real): (v: real)
    ensures colMin <= v && lower <= v
    ensures v == colMin || v == lower
  {
    if lower > colMin then lower else colMin
  }

  /** `min(column.max(), upper_bound)`. */
  function DefaultMax(colMax: real, upper: real): (v: real)
    ensures v <= colMax && v <= upper
    ensures v == colMax || v == upper
  {
    if upper < colMax then upper else colMax
  }

  /** Whatever the column, quartiles inside [colMin, colMax] give a default
      minimum at most the default maximum. */
  lemma DefaultBoundsOrdered(colMin: real, colMax: real, q1: real, q3: real)
    requires colMin <= q1 <= q3 <= colMax
    ensures DefaultMin(colMin, LowerFence(q1, q3)) <= q1
    ensures q3 <= DefaultMax(colMax, UpperFence(q1, q3))
    ensures DefaultMin(colMin, LowerFence(q1, q3)) <= DefaultMax(colMax, UpperFence(q1, q3))
  {
  }

  /** What the numeric branch computes before asking the user for bounds. */
  datatype ScaleDefaults = ScaleDefaults(
    q1: real, q3: real, lower: real, upper: real, minVal: real, maxVal: real)

  /** The defaults of the two scale inputs; `None` for an empty column,
      where pandas would give NaN. */
  function DefaultScale(col: seq<real>): (d: Option<ScaleDefaults>)
    ensures d.Some? <==> |col| > 0
    ensures d.Some? ==>
      && Some(d.value.q1) == Quantile(col, 0.25)
      && Some(d.value.q3) == Quantile(col, 0.75)
      && d.value.lower == LowerFence(d.value.q1, d.value.q3)
      && d.value.upper == UpperFence(d.value.q1, d.value.q3)
      && d.value.minVal == DefaultMin(Min(col), d.value.lower)
      && d.value.maxVal == DefaultMax(Max(col), d.value.upper)
      && d.value.lower <= d.value.q1 <= d.value.q3 <= d.value.upper
      && d.value.lower <= d.value.minVal && d.value.maxVal <= d.value.upper
      && Min(col) <= d.value.minVal <= d.value.q1
      && d.value.q3 <= d.value.maxVal <= Max(col)
    ensures d.Some? && d.value.q1 == d.value.q3 ==>
      d.value.lower == d.value.upper == d.value.minVal == d.value.maxVal == d.value.q1
  {
    if |col| == 0 then None
    else
      var q1 := Quantile(col, 0.25).value;
      var q3 := Quantile(col, 0.75).value;
      QuartilesOrdered(col);
      var lower, upper := LowerFence(q1, q3), UpperFence(q1, q3);
      Some(ScaleDefaults(q1, q3, lower, upper, DefaultMin(Min(col), lower), DefaultMax(Max(col), upper)))
  }

  /** `(v >= min_val) & (v <= max_val)`: both ends inclusive. */
  predicate InScale(v: real, minVal: real, maxVal: real) {
    minVal <= v && v <= maxVal
  }

  /** `df[(df[m] >= min_val) & (df[m] <= max_val)]`. */
  function FilterRows(rows: seq<Row<real>>, minVal: real, maxVal: real): (kept: seq<Row<real>>)
    ensures forall r :: r in kept <==> r in rows && InScale(r.value, minVal, maxVal)
    ensures |kept| <= |rows|
  {
    if rows == [] then []
    else
      (if InScale(rows[0].value, minVal, maxVal) then [rows[0]] else [])
      + FilterRows(rows[1..], minVal, maxVal)
  }

  /** The kept rows are the table's rows in their original order. */
  lemma {:induction false} FilterRowsIsSubsequence(rows: seq<Row<real>>, minVal: real, maxVal: real)
    ensures IsSubsequence(FilterRows(rows, minVal, maxVal), rows)
  {
    if rows != [] {
      var rest := FilterRows(rows[1..], minVal, maxVal);
      FilterRowsIsSubsequence(rows[1..], minVal, maxVal);
      assert rows == [rows[0]] + rows[1..];
      if InScale(rows[0].value, minVal, maxVal) {
        assert FilterRows(rows, minVal, maxVal) == [rows[0]] + rest;
        SubsequenceCons(rows[0], rest, rows[1..]);
      } else {
        assert FilterRows(rows, minVal, maxVal) == rest;
        SubsequenceSkip(rows[0], rest, rows[1..]);
      }
    }
  }

  /** The mask is decided row by row, so filtering a concatenation is the
      concatenation of the filtered parts. */
  lemma {:induction false} FilterRowsOfConcat(a: seq<Row<real>>, b: seq<Row<real>>, minVal: real, maxVal: real)
    ensures FilterRows(a + b, minVal, maxVal) == FilterRows(a, minVal, maxVal) + FilterRows(b, minVal, maxVal)
  {
    if a != [] {
      assert (a + b)[0] == a[0] && (a + b)[1..] == a[1..] + b;
      FilterRowsOfConcat(a[1..], b, minVal, maxVal);
    } else {
      assert a + b == b;
    }
  }

  /** Filtering twice is filtering once by the tighter bounds. */
  lemma {:induction false} FilterRowsTwice(rows: seq<Row<real>>, min1: real, max1: real, min2: real, max2: real)
    ensures FilterRows(FilterRows(rows, min1, max1), min2, max2)
         == FilterRows(rows, if min1 < min2 then min2 else min1, if max1 < max2 then max1 else max2)
  {
    if rows != [] {
      var lo, hi := if min1 < min2 then min2 else min1, if max1 < max2 then max1 else max2;
      FilterRowsTwice(rows[1..], min1, max1, min2, max2);
      var rest := FilterRows(rows[1..], min1, max1);
      var tight := FilterRows(rows, lo, hi);
      if InScale(rows[0].value, min1, max1) {
        var once := [rows[0]] + rest;
        assert once[0] == rows[0] && once[1..] == rest;
        assert FilterRows(once, min2, max2)
            == (if InScale(rows[0].value, min2, max2) then [rows[0]] else []) + FilterRows(rest, min2, max2);
      } else {
        assert FilterRows(rows, min1, max1) == rest;
        assert !InScale(rows[0].value, lo, hi);
        assert tight == FilterRows(rows[1..], lo, hi);
      }
    }
  }

  /** Filtering again with the same bounds changes nothing. */
  lemma FilterRowsIdempotent(rows: seq<Row<real>>, minVal: real, maxVal: real)
    ensures FilterRows(FilterRows(rows, minVal, maxVal), minVal, maxVal) == FilterRows(rows, minVal, maxVal)
  {
    FilterRowsTwice(rows, minVal, maxVal, minVal, maxVal);
  }

  /** Bounds that cross keep no row. */
  lemma FilterRowsCrossedBounds(rows: seq<Row<real>>, minVal: real, maxVal: real)
    requires maxVal < minVal
    ensures FilterRows(rows, minVal, maxVal) == []
  {
  }

  /** Some element of an ascending, non-empty column lies between the two
      fences of its own quartiles. */
  lemma ValueWithinFences(s: seq<real>) returns (k: nat)
    requires Sorted(s) && |s| > 0
    ensures k < |s|
    ensures LowerFence(QuantileOfSorted(s, 0.25), QuantileOfSorted(s, 0.75)) <= s[k]
    ensures s[k] <= UpperFence(QuantileOfSorted(s, 0.25), QuantileOfSorted(s, 0.75))
  {
    var n := |s|;
    var q1, q3 := QuantileOfSorted(s, 0.25), QuantileOfSorted(s, 0.75);
    QuantileOfSortedMonotone(s, 0.25, 0.75);
    var lo1, lo3 := LowRank(n, 0.25), LowRank(n, 0.75);
    var h1, h3 := VirtualIndex(n, 0.25), VirtualIndex(n, 0.75);
    assert h3 == 3.0 * h1;
    VirtualIndexMonotone(n, 0.25, 0.75);
    assert lo1 <= lo3;
    if lo1 < lo3 {
      // the rank just above Q1 is at most the rank below Q3
      k := lo1 + 1;
      assert HighRank(n, 0.25) == k;
      assert q1 <= s[k] <= s[lo3] <= q3;
    } else {
      // both quartiles interpolate between the same two ranks
      k := lo1;
      var a, b := s[lo1], s[HighRank(n, 0.25)];
      assert HighRank(n, 0.75) == HighRank(n, 0.25);
      var d := b - a;
      var g1, g3 := Weight(n, 0.25), Weight(n, 0.75);
      assert g3 == g1 + 2.0 * h1;
      assert 3.0 * g1 <= g3;
      ProductMonotone(d, 0.0, g1);
      ProductMonotone(d, 3.0 * g1, g3);
      assert q1 == a + d * g1;
      assert q3 == a + d * g3;
      assert d * (3.0 * g1) == 3.0 * (d * g1);
      calc {
        LowerFence(q1, q3);
      ==
        a + d * g1 - Whisker * (d * g3 - d * g1);
      <=
        a;
      }
    }
  }

  /** With the default bounds, a non-empty numeric column always keeps at
      least one row: some value lies between both fences and between the
      column's minimum and maximum. */
  lemma DefaultScaleKeepsARow(rows: seq<Row<real>>)
    requires |rows| > 0
    ensures DefaultScale(Values(rows)).Some?
    ensures FilterRows(rows, DefaultScale(Values(rows)).value.minVal, DefaultScale(Values(rows)).value.maxVal) != []
  {
    var col := Values(rows);
    var d := DefaultScale(col).value;
    var s := Sort(col);
    SortEnds(col);
    var k := ValueWithinFences(s);
    assert s[0] <= s[k] <= s[|s| - 1];
    assert InScale(s[k], d.minVal, d.maxVal);
    assert s[k] in multiset(col);
    var i :| 0 <= i < |col| && col[i] == s[k];
    assert rows[i] in FilterRows(rows, d.minVal, d.maxVal);
  }

  /** The column `1, 2, 3, 4, 100` gets the fences -1 and 7 and the
      defaults 1 and 7. */
  lemma DefaultScaleExample()
    ensures DefaultScale([1.0, 2.0, 3.0, 4.0, 100.0]) == Some(ScaleDefaults(2.0, 4.0, -1.0, 7.0, 1.0, 7.0))
  {
    var col := [1.0, 2.0, 3.0, 4.0, 100.0];
    QuartilesExample();
    ExtremesExample();
    assert LowerFence(2.0, 4.0) == -1.0 && UpperFence(2.0, 4.0) == 7.0;
  }

  /** Filtering that column by [1, 7] drops the row holding 100 only. */
  lemma FilterRowsExample(rows: seq<Row<real>>)
    requires Values(rows) == [1.0, 2.0, 3.0, 4.0, 100.0]
    ensures FilterRows(rows, 1.0, 7.0) == rows[..4]
  {
    assert rows[..4] + rows[4..] == rows;
    FilterRowsOfConcat(rows[..4], rows[4..], 1.0, 7.0);
    assert FilterRows(rows[4..], 1.0, 7.0) == [] by {
      assert rows[4..] == [rows[4]] && rows[4].value == 100.0;
      assert [rows[4]][1..] == [];
    }
    FilterRowsKeepsAll(rows[..4], 1.0, 7.0);
  }

  /** When every row is in scale, nothing is dropped. */
  lemma {:induction false} FilterRowsKeepsAll(rows: seq<Row<real>>, minVal: real, maxVal: real)
    requires forall r :: r in rows ==> InScale(r.value, minVal, maxVal)
    ensures FilterRows(rows, minVal, maxVal) == rows
  {
    if rows != [] {
      FilterRowsKeepsAll(rows[1..], minVal, maxVal);
      assert rows == [rows[0]] + rows[1..];
    }
  }
}

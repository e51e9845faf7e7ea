/** The categorical branch of the page (Home.py:62-65): the codes pandas
    gives the labels, the colour map built from them and the legend order. */
module Categories {

  /** Python's `<` on `str`: lexicographic by code point, a proper prefix
      first. */
  predicate StrLess(a: string, b: string) {
    if a == [] then b != []
    else if b == [] then false
    else if a[0] != b[0] then a[0] < b[0]
    else StrLess(a[1..], b[1..])
  }

  lemma {:induction false} StrLessIrreflexive(a: string)
    ensures !StrLess(a, a)
  {
    if a != [] {
      StrLessIrreflexive(a[1..]);
    }
  }

  lemma {:induction false} StrLessTransitive(a: string, b: string, c: string)
    requires StrLess(a, b) && StrLess(b, c)
    ensures StrLess(a, c)
  {
    if a != [] && a[0] == b[0] && b[0] == c[0] {
      StrLessTransitive(a[1..], b[1..], c[1..]);
    }
  }

  lemma {:induction false} StrLessTotal(a: string, b: string)
    ensures a == b || StrLess(a, b) || StrLess(b, a)
  {
    if a != [] && b != [] && a[0] == b[0] {
      StrLessTotal(a[1..], b[1..]);
      if a[1..] == b[1..] {
        assert a == [a[0]] + a[1..] && b == [b[0]] + b[1..];
      }
    }
  }

  /** Each label strictly before the next: sorted and free of repeats. */
  predicate StrictlyAscending(s: seq<string>) {
    forall i, j :: 0 <= i < j < |s| ==> StrLess(s[i], s[j])
  }

  /** A strictly ascending sequence holds no label twice. */
  lemma StrictlyAscendingDistinct(s: seq<string>)
    requires StrictlyAscending(s)
    ensures forall i, j :: 0 <= i < j < |s| ==> s[i] != s[j]
  {
    forall i, j | 0 <= i < j < |s|
      ensures s[i] != s[j]
    {
      StrLessIrreflexive(s[i]);
    }
  }

  /** A label below the head of a strictly ascending sequence can go first. */
  lemma PrependBelowHead(x: string, s: seq<string>)
    requires StrictlyAscending(s) && s != [] && StrLess(x, s[0])
    ensures StrictlyAscending([x] + s)
  {
    forall j | 0 <= j < |s|
      ensures StrLess(x, s[j])
    {
      if j > 0 {
        StrLessTransitive(x, s[0], s[j]);
      }
    }
  }

  /** Inserts a label into a strictly ascending sequence unless present. */
  function InsertUnique(x: string, s: seq<string>): (r: seq<string>)
    requires StrictlyAscending(s)
    ensures StrictlyAscending(r)
    ensures forall y :: y in r <==> y == x || y in s
  {
    if s == [] then [x]
    else if x == s[0] then s
    else if StrLess(x, s[0]) then
      PrependBelowHead(x, s);
      [x] + s
    else
      var rest := InsertUnique(x, s[1..]);
      StrLessTotal(x, s[0]);
      assert forall y :: y in rest ==> StrLess(s[0], y) by {
        forall y | y in rest
          ensures StrLess(s[0], y)
        {
          if y != x {
            var j :| 1 <= j < |s| && s[j] == y;
          }
        }
      }
      assert s == [s[0]] + s[1..];
      [s[0]] + rest
  }

  /** `sorted(df[m].unique())`: the legend order of the categorical chart. */
  function LegendOrder(labels: seq<string>): (legend: seq<string>)
    ensures StrictlyAscending(legend)
    ensures forall l :: l in legend <==> l in labels
  {
    if labels == [] then []
    else
      assert labels == [labels[0]] + labels[1..];
      InsertUnique(labels[0], LegendOrder(labels[1..]))
  }

  /** Two strictly ascending sequences with the same labels are equal, so
      the legend does not depend on the order `unique()` returns. */
  lemma {:induction false} StrictlyAscendingUnique(a: seq<string>, b: seq<string>)
    requires StrictlyAscending(a) && StrictlyAscending(b)
    requires forall l :: l in a <==> l in b
    ensures a == b
  {
    NoLabelMeansEmpty(a);
    NoLabelMeansEmpty(b);
    if a != [] && b != [] {
      // each head is the least label of the other sequence, so they agree
      assert a[0] == b[0] by {
        assert a[0] in a && b[0] in b;
        var i :| 0 <= i < |b| && b[i] == a[0];
        var j :| 0 <= j < |a| && a[j] == b[0];
        if i > 0 && j > 0 {
          StrLessTransitive(a[0], b[0], a[0]);
          StrLessIrreflexive(a[0]);
          assert false;
        }
      }
      StrictlyAscendingDistinct(a);
      StrictlyAscendingDistinct(b);
      forall l
        ensures l in a[1..] <==> l in b[1..]
      {
        if l in a[1..] {
          var i :| 0 <= i < |a| - 1 && a[1..][i] == l;
          assert a[i + 1] == l && l != a[0];
          assert l in a && l in b;
          var k :| 0 <= k < |b| && b[k] == l;
          assert k != 0 && b[1..][k - 1] == l;
        }
        if l in b[1..] {
          var i :| 0 <= i < |b| - 1 && b[1..][i] == l;
          assert b[i + 1] == l && l != b[0];
          assert l in b && l in a;
          var k :| 0 <= k < |a| && a[k] == l;
          assert k != 0 && a[1..][k - 1] == l;
        }
      }
      StrictlyAscendingUnique(a[1..], b[1..]);
      assert a == [a[0]] + a[1..] && b == [b[0]] + b[1..];
    }
  }

  lemma NoLabelMeansEmpty(s: seq<string>)
    ensures s == [] <==> forall l :: l !in s
  {
    if s != [] {
      assert s[0] in s;
    }
  }

  /** Position of the first occurrence of `x` in a sequence that holds it. */
  function IndexOf<T(==)>(s: seq<T>, x: T): (i: nat)
    requires x in s
    ensures i < |s| && s[i] == x
  {
    if s[0] == x then 0 else 1 + IndexOf(s[1..], x)
  }

  /** `pd.Categorical(values).codes`: each label's position among the
      sorted distinct labels (the categories pandas infers). */
  function Codes(labels: seq<string>): (codes: seq<int>)
    ensures |codes| == |labels|
    ensures forall i :: 0 <= i < |labels| ==>
      0 <= codes[i] < |LegendOrder(labels)| && LegendOrder(labels)[codes[i]] == labels[i]
  {
    var legend := LegendOrder(labels);
    seq(|labels|, i requires 0 <= i < |labels| => IndexOf(legend, labels[i]))
  }

  /** Two rows get the same code exactly when they carry the same label, and
      every category has a row with its code. */
  lemma CodesIdentifyLabels(labels: seq<string>)
    ensures forall i, j :: 0 <= i < |labels| && 0 <= j < |labels| ==>
      (Codes(labels)[i] == Codes(labels)[j] <==> labels[i] == labels[j])
    ensures forall c :: 0 <= c < |LegendOrder(labels)| ==> c in Codes(labels)
  {
    var legend, codes := LegendOrder(labels), Codes(labels);
    StrictlyAscendingDistinct(legend);
    forall c | 0 <= c < |legend|
      ensures c in codes
    {
      assert legend[c] in legend;
      var i :| 0 <= i < |labels| && labels[i] == legend[c];
      assert legend[codes[i]] == legend[c];
    }
  }

  /** No code occurs twice, as in the iteration over a Python `set`. */
  predicate Distinct(order: seq<int>) {
    forall i, j :: 0 <= i < j < |order| ==> order[i] != order[j]
  }

  /** `order` lists each distinct code once: an iteration order of
      `set(categories)`, which Python leaves unspecified. */
  predicate EnumeratesCodes(order: seq<int>, codes: seq<int>) {
    && Distinct(order)
    && (forall c :: c in order ==> c in codes)
    && (forall c :: c in codes ==> c in order)
  }

  /** A duplicate-free sequence has as many elements as its set. */
  lemma {:induction false} DistinctCard(order: seq<int>)
    requires Distinct(order)
    ensures |set c | c in order| == |order|
  {
    if order != [] {
      DistinctCard(order[1..]);
      assert (set c | c in order) == (set c | c in order[1..]) + {order[0]};
      assert order[0] !in (set c | c in order[1..]);
    }
  }

  /** The codes 0 to k - 1: k values. */
  function CodeRange(k: nat): (r: set<int>)
    ensures forall c :: c in r <==> 0 <= c < k
    ensures |r| == k
  {
    if k == 0 then {} else CodeRange(k - 1) + {k - 1}
  }

  /** Any enumeration of the distinct codes has one entry per category. */
  lemma EnumerationLength(labels: seq<string>, order: seq<int>)
    requires EnumeratesCodes(order, Codes(labels))
    ensures |order| == |LegendOrder(labels)|
  {
    var k := |LegendOrder(labels)|;
    CodesIdentifyLabels(labels);
    assert (set c | c in order) == CodeRange(k);
    DistinctCard(order);
  }

  /** A key of the colour dictionary as Python sees it: the comprehension
      keys it by integer code, while the chart's colour column holds labels. */
  datatype Key = IntKey(code: int) | StrKey(text: string)

  /** `{k: cmap[i % len(cmap)] for i, k in enumerate(set(categories))}`, as
      written: keyed by code, colours taken cyclically from the palette. */
  function CodeColourMap(order: seq<int>, palette: seq<string>): (m: map<Key, string>)
    requires |palette| > 0 && Distinct(order)
    ensures forall i :: 0 <= i < |order| ==> IntKey(order[i]) in m && m[IntKey(order[i])] == palette[i % |palette|]
    ensures forall k :: k in m ==> k.IntKey? && k.code in order
  {
    map i | 0 <= i < |order| :: IntKey(order[i]) := palette[i % |palette|]
  }

  /** The map as written never has a label as key, so it colours none of the
      labels of the chart's colour column. */
  lemma CodeColourMapMissesLabels(labels: seq<string>, order: seq<int>, palette: seq<string>)
    requires |palette| > 0 && EnumeratesCodes(order, Codes(labels))
    ensures forall l :: l in labels ==> StrKey(l) !in CodeColourMap(order, palette)
  {
  }

  /** The labels `a, b, a, c` have codes `0, 1, 0, 2`; with the codes listed
      in ascending order the map as written has the keys 0, 1, 2 and misses
      the label `a`. */
  lemma CodeColourMapExample(palette: seq<string>)
    requires |palette| > 0
    ensures LegendOrder(["a", "b", "a", "c"]) == ["a", "b", "c"]
    ensures Codes(["a", "b", "a", "c"]) == [0, 1, 0, 2]
    ensures IntKey(0) in CodeColourMap([0, 1, 2], palette)
    ensures StrKey("a") !in CodeColourMap([0, 1, 2], palette)
  {
    var labels := ["a", "b", "a", "c"];
    assert labels[1..] == ["b", "a", "c"] && labels[2..] == ["a", "c"] && labels[3..] == ["c"];
    assert LegendOrder(["c"]) == ["c"];
    assert LegendOrder(["a", "c"]) == ["a", "c"];
    assert LegendOrder(["b", "a", "c"]) == ["a", "b", "c"];
    assert LegendOrder(labels) == ["a", "b", "c"];
    var legend := ["a", "b", "c"];
    assert IndexOf(legend, "a") == 0 && IndexOf(legend, "b") == 1 && IndexOf(legend, "c") == 2;
    assert 0 == [0, 1, 2][0];
  }

  /** Code of a label that occurs in the column. */
  function Code(labels: seq<string>, l: string): (c: nat)
    requires l in labels
    ensures c < |LegendOrder(labels)| && LegendOrder(labels)[c] == l
  {
    IndexOf(LegendOrder(labels), l)
  }

  /** The colour map as intended: keyed by label, each label coloured as the
      comprehension colours its code. */
  function LabelColours(labels: seq<string>, order: seq<int>, palette: seq<string>): (m: map<string, string>)
    requires |palette| > 0 && EnumeratesCodes(order, Codes(labels))
    ensures forall l :: l in m <==> l in labels
    ensures forall l :: l in m ==> m[l] == palette[IndexOf(order, Code(labels, l)) % |palette|]
    ensures forall l :: l in m ==> m[l] in palette
    ensures forall l :: l in m ==>
      IntKey(Code(labels, l)) in CodeColourMap(order, palette) && m[l] == CodeColourMap(order, palette)[IntKey(Code(labels, l))]
  {
    CodesInOrder(labels, order);
    map l | l in labels :: palette[IndexOf(order, Code(labels, l)) % |palette|]
  }

  /** The code of every label is listed in the enumeration order. */
  lemma CodesInOrder(labels: seq<string>, order: seq<int>)
    requires EnumeratesCodes(order, Codes(labels))
    ensures forall l :: l in labels ==> Code(labels, l) in order
  {
    forall l | l in labels
      ensures Code(labels, l) in order
    {
      var i :| 0 <= i < |labels| && labels[i] == l;
      StrictlyAscendingDistinct(LegendOrder(labels));
      assert Codes(labels)[i] == Code(labels, l);
    }
  }

  /** With no more categories than palette entries, and a palette of
      distinct colours, distinct labels get distinct colours. */
  lemma LabelColoursDistinct(labels: seq<string>, order: seq<int>, palette: seq<string>, l1: string, l2: string)
    requires |palette| > 0 && EnumeratesCodes(order, Codes(labels))
    requires |LegendOrder(labels)| <= |palette|
    requires forall i, j :: 0 <= i < j < |palette| ==> palette[i] != palette[j]
    requires l1 in labels && l2 in labels && l1 != l2
    ensures LabelColours(labels, order, palette)[l1] != LabelColours(labels, order, palette)[l2]
  {
    CodesInOrder(labels, order);
    assert |order| <= |palette| by {
      EnumerationLength(labels, order);
    }
    var c1, c2 := Code(labels, l1), Code(labels, l2);
    var p1, p2 := IndexOf(order, c1), IndexOf(order, c2);
    assert c1 != c2;
    assert p1 != p2;
    var m := LabelColours(labels, order, palette);
    assert m[l1] == palette[p1] by {
      assert m[l1] == palette[p1 % |palette|];
      ModOfSmaller(p1, |palette|);
    }
    assert m[l2] == palette[p2] by {
      assert m[l2] == palette[p2 % |palette|];
      ModOfSmaller(p2, |palette|);
    }
    if p1 < p2 {
      assert palette[p1] != palette[p2];
    } else {
      assert palette[p2] != palette[p1];
    }
  }

  lemma ModOfSmaller(p: nat, n: nat)
    requires p < n
    ensures p % n == p
  {
  }
}

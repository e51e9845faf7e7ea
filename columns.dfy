/** Which header names the page offers as markers (Home.py:18-28): every
    column whose name starts with none of eight fixed prefixes, in header
    order. */
module Columns {
  import opened Seqs

  /** Python's `str.startswith`, character by character. */
  predicate StartsWith(s: string, prefix: string) {
    prefix == [] || (s != [] && s[0] == prefix[0] && StartsWith(s[1..], prefix[1..]))
  }

  /** `StartsWith` holds exactly when the prefix is the first characters of `s`. */
  lemma {:induction false} StartsWithIffSlice(s: string, prefix: string)
    ensures StartsWith(s, prefix) <==> |prefix| <= |s| && s[..|prefix|] == prefix
  {
    if prefix != [] && s != [] {
      StartsWithIffSlice(s[1..], prefix[1..]);
      if |prefix| <= |s| && s[..|prefix|] == prefix {
        assert s[1..][..|prefix| - 1] == s[..|prefix|][1..];
      }
      if StartsWith(s, prefix) {
        assert s[..|prefix|] == [s[0]] + s[1..][..|prefix| - 1];
        assert prefix == [prefix[0]] + prefix[1..];
      }
    }
  }

  /** The prefixes the comprehension tests, in the order it tests them. */
  const ExcludedPrefixes: seq<string> :=
    ["Study level", "Distance", "Area", "LayerData", "Name", "X", "Y", "Image"]

  /** The condition of the comprehension, one conjunct per prefix. */
  predicate Selectable(name: string) {
    && !StartsWith(name, "Study level")
    && !StartsWith(name, "Distance")
    && !StartsWith(name, "Area")
    && !StartsWith(name, "LayerData")
    && !StartsWith(name, "Name")
    && !StartsWith(name, "X")
    && !StartsWith(name, "Y")
    && !StartsWith(name, "Image")
  }

  /** The list comprehension over `df.columns`. */
  function SelectableColumns(headers: seq<string>): (choices: seq<string>)
    ensures forall c :: c in choices <==> c in headers && Selectable(c)
    ensures |choices| <= |headers|
  {
    if headers == [] then []
    else (if Selectable(headers[0]) then [headers[0]] else []) + SelectableColumns(headers[1..])
  }

  /** A name is offered exactly when no excluded prefix starts it. */
  lemma SelectableIffNoExcludedPrefix(name: string)
    ensures Selectable(name) <==> forall p :: p in ExcludedPrefixes ==> !StartsWith(name, p)
  {
    var e := ExcludedPrefixes;
    assert e[0] == "Study level" && e[1] == "Distance" && e[2] == "Area" && e[3] == "LayerData";
    assert e[4] == "Name" && e[5] == "X" && e[6] == "Y" && e[7] == "Image";
    if Selectable(name) {
      forall p | p in e
        ensures !StartsWith(name, p)
      {
        var i :| 0 <= i < |e| && e[i] == p;
      }
    } else {
      assert e[0] in e && e[1] in e && e[2] in e && e[3] in e;
      assert e[4] in e && e[5] in e && e[6] in e && e[7] in e;
    }
  }

  /** Exclusion is by prefix, not by equality: any name beginning with `X`
      or `Y` (the coordinate columns, but also e.g. `Xpos`) is never offered,
      and neither is any name that extends an excluded prefix. */
  lemma ExclusionIsByPrefix(name: string, suffix: string)
    requires name in ExcludedPrefixes
    ensures !Selectable(name + suffix)
    ensures SelectableColumns([name + suffix]) == []
  {
    StartsWithIffSlice(name + suffix, name);
    assert (name + suffix)[..|name|] == name;
  }

  /** The offered names appear in the header list in the same relative order. */
  lemma {:induction false} SelectableColumnsIsSubsequence(headers: seq<string>)
    ensures IsSubsequence(SelectableColumns(headers), headers)
  {
    if headers != [] {
      var rest := SelectableColumns(headers[1..]);
      SelectableColumnsIsSubsequence(headers[1..]);
      assert headers == [headers[0]] + headers[1..];
      if Selectable(headers[0]) {
        assert SelectableColumns(headers) == [headers[0]] + rest;
        SubsequenceCons(headers[0], rest, headers[1..]);
      } else {
        assert SelectableColumns(headers) == rest;
        SubsequenceSkip(headers[0], rest, headers[1..]);
      }
    }
  }

  /** Selection works header by header: selecting from a concatenation is
      the concatenation of the selections, so no reordering ever happens. */
  lemma {:induction false} SelectableColumnsOfConcat(a: seq<string>, b: seq<string>)
    ensures SelectableColumns(a + b) == SelectableColumns(a) + SelectableColumns(b)
  {
    if a != [] {
      assert (a + b)[0] == a[0] && (a + b)[1..] == a[1..] + b;
      SelectableColumnsOfConcat(a[1..], b);
    } else {
      assert a + b == b;
    }
  }

  /** Deriving the choices from the choices changes nothing. */
  lemma {:induction false} SelectableColumnsIdempotent(headers: seq<string>)
    ensures SelectableColumns(SelectableColumns(headers)) == SelectableColumns(headers)
  {
    if headers != [] {
      SelectableColumnsIdempotent(headers[1..]);
      var rest := SelectableColumns(headers[1..]);
      if Selectable(headers[0]) {
        var chosen := [headers[0]] + rest;
        assert chosen[0] == headers[0] && chosen[1..] == rest;
        assert SelectableColumns(chosen) == [headers[0]] + SelectableColumns(rest);
      } else {
        assert SelectableColumns(headers) == rest;
      }
    }
  }

  /** Headers `A`, `X`, `B`, `Name1` give the choices `A`, `B`. */
  lemma SelectableColumnsExample()
    ensures SelectableColumns(["A", "X", "B", "Name1"]) == ["A", "B"]
  {
    var t1: seq<string> := ["X", "B", "Name1"];
    var t2: seq<string> := ["B", "Name1"];
    var t3: seq<string> := ["Name1"];
    assert Selectable("A") && !Selectable("X") && Selectable("B") && !Selectable("Name1");
    assert SelectableColumns(t3) == [] by { assert t3[1..] == []; }
    assert SelectableColumns(t2) == ["B"] by { assert t2[1..] == t3; }
    assert SelectableColumns(t1) == ["B"] by { assert t1[1..] == t2; }
    assert (["A"] + t1)[1..] == t1;
    assert ["A"] + t1 == ["A", "X", "B", "Name1"];
  }

  /** `Xpos` and `Yield` are excluded because of their first letter; the
      check is case-sensitive, so `x` stays selectable. */
  lemma SelectableColumnsPrefixExample()
    ensures SelectableColumns(["Xpos", "x", "Yield", "Image 2"]) == ["x"]
  {
    var t1: seq<string> := ["x", "Yield", "Image 2"];
    var t2: seq<string> := ["Yield", "Image 2"];
    var t3: seq<string> := ["Image 2"];
    assert !Selectable("Xpos") && Selectable("x") && !Selectable("Yield") && !Selectable("Image 2");
    assert SelectableColumns(t3) == [] by { assert t3[1..] == []; }
    assert SelectableColumns(t2) == [] by { assert t2[1..] == t3; }
    assert SelectableColumns(t1) == ["x"] by { assert t1[1..] == t2; }
    assert (["Xpos"] + t1)[1..] == t1;
    assert ["Xpos"] + t1 == ["Xpos", "x", "Yield", "Image 2"];
  }
}

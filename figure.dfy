/** What the page hands to Plotly for one interaction (Home.py:41-73): the
    rows drawn, their colouring, the fixed axis ranges and the pixel size.
    Widgets, Plotly itself and the rendering are not modelled; the user's
    choices arrive as parameters. */
module Figure {
  import opened Wrappers
  import opened Seqs
  import opened Stats
  import opened Table
  import opened Scale
  import opened Categories

  /** The `[min, max]` range of one axis. */
  datatype Range = Range(lo: real, hi: real)

  /** `[df[c].min(), df[c].max()]` of a coordinate column; `None` for an
      empty table, where pandas gives NaN. */
  function AxisRange(vals: seq<real>): (r: Option<Range>)
    ensures r.Some? <==> |vals| > 0
    ensures r.Some? ==> r.value.lo in vals && r.value.hi in vals
    ensures r.Some? ==> forall v :: v in vals ==> r.value.lo <= v <= r.value.hi
  {
    if |vals| == 0 then None else Some(Range(Min(vals), Max(vals)))
  }

  /** `fig_width * 100` (and the same for the height): a whole number of
      hundreds of pixels from which the chosen size is recovered. */
  function Pixels(size: int): (px: int)
    ensures px % 100 == 0 && px / 100 == size
  {
    size * 100
  }

  /** The sidebar's figure width and height (in hundreds of pixels) and dot
      size. */
  datatype Config = Config(width: int, height: int, dotSize: real)

  /** The scatter traces: a continuous colour scale over the numeric value,
      or a discrete colouring by label with a legend order and the
      dictionary passed as `color_discrete_map`. */
  datatype Scatter =
    | Continuous(numPoints: seq<Row<real>>)
    | Discrete(catPoints: seq<Row<string>>, legend: seq<string>, colourMap: map<Key, string>)

  datatype Chart = Chart(
    scatter: Scatter,
    xRange: Option<Range>,
    yRange: Option<Range>,
    widthPx: int,
    heightPx: int,
    sizeMax: real,
    legendTitle: Option<string>)

  /** The X and Y columns of the whole table, whichever branch runs. */
  function TableXs(marker: Marker): seq<real> {
    match marker
    case Numeric(rows) => Xs(rows)
    case Categorical(rows) => Xs(rows)
  }

  function TableYs(marker: Marker): seq<real> {
    match marker
    case Numeric(rows) => Ys(rows)
    case Categorical(rows) => Ys(rows)
  }

  /** The X coordinates of the points drawn. */
  function DrawnXs(s: Scatter): seq<real> {
    match s
    case Continuous(points) => Xs(points)
    case Discrete(points, _, _) => Xs(points)
  }

  function DrawnYs(s: Scatter): seq<real> {
    match s
    case Continuous(points) => Ys(points)
    case Discrete(points, _, _) => Ys(points)
  }

  /** One run of the page after the marker is chosen: `minVal` and `maxVal`
      are the two scale inputs (used by the numeric branch only), `order`
      the iteration order of the set of codes (used by the categorical
      branch only). */
  function Render(marker: Marker, minVal: real, maxVal: real, cfg: Config,
                  palette: seq<string>, order: seq<int>): (chart: Chart)
    requires |palette| > 0
    requires marker.Categorical? ==> EnumeratesCodes(order, Codes(Values(marker.catRows)))
    ensures chart.widthPx == Pixels(cfg.width) && chart.heightPx == Pixels(cfg.height)
    ensures chart.sizeMax == cfg.dotSize
    ensures chart.xRange.Some? <==> |TableXs(marker)| > 0
    ensures chart.yRange.Some? <==> |TableYs(marker)| > 0
    ensures marker.Numeric? ==>
      && chart.scatter.Continuous?
      && chart.scatter.numPoints == FilterRows(marker.numRows, minVal, maxVal)
      && (forall r :: r in chart.scatter.numPoints <==> r in marker.numRows && minVal <= r.value <= maxVal)
      && IsSubsequence(chart.scatter.numPoints, marker.numRows)
      && chart.legendTitle == None
    ensures marker.Categorical? ==>
      && chart.scatter.Discrete?
      && chart.scatter.catPoints == marker.catRows
      && StrictlyAscending(chart.scatter.legend)
      && (forall l :: l in chart.scatter.legend <==> l in Values(marker.catRows))
      && chart.scatter.colourMap == CodeColourMap(order, palette)
      && (forall k :: k in chart.scatter.colourMap ==> k.IntKey? && chart.scatter.colourMap[k] in palette)
      && (forall l :: l in Values(marker.catRows) ==> StrKey(l) !in chart.scatter.colourMap)
      && chart.legendTitle == Some("Levels")
  {
    var xRange, yRange := AxisRange(TableXs(marker)), AxisRange(TableYs(marker));
    var w, h := Pixels(cfg.width), Pixels(cfg.height);
    match marker
    case Numeric(rows) =>
      FilterRowsIsSubsequence(rows, minVal, maxVal);
      Chart(Continuous(FilterRows(rows, minVal, maxVal)), xRange, yRange, w, h, cfg.dotSize, None)
    case Categorical(rows) =>
      var labels := Values(rows);
      CodeColourMapMissesLabels(labels, order, palette);
      Chart(Discrete(rows, LegendOrder(labels), CodeColourMap(order, palette)),
            xRange, yRange, w, h, cfg.dotSize, Some("Levels"))
  }

  /** The categorical chart as evidently intended: the same chart, with the
      colour dictionary keyed by label, so that every label of the colour
      column gets the palette colour the comprehension gives its code. */
  function RenderIntended(marker: Marker, minVal: real, maxVal: real, cfg: Config,
                          palette: seq<string>, order: seq<int>): (chart: Chart)
    requires |palette| > 0
    requires marker.Categorical? ==> EnumeratesCodes(order, Codes(Values(marker.catRows)))
    ensures var written := Render(marker, minVal, maxVal, cfg, palette, order);
      && chart.xRange == written.xRange && chart.yRange == written.yRange
      && chart.widthPx == written.widthPx && chart.heightPx == written.heightPx
      && chart.sizeMax == written.sizeMax && chart.legendTitle == written.legendTitle
      && (marker.Numeric? ==> chart.scatter == written.scatter)
      && (marker.Categorical? ==>
            && chart.scatter.Discrete?
            && chart.scatter.catPoints == written.scatter.catPoints
            && chart.scatter.legend == written.scatter.legend)
    ensures marker.Categorical? ==>
      var labels := Values(marker.catRows);
      && (forall k :: k in chart.scatter.colourMap <==> k.StrKey? && k.text in labels)
      && (forall l :: l in labels ==>
            chart.scatter.colourMap[StrKey(l)] == LabelColours(labels, order, palette)[l])
  {
    var written := Render(marker, minVal, maxVal, cfg, palette, order);
    match marker
    case Numeric(_) => written
    case Categorical(rows) =>
      var labels := Values(rows);
      var colours := LabelColours(labels, order, palette);
      var keyed := LabelKeyed(colours);
      assert forall k :: k in keyed <==> k.StrKey? && k.text in labels;
      assert written.scatter.Discrete?;
      var scatter := Discrete(written.scatter.catPoints, written.scatter.legend, keyed);
      written.(scatter := scatter)
  }

  /** In the intended chart every label of the colour column has a palette
      colour, the one the comprehension gives its code; the chart as written
      has none. */
  lemma IntendedChartColoursEveryLabel(rows: seq<Row<string>>, minVal: real, maxVal: real, cfg: Config,
                                       palette: seq<string>, order: seq<int>, l: string)
    requires |palette| > 0 && EnumeratesCodes(order, Codes(Values(rows)))
    requires l in Values(rows)
    ensures var labels := Values(rows);
      var intended := RenderIntended(Categorical(rows), minVal, maxVal, cfg, palette, order).scatter.colourMap;
      var written := Render(Categorical(rows), minVal, maxVal, cfg, palette, order).scatter.colourMap;
      && StrKey(l) in intended && StrKey(l) !in written
      && intended[StrKey(l)] in palette
      && IntKey(Code(labels, l)) in written
      && intended[StrKey(l)] == written[IntKey(Code(labels, l))]
  {
    var labels := Values(rows);
    var colours := LabelColours(labels, order, palette);
    assert l in colours;
    var intended := RenderIntended(Categorical(rows), minVal, maxVal, cfg, palette, order).scatter.colourMap;
    assert intended[StrKey(l)] == colours[l];
  }

  /** A label-keyed dictionary as Python sees its keys. */
  function LabelKeyed(m: map<string, string>): (r: map<Key, string>)
    ensures forall k :: k in r <==> k.StrKey? && k.text in m
    ensures forall l :: l in m ==> r[StrKey(l)] == m[l]
  {
    map l | l in m :: StrKey(l) := m[l]
  }

  /** The axis ranges come from the whole table: the scale bounds, which
      only filter the numeric points, never change them. */
  lemma AxesIgnoreScaleBounds(marker: Marker, min1: real, max1: real, min2: real, max2: real,
                              cfg: Config, palette: seq<string>, order: seq<int>)
    requires |palette| > 0
    requires marker.Categorical? ==> EnumeratesCodes(order, Codes(Values(marker.catRows)))
    ensures Render(marker, min1, max1, cfg, palette, order).xRange
         == Render(marker, min2, max2, cfg, palette, order).xRange
         == AxisRange(TableXs(marker))
    ensures Render(marker, min1, max1, cfg, palette, order).yRange
         == Render(marker, min2, max2, cfg, palette, order).yRange
         == AxisRange(TableYs(marker))
  {
  }

  /** Every drawn point lies inside the fixed axis ranges. */
  lemma DrawnPointsInsideAxes(marker: Marker, minVal: real, maxVal: real, cfg: Config,
                              palette: seq<string>, order: seq<int>)
    requires |palette| > 0
    requires marker.Categorical? ==> EnumeratesCodes(order, Codes(Values(marker.catRows)))
    ensures var chart := Render(marker, minVal, maxVal, cfg, palette, order);
      && (forall x :: x in DrawnXs(chart.scatter) ==>
            chart.xRange.Some? && chart.xRange.value.lo <= x <= chart.xRange.value.hi)
      && (forall y :: y in DrawnYs(chart.scatter) ==>
            chart.yRange.Some? && chart.yRange.value.lo <= y <= chart.yRange.value.hi)
  {
    var chart := Render(marker, minVal, maxVal, cfg, palette, order);
    forall x | x in DrawnXs(chart.scatter)
      ensures x in TableXs(marker)
    {
      var i :| 0 <= i < |DrawnXs(chart.scatter)| && DrawnXs(chart.scatter)[i] == x;
      match marker
      case Numeric(rows) =>
        var p := chart.scatter.numPoints[i];
        assert p in chart.scatter.numPoints;
        var j :| 0 <= j < |rows| && rows[j] == p;
        assert Xs(rows)[j] == x;
      case Categorical(rows) =>
        assert Xs(rows)[i] == x;
    }
    forall y | y in DrawnYs(chart.scatter)
      ensures y in TableYs(marker)
    {
      var i :| 0 <= i < |DrawnYs(chart.scatter)| && DrawnYs(chart.scatter)[i] == y;
      match marker
      case Numeric(rows) =>
        var p := chart.scatter.numPoints[i];
        assert p in chart.scatter.numPoints;
        var j :| 0 <= j < |rows| && rows[j] == p;
        assert Ys(rows)[j] == y;
      case Categorical(rows) =>
        assert Ys(rows)[i] == y;
    }
  }

  /** With the scale inputs left at their defaults, a non-empty numeric
      table always draws at least one point. */
  lemma DefaultNumericChartNotEmpty(rows: seq<Row<real>>, cfg: Config, palette: seq<string>, order: seq<int>)
    requires |rows| > 0 && |palette| > 0
    ensures var d := DefaultScale(Values(rows));
      d.Some? && Render(Numeric(rows), d.value.minVal, d.value.maxVal, cfg, palette, order).scatter.numPoints != []
  {
    DefaultScaleKeepsARow(rows);
  }
}

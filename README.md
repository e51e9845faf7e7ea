# COMET data analysis page: a Dafny model of its selection and scale logic

The repository is a single Streamlit page, `Home.py`. It loads a
tab-separated table of measurements, lets the user pick a marker column and
draws a scatter of the `X`/`Y` positions coloured by that marker. Almost all
of the page drives Streamlit, pandas and Plotly. This project models the
logic the page itself computes:

- **Selectable columns** (`Columns`): the header names that start with none
  of `Study level`, `Distance`, `Area`, `LayerData`, `Name`, `X`, `Y`,
  `Image`, in header order.
- **Column statistics** (`Stats`): `min`, `max` and pandas' default
  `quantile`, which sorts the values, takes the virtual index `(n - 1) * q`
  and interpolates linearly between the two closest ranks.
- **Scale defaults and row filter** (`Scale`): the Tukey fences
  `Q1 - 1.5 * IQR` and `Q3 + 1.5 * IQR`, the default scale bounds
  `max(min, lower)` and `min(max, upper)`, and the inclusive row filter
  `min_val <= v <= max_val`.
- **Categorical colouring** (`Categories`): the category codes
  (`pd.Categorical(...).codes`), the colour dictionary built from them, and
  the legend order `sorted(unique())`.
- **The chart handed to Plotly** (`Figure`): the rows drawn, their
  colouring, the axis ranges taken from the whole table and the pixel size
  `width * 100` by `height * 100`.

The table arrives already parsed (`Table`): each row is projected to its
`X`, `Y` and marker value. The numeric/categorical choice of
`is_numeric_dtype` is the tag of `Table.Marker`. Values are exact reals. The
user's widget inputs (width, height, dot size, scale bounds) are
parameters. Python's iteration order over the set of codes is a parameter
too: any duplicate-free listing of the codes. An empty column, where pandas
would give NaN, gives `None`.

Consequences of `Home.py` that the model makes explicit:

- `pd.Categorical` with inferred categories sorts them, so a label's code is
  its position in the sorted distinct labels (`Categories.Codes`).
- With the default bounds, a non-empty numeric column always keeps at least
  one row (`Scale.DefaultScaleKeepsARow`), whatever its interquartile range.
- The colour dictionary is keyed by integer codes, not labels, so it
  colours no label of the chart (see Findings). `Figure.Render` states the
  chart as written; `Figure.RenderIntended` is the same chart with a
  label-keyed dictionary.

## Model

| member | source | states |
|---|---|---|
| `Columns.SelectableColumns` | Home.py:18-28 | a name is among the choices exactly when it is a header name that passes all eight prefix tests; there are never more choices than headers |
| `Columns.SelectableIffNoExcludedPrefix` | Home.py:20-28 | the eight-way conjunction holds exactly when no prefix of the excluded list starts the name |
| `Columns.ExclusionIsByPrefix` | Home.py:20-28 | any excluded prefix followed by any suffix (`X`, `Xpos`, `Name1`) is never selectable |
| `Columns.SelectableColumnsIsSubsequence` | Home.py:18-28 | the choices are a subsequence of the header list, in the headers' relative order |
| `Columns.SelectableColumnsOfConcat` | Home.py:20-28 | selecting from `a + b` gives the selection of `a` followed by that of `b`, so nothing is reordered |
| `Columns.SelectableColumnsIdempotent` | Home.py:20-28 | deriving the choices again from the choices changes nothing |
| `Columns.SelectableColumnsExample` | Home.py:20-28 | headers `A, X, B, Name1` give the choices `A, B` |
| `Columns.SelectableColumnsPrefixExample` | Home.py:20-28 | `Xpos`, `Yield` and `Image 2` are excluded; the test is case-sensitive, so `x` stays |
| `Stats.Min` | Home.py:41-42 | the minimum of a non-empty column is one of its values and at most every value |
| `Stats.Max` | Home.py:41-42 | the maximum of a non-empty column is one of its values and at least every value |
| `Stats.Sort` | Home.py:47-48 | the values quantile works on are ascending and a permutation of the column |
| `Stats.Lerp` | Home.py:47-48 | linear interpolation between `a <= b` with weight in [0, 1] stays in [a, b] and gives `a` at weight 0 |
| `Stats.QuantileOfSorted` | Home.py:47-48 | the quantile of sorted values lies between the values at the ranks just below and just above `(n - 1) * q`, hence between the first and last value |
| `Stats.Quantile` | Home.py:47-48 | the quantile exists exactly for a non-empty column and lies between its minimum and maximum |
| `Stats.QuantileOfSortedMonotone` | Home.py:47-48 | a larger `q` never gives a smaller quantile |
| `Stats.QuartilesOrdered` | Home.py:47-49 | Q1 <= Q3, so the IQR is never negative |
| `Stats.QuartilesExample` | Home.py:47-48 | the column `1, 2, 3, 4, 100` has Q1 = 2 and Q3 = 4 |
| `Scale.LowerFence` | Home.py:49-50 | the lower fence is at most Q1 exactly when Q1 <= Q3, and equals Q1 exactly when the IQR is zero |
| `Scale.UpperFence` | Home.py:49-51 | the upper fence is at least Q3 exactly when Q1 <= Q3, and equals Q3 exactly when the IQR is zero |
| `Scale.DefaultMin` | Home.py:53 | the default minimum is at least the column minimum and at least the lower fence, and is one of the two |
| `Scale.DefaultMax` | Home.py:54 | the default maximum is at most the column maximum and at most the upper fence, and is one of the two |
| `Scale.DefaultBoundsOrdered` | Home.py:47-54 | when colMin <= Q1 <= Q3 <= colMax, default min <= Q1 <= Q3 <= default max |
| `Scale.DefaultScale` | Home.py:47-54 | defaults exist exactly for a non-empty column; Q1 and Q3 are the column's quantiles, the fences are `LowerFence`/`UpperFence` of them and the defaults are `max(min, lower)` and `min(max, upper)`; lower <= Q1 <= Q3 <= upper; colMin <= default min <= Q1 and Q3 <= default max <= colMax; with a zero IQR both fences and both defaults equal Q1 |
| `Scale.DefaultScaleExample` | Home.py:47-54 | `1, 2, 3, 4, 100` gives fences -1 and 7 and defaults 1 and 7 |
| `Scale.ValueWithinFences` | Home.py:47-51 | some value of a non-empty column lies between the fences of its own quartiles |
| `Scale.DefaultScaleKeepsARow` | Home.py:47-56 | with the default bounds, the filter keeps at least one row of a non-empty numeric column |
| `Scale.FilterRows` | Home.py:56 | a row is kept exactly when it is a table row whose value v has min_val <= v <= max_val, both ends inclusive |
| `Scale.FilterRowsIsSubsequence` | Home.py:56 | the kept rows are a subsequence of the table, in the original order |
| `Scale.FilterRowsOfConcat` | Home.py:56 | filtering `a + b` is filtering `a` followed by filtering `b` |
| `Scale.FilterRowsTwice` | Home.py:56 | filtering twice equals filtering once by the tighter of the two bounds on each side |
| `Scale.FilterRowsIdempotent` | Home.py:56 | filtering again with the same bounds changes nothing |
| `Scale.FilterRowsCrossedBounds` | Home.py:56 | bounds with max_val < min_val keep no row |
| `Scale.FilterRowsKeepsAll` | Home.py:56 | when every value is in scale, no row is dropped |
| `Scale.FilterRowsExample` | Home.py:56 | bounds [1, 7] on `1, 2, 3, 4, 100` keep the first four rows and drop the one holding 100 |
| `Categories.StrLessTransitive` | Home.py:65 | Python's string order used by `sorted` is transitive |
| `Categories.StrLessTotal` | Home.py:65 | any two different strings are ordered one way or the other |
| `Categories.LegendOrder` | Home.py:65 | the legend is strictly ascending and holds exactly the labels of the column |
| `Categories.StrictlyAscendingDistinct` | Home.py:65 | each label appears in the legend once |
| `Categories.StrictlyAscendingUnique` | Home.py:65 | two strictly ascending listings of the same labels are equal, so the legend does not depend on the order `unique()` returns |
| `Categories.Codes` | Home.py:62 | each row's code is a position in the sorted distinct labels, and the label at that position is the row's label |
| `Categories.CodesIdentifyLabels` | Home.py:62 | two rows share a code exactly when they share a label, and every category's code occurs |
| `Categories.EnumerationLength` | Home.py:62-64 | any duplicate-free listing of the codes has one entry per distinct label |
| `Categories.CodeColourMap` | Home.py:63-64 | the code at position i of the enumeration maps to palette[i % len(palette)], and every key is an integer code of the column |
| `Categories.CodeColourMapMissesLabels` | Home.py:64-65 | no label of the colour column is a key of the dictionary as written |
| `Categories.CodeColourMapExample` | Home.py:62-65 | labels `a, b, a, c` have legend `a, b, c` and codes `0, 1, 0, 2`; the dictionary has key 0 and not the label `a` |
| `Categories.LabelColours` | Home.py:63-64 | every label and nothing else gets a colour, which is a palette entry, namely the colour the dictionary gives the label's code |
| `Categories.LabelColoursDistinct` | Home.py:63-64 | with no more distinct labels than palette entries and a palette of distinct colours, distinct labels get distinct colours |
| `Figure.AxisRange` | Home.py:41-42 | the range exists exactly for a non-empty column, its ends are values of the column and every value lies between them |
| `Figure.Pixels` | Home.py:59 | the pixel size is a multiple of 100 and dividing by 100 gives back the chosen size |
| `Figure.Render` | Home.py:41-73 | numeric: the drawn points are exactly the filtered rows, in table order, with no legend title; categorical: every row is drawn, the legend is the ascending distinct labels, the dictionary passed as `color_discrete_map` is the code-keyed one, whose keys are codes and whose colours are palette entries, and no label is among its keys; the legend title is `Levels`; both: the pixel sizes are `width * 100` and `height * 100`, `size_max` is the chosen dot size, and each axis range exists exactly when the table is non-empty |
| `Figure.RenderIntended` | Home.py:62-73 | the chart as evidently intended: everything equal to the chart as written except the colour dictionary, whose keys are exactly the labels of the column, each mapped to the corrected label colour |
| `Figure.IntendedChartColoursEveryLabel` | Home.py:62-65 | every label has a palette colour in the intended chart, the colour the written dictionary gives its code, while the written dictionary has no entry for the label |
| `Figure.AxesIgnoreScaleBounds` | Home.py:41-73 | the axis ranges are the ranges of the whole table's `X` and `Y`, whatever scale bounds are chosen |
| `Figure.DrawnPointsInsideAxes` | Home.py:56-73 | every drawn point lies inside both fixed axis ranges |
| `Figure.DefaultNumericChartNotEmpty` | Home.py:53-58 | with the scale inputs left at their defaults, a non-empty numeric table draws at least one point |

## Left out

- Streamlit widgets, the sidebar and `st.plotly_chart` (Home.py:6-12, 31-38, 75): the user's choices are parameters.
- Uploading and parsing the TSV file (Home.py:12-16): the table arrives as rows already projected to `X`, `Y` and the marker value. A missing `X`, `Y` or marker column is not modelled.
- An empty list of choices, where the select box yields no column: the model starts from a chosen marker column.
- `is_numeric_dtype` (Home.py:44): the decision is the tag of `Table.Marker`.
- Floating point: values are exact reals, so rounding in the quantile and the fences is not modelled, nor NaN in `min`, `max`, `quantile`, comparisons or `pd.Categorical` (code -1).
- `Stats.Quantile`: requires q in [0, 1], where pandas raises an error outside it; the page only passes 0.25 and 0.75.
- The contents of Plotly's `Safe` palette: the palette is a parameter, required to be non-empty.
- The iteration order of `set(categories)` (Home.py:64): it is a parameter, and every property holds for any duplicate-free listing of the codes.
- How Plotly colours labels that `color_discrete_map` does not cover (its own default sequence), the Viridis colour scale, and the cosmetic axis settings (blank titles, hidden tick labels, Home.py:59, 66, 72-73).
- The Plotly figure object itself: `Figure.Render` states the values the page passes to `px.scatter` and `update_layout`, not what Plotly draws from them.
- The effect of `size_max` (Home.py:58, 65): the page passes the dot size only as `size_max` and gives no `size=` column. By Plotly's documented behaviour `size_max` only scales a size column, so the dot-size input probably leaves the dots unchanged. Plotly's code is not part of this model, so this is not claimed as a finding.

## Findings

| source | as written | input that shows it | evidently intended | confidence | as-written member | corrected member |
|---|---|---|---|---|---|---|
| Home.py:64-65 | `color_map` is keyed by the integer category codes, but it is passed as `color_discrete_map` for a colour column holding the labels themselves | labels `a, b, a, c`: the keys are the codes 0, 1, 2 and no label is a key, so none of the palette colours is applied | each label gets the colour the comprehension assigns to its code | medium, not executed | `Categories.CodeColourMapMissesLabels` | `Categories.LabelColours` |

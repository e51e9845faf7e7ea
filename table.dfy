/** The uploaded sheet as the page uses it. Parsing the TSV file is not
    modelled: each row is projected to the `X` and `Y` coordinates and the
    value of the chosen marker column, and the numeric/categorical decision
    of `is_numeric_dtype` (Home.py:44) is the tag of `Marker`. */
module Table {

  datatype Row<V> = Row(x: real, y: real, value: V)

  /** The chosen marker column, numeric (the IQR branch) or not (the
      categorical branch). */
  datatype Marker = Numeric(numRows: seq<Row<real>>) | Categorical(catRows: seq<Row<string>>)

  function Values<V>(rows: seq<Row<V>>): (vs: seq<V>)
    ensures |vs| == |rows|
    ensures forall i :: 0 <= i < |rows| ==> vs[i] == rows[i].value
  {
    seq(|rows|, i requires 0 <= i < |rows| => rows[i].value)
  }

  function Xs<V>(rows: seq<Row<V>>): (xs: seq<real>)
    ensures |xs| == |rows|
    ensures forall i :: 0 <= i < |rows| ==> xs[i] == rows[i].x
  {
    seq(|rows|, i requires 0 <= i < |rows| => rows[i].x)
  }

  function Ys<V>(rows: seq<Row<V>>): (ys: seq<real>)
    ensures |ys| == |rows|
    ensures forall i :: 0 <= i < |rows| ==> ys[i] == rows[i].y
  {
    seq(|rows|, i requires 0 <= i < |rows| => rows[i].y)
  }
}

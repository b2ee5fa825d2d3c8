/** `Ai::Artifacts::Dataset::InjectVisuals`: builds a "Charts" section of
    horizontal bar charts from a dataset and appends it to the artifact
    HTML. Each dataset (at most six) gets one chart per numeric column (at
    most four), over its first forty array rows; each bar's width is the
    value's share of the largest magnitude. The section is described here
    as a value; laying it into the document is a parameter, since the HTML
    parser is not modelled. */
module InjectVisuals {
  import opened Wrappers
  import opened Text
  import opened Values
  import ComputedCells

  const MaxDatasets: nat := 6
  const MaxChartsPerDataset: nat := 4
  const MaxRowsPerChart: nat := 40

  /** One bar: its caption, its value, whether it is drawn as negative, and
      its width in percent. */
  datatype Bar = Bar(caption: string, value: real, negative: bool, width: real)

  /** A chart of one column; no bars means "No numeric values to plot.". */
  datatype Chart = Chart(column: nat, title: string, bars: seq<Bar>)

  /** The block of one dataset, with its position among the datasets. */
  datatype DatasetVisual = DatasetVisual(index: nat, title: string, charts: seq<Chart>)

  // ---------------------------------------------------------------- cells

  /** `coerce_numeric`: a number, or a string that is a signed decimal once
      stripped. */
  function Coerce(v: Value): (r: Option<real>)
    ensures r.Some? <==>
      (v.Int? || v.Float? || (v.Str? && ComputedCells.IsSignedDecimal(Strip(v.s))))
    ensures v.Int? ==> r == Some(v.i as real)
    ensures v.Float? ==> r == Some(v.r)
    ensures v.Str? && ComputedCells.IsSignedDecimal(Strip(v.s)) ==>
      r == Some(ComputedCells.SignedDecimalValue(Strip(v.s)))
  {
    match v
    case Int(n) => Some(n as real)
    case Float(x) => Some(x)
    case Str(s) =>
      var str := Strip(s);
      if !Blank(str) && ComputedCells.IsSignedDecimal(str) then Some(ComputedCells.SignedDecimalValue(str)) else None
    case _ => None
  }

  /** `row[i]`, nil past the end. */
  function Cell(row: seq<Value>, i: nat): Value {
    if i < |row| then row[i] else Nil
  }

  /** Some row has a number in column `i`. */
  predicate NumericColumn(rows: seq<seq<Value>>, i: nat) {
    exists k :: 0 <= k < |rows| && Coerce(Cell(rows[k], i)).Some?
  }

  /** `numeric_column_indexes` from column `i` on. */
  function NumericFrom(rows: seq<seq<Value>>, i: nat, size: nat): (r: seq<nat>)
    ensures forall c :: c in r <==> i <= c < size && NumericColumn(rows, c)
    ensures forall a, b :: 0 <= a < b < |r| ==> r[a] < r[b]
    ensures forall a :: 0 <= a < |r| ==> i <= r[a]
    decreases size - i
  {
    if i >= size then []
    else
      var rest := NumericFrom(rows, i + 1, size);
      if NumericColumn(rows, i) then [i] + rest else rest
  }

  /** `label_column_index`: the first column that is not charted, else 0. */
  function LabelIndex(size: nat, charted: seq<nat>): (r: nat)
    ensures (forall c :: 0 <= c < size ==> c in charted) ==> r == 0
    ensures (exists c :: 0 <= c < size && c !in charted) ==>
      r < size && r !in charted && forall c :: 0 <= c < r ==> c in charted
  {
    FirstUncharted(0, size, charted)
  }

  function FirstUncharted(i: nat, size: nat, charted: seq<nat>): (r: nat)
    ensures (forall c :: i <= c < size ==> c in charted) ==> r == 0
    ensures (exists c :: i <= c < size && c !in charted) ==>
      i <= r < size && r !in charted && forall c :: i <= c < r ==> c in charted
    decreases size - i
  {
    if i >= size then 0
    else if i !in charted then i
    else FirstUncharted(i + 1, size, charted)
  }

  // ---------------------------------------------------------------- bars

  /** `text.presence || fallback`. */
  function Presence(text: string, fallback: string): string {
    if Blank(text) then fallback else text
  }

  /** The points of a chart: a label and a value for each row whose cell
      is numeric. */
  function Points(rows: seq<seq<Value>>, labelIndex: nat, column: nat, inspect: Value -> string): (r: seq<(string, real)>)
    ensures |r| <= |rows|
    ensures r != [] <==> NumericColumn(rows, column)
    ensures forall p :: p in r ==> exists k :: 0 <= k < |rows| && Coerce(Cell(rows[k], column)) == Some(p.1)
  {
    if rows == [] then []
    else
      var rest := Points(rows[1..], labelIndex, column, inspect);
      match Coerce(Cell(rows[0], column))
      case Some(v) => [(Presence(ToS(Cell(rows[0], labelIndex), inspect), "Row"), v)] + rest
      case None => rest
  }

  /** The largest magnitude among the points, 1 when that is 0. */
  function MaxAbs(points: seq<(string, real)>): (m: real)
    ensures m > 0.0
    ensures forall i :: 0 <= i < |points| ==> ComputedCells.Abs(points[i].1) <= m
  {
    var largest := LargestAbs(points);
    if largest <= 0.0 then 1.0 else largest
  }

  function LargestAbs(points: seq<(string, real)>): (m: real)
    ensures m >= 0.0
    ensures forall i :: 0 <= i < |points| ==> ComputedCells.Abs(points[i].1) <= m
    ensures points != [] ==> exists i :: 0 <= i < |points| && ComputedCells.Abs(points[i].1) == m
  {
    if points == [] then 0.0
    else
      var rest := LargestAbs(points[1..]);
      var a := ComputedCells.Abs(points[0].1);
      if a >= rest then a
      else
        assert points[1..] != [];
        rest
  }

  /** `Float#round(2)`, on exact reals. */
  function Round2(x: real): real {
    ComputedCells.RoundHalfAway(x * 100.0) as real / 100.0
  }

  /** The width of a bar: its share of the largest magnitude, in percent. */
  function Width(v: real, maxAbs: real): real
    requires maxAbs > 0.0
  {
    Round2(ComputedCells.Abs(v) / maxAbs * 100.0)
  }

  function Bars(points: seq<(string, real)>, maxAbs: real): (r: seq<Bar>)
    requires maxAbs > 0.0
    ensures |r| == |points|
    ensures forall i :: 0 <= i < |points| ==>
      r[i] == Bar(points[i].0, points[i].1, points[i].1 < 0.0, Width(points[i].1, maxAbs))
  {
    seq(|points|, i requires 0 <= i < |points| =>
      Bar(points[i].0, points[i].1, points[i].1 < 0.0, Width(points[i].1, maxAbs)))
  }

  /** A dataset block has between one and four charts of at most forty
      bars each. */
  predicate WellSized(v: DatasetVisual) {
    0 < |v.charts| <= MaxChartsPerDataset &&
    forall c :: 0 <= c < |v.charts| ==> |v.charts[c].bars| <= MaxRowsPerChart
  }

  /** The chart of one column. */
  function ChartOf(schema: seq<Value>, rows: seq<seq<Value>>, labelIndex: nat, column: nat,
                   inspect: Value -> string): (r: Chart)
    ensures r.column == column && |r.bars| <= |rows|
  {
    var title := Presence(ToS(Cell(schema, column), inspect), "Column " + NatToString(column + 1));
    var points := Points(rows, labelIndex, column, inspect);
    Chart(column, title, if points == [] then [] else Bars(points, MaxAbs(points)))
  }

  // ---------------------------------------------------------------- datasets

  /** The array rows, in order. */
  function ArrayRows(items: seq<Value>): (r: seq<seq<Value>>)
    ensures |r| <= |items|
  {
    if items == [] then []
    else
      var rest := ArrayRows(items[1..]);
      if items[0].Arr? then [items[0].items] + rest else rest
  }

  /** `render_dataset`: None when the dataset has no schema, no array rows
      or no numeric column. */
  function RenderDataset(dataset: seq<(Key, Value)>, index: nat, inspect: Value -> string): (r: Option<DatasetVisual>)
    ensures r.Some? ==> r.value.index == index && WellSized(r.value)
  {
    var schema := ToArray(Get(dataset, StrKey("schema")).GetOr(Nil));
    var rows := Take(ArrayRows(ToArray(Get(dataset, StrKey("rows")).GetOr(Nil))), MaxRowsPerChart);
    if schema == [] || rows == [] then None
    else
      var numeric := Take(NumericFrom(rows, 0, |schema|), MaxChartsPerDataset);
      if numeric == [] then None
      else
        var labelIndex := LabelIndex(|schema|, numeric);
        var title := Presence(ToS(Get(dataset, StrKey("name")).GetOr(Nil), inspect), "Dataset " + NatToString(index + 1));
        var charts := seq(|numeric|, c requires 0 <= c < |numeric| => ChartOf(schema, rows, labelIndex, numeric[c], inspect));
        Some(DatasetVisual(index, title, charts))
  }

  /** `extract_datasets`: the Hash entries of "datasets". */
  function Datasets(obj: Value): seq<seq<(Key, Value)>> {
    var h := if obj.Hash? then obj.entries else [];
    var arr := ReadKey(h, "datasets");
    if arr.Arr? then HashItems(arr.items) else []
  }

  function HashItems(items: seq<Value>): (r: seq<seq<(Key, Value)>>)
    ensures |r| <= |items|
  {
    if items == [] then []
    else
      var rest := HashItems(items[1..]);
      if items[0].Hash? then [items[0].entries] + rest else rest
  }

  /** The rendered blocks of the datasets from position `i` on. */
  function VisualsFrom(datasets: seq<seq<(Key, Value)>>, i: nat, inspect: Value -> string): (r: seq<DatasetVisual>)
    requires i <= |datasets|
    ensures |r| <= |datasets| - i
    ensures forall k :: 0 <= k < |r| ==> i <= r[k].index < |datasets|
    ensures forall k :: 0 <= k < |r| ==> WellSized(r[k])
    ensures forall a, b :: 0 <= a < b < |r| ==> r[a].index < r[b].index
    decreases |datasets| - i
  {
    if i == |datasets| then []
    else
      var rest := VisualsFrom(datasets, i + 1, inspect);
      match RenderDataset(datasets[i], i, inspect)
      case Some(v) => VisualBefore(v, rest, i, |datasets|); [v] + rest
      case None => rest
  }

  /** A block for dataset `i` in front of the blocks of later datasets. */
  lemma VisualBefore(v: DatasetVisual, rest: seq<DatasetVisual>, i: nat, n: nat)
    requires v.index == i < n && WellSized(v) && |rest| <= n - i - 1
    requires forall k :: 0 <= k < |rest| ==> i + 1 <= rest[k].index < n
    requires forall k :: 0 <= k < |rest| ==> WellSized(rest[k])
    requires forall a, b :: 0 <= a < b < |rest| ==> rest[a].index < rest[b].index
    ensures var r := [v] + rest;
      |r| <= n - i &&
      (forall k :: 0 <= k < |r| ==> i <= r[k].index < n) &&
      (forall k :: 0 <= k < |r| ==> WellSized(r[k])) &&
      (forall a, b :: 0 <= a < b < |r| ==> r[a].index < r[b].index)
  {
    var r := [v] + rest;
    forall k | 0 < k < |r| ensures r[k] == rest[k - 1] {
    }
  }

  /** The blocks of the section, for the first six datasets. */
  function Visuals(datasetJson: Value, inspect: Value -> string): (r: seq<DatasetVisual>)
    ensures |r| <= MaxDatasets
    ensures forall k :: 0 <= k < |r| ==> WellSized(r[k])
  {
    VisualsFrom(Take(Datasets(datasetJson), MaxDatasets), 0, inspect)
  }

  /** `call`, with `place` laying the section into the document in place
      of any earlier one. Blank HTML, a blank dataset or nothing to chart
      leaves the HTML as it is. */
  function Call(html: string, datasetJson: Value, place: (string, seq<DatasetVisual>) -> string,
                inspect: Value -> string): (r: string)
    ensures Blank(html) || BlankValue(datasetJson) ==> r == html
    ensures Visuals(datasetJson, inspect) == [] ==> r == html
    ensures !Blank(html) && !BlankValue(datasetJson) && Visuals(datasetJson, inspect) != [] ==>
      r == place(html, Visuals(datasetJson, inspect))
  {
    if Blank(html) || BlankValue(datasetJson) then html
    else
      var visuals := Visuals(datasetJson, inspect);
      if visuals == [] then html else place(html, visuals)
  }

  // ---------------------------------------------------------------- properties

  /** Every bar's width lies between 0 and 100 percent. */
  lemma WidthInRange(v: real, maxAbs: real)
    requires maxAbs > 0.0 && ComputedCells.Abs(v) <= maxAbs
    ensures 0.0 <= Width(v, maxAbs) <= 100.0
  {
    var share := ComputedCells.Abs(v) / maxAbs;
    assert 0.0 <= share <= 1.0 by {
      assert ComputedCells.Abs(v) <= maxAbs * 1.0;
    }
    var pct := share * 100.0;
    assert 0.0 <= pct * 100.0 <= 10000.0;
    var n := ComputedCells.RoundHalfAway(pct * 100.0);
    assert 0 <= n <= 10000;
  }

  /** The largest bar of a chart is full width. */
  lemma LargestBarFull(points: seq<(string, real)>, i: nat)
    requires 0 <= i < |points| && ComputedCells.Abs(points[i].1) == LargestAbs(points) && LargestAbs(points) > 0.0
    ensures Width(points[i].1, MaxAbs(points)) == 100.0
  {
    var m := MaxAbs(points);
    var a := ComputedCells.Abs(points[i].1);
    assert m == a;
    DivSelf(a);
    assert a / m == 1.0;
    assert Round2(100.0) == 100.0 by {
      assert ComputedCells.RoundHalfAway(10000.0) == 10000;
    }
  }

  lemma DivSelf(x: real)
    requires x > 0.0
    ensures x / x == 1.0
  {
  }

  /** Every bar of every chart is within 0 to 100 percent. */
  lemma BarsInRange(points: seq<(string, real)>)
    requires points != []
    ensures forall b :: b in Bars(points, MaxAbs(points)) ==> 0.0 <= b.width <= 100.0
  {
    var m := MaxAbs(points);
    forall b | b in Bars(points, m)
      ensures 0.0 <= b.width <= 100.0
    {
      var i :| 0 <= i < |points| && Bars(points, m)[i] == b;
      WidthInRange(points[i].1, m);
    }
  }

  /** Every charted column has a numeric cell, so a rendered chart always
      has bars: the "No numeric values to plot." branch is never taken. */
  lemma ChartsNeverEmpty(dataset: seq<(Key, Value)>, index: nat, inspect: Value -> string)
    requires RenderDataset(dataset, index, inspect).Some?
    ensures forall c :: 0 <= c < |RenderDataset(dataset, index, inspect).value.charts| ==>
      RenderDataset(dataset, index, inspect).value.charts[c].bars != []
  {
    var schema := ToArray(Get(dataset, StrKey("schema")).GetOr(Nil));
    var rows := Take(ArrayRows(ToArray(Get(dataset, StrKey("rows")).GetOr(Nil))), MaxRowsPerChart);
    var all := NumericFrom(rows, 0, |schema|);
    var numeric := Take(all, MaxChartsPerDataset);
    var labelIndex := LabelIndex(|schema|, numeric);
    var v := RenderDataset(dataset, index, inspect).value;
    forall c | 0 <= c < |v.charts|
      ensures v.charts[c].bars != []
    {
      assert numeric[c] == all[c];
      assert all[c] in all;
      assert NumericColumn(rows, numeric[c]);
      assert v.charts[c] == ChartOf(schema, rows, labelIndex, numeric[c], inspect);
    }
  }
}

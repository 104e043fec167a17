/** The computable parts of the chart renderer thisppl-programs/viz.py: the
    size of the grid of charts, the cell of each data file, the split of a
    weighted data file into observations and log-weights, and the choice of
    chart from the first observation. */
module Viz {
  import opened Types
  import opened Inference
  import opened Json
  import Lw = LikelihoodWeightingAlg

  /** `smallest_square_bigger_than`: counts `i` up from 0 while `i * i < n`. */
  method SmallestSquareBiggerThan(n: int) returns (i: nat)
    ensures i * i >= n
    ensures i == 0 || (i - 1) * (i - 1) < n
    ensures n <= 0 ==> i == 0
  {
    i := 0;
    while i * i < n
      invariant i == 0 || (i - 1) * (i - 1) < n
      decreases n - i * i
    {
      SquareGrows(i);
      i := i + 1;
    }
  }

  lemma SquareGrows(i: nat)
    ensures (i + 1) * (i + 1) > i * i
  {
  }

  lemma {:induction false} SquareMonotone(a: nat, b: nat)
    requires a <= b
    ensures a * a <= b * b
  {
    calc {
      a * a;
    <= { assert a * a <= a * b; }
      a * b;
    <= b * b;
    }
  }

  /** The grid side is the least `i` whose square holds `n` charts. */
  lemma {:induction false} GridSideIsLeast(n: int, i: nat, j: nat)
    requires i * i >= n && (i == 0 || (i - 1) * (i - 1) < n)
    requires j * j >= n
    ensures i <= j
  {
    if j < i {
      SquareMonotone(j, i - 1);
    }
  }

  /** The cell of chart `i`: row `i // n_plots`, column `i % n_plots`. */
  function Cell(i: nat, nPlots: nat): (nat, nat)
    requires nPlots > 0
  {
    (i / nPlots, i % nPlots)
  }

  lemma {:induction false} CellInGrid(i: nat, nPlots: nat)
    requires nPlots > 0 && i < nPlots * nPlots
    ensures Cell(i, nPlots).0 < nPlots && Cell(i, nPlots).1 < nPlots
  {
    if i / nPlots >= nPlots {
      assert nPlots * (i / nPlots) >= nPlots * nPlots;
    }
  }

  lemma {:induction false} CellInjective(i: nat, j: nat, nPlots: nat)
    requires nPlots > 0 && Cell(i, nPlots) == Cell(j, nPlots)
    ensures i == j
  {
    assert i == nPlots * (i / nPlots) + i % nPlots;
    assert j == nPlots * (j / nPlots) + j % nPlots;
  }

  /** The grid of `render_charts` for `count` data files and the cell each
      file is drawn in: every cell is inside the grid and no two files share
      one. */
  method ChartCells(count: nat) returns (nPlots: nat, cells: seq<(nat, nat)>)
    ensures nPlots * nPlots >= count && (nPlots == 0 || (nPlots - 1) * (nPlots - 1) < count)
    ensures |cells| == count
    ensures forall k :: 0 <= k < count ==> cells[k].0 < nPlots && cells[k].1 < nPlots
    ensures forall k, l :: 0 <= k < l < count ==> cells[k] != cells[l]
    ensures count > 0 ==> nPlots > 0 && forall k :: 0 <= k < count ==> cells[k] == Cell(k, nPlots)
  {
    nPlots := SmallestSquareBiggerThan(count);
    cells := [];
    for i := 0 to count
      invariant |cells| == i
      invariant forall k :: 0 <= k < i ==> nPlots > 0 && cells[k] == Cell(k, nPlots)
    {
      cells := cells + [Cell(i, nPlots)];
    }
    forall k | 0 <= k < count ensures cells[k].0 < nPlots && cells[k].1 < nPlots {
      CellInGrid(k, nPlots);
    }
    forall k, l | 0 <= k < l < count ensures cells[k] != cells[l] {
      if cells[k] == cells[l] {
        CellInjective(k, l, nPlots);
      }
    }
  }

  /** What a chart is drawn from: the observations and, for a weighted file,
      the log-weights (their `exp` is not modelled). */
  datatype Series = Series(data: seq<JsonValue>, logWeights: Option<seq<JsonValue>>)

  /** An entry `d` with both `d[0]` and `d[1]`. */
  predicate IsPair(d: JsonValue) {
    d.JArray? && |d.items| >= 2
  }

  /** Reading a data file: a weighted one is split into `d[0]` and `d[1]` of
      every entry; any entry without both raises, modelled as `None`. */
  function Split(hasWeights: bool, data: seq<JsonValue>): (r: Option<Series>)
    ensures r.None? <==> hasWeights && exists k :: 0 <= k < |data| && !IsPair(data[k])
    ensures r.Some? && !hasWeights ==> r.value == Series(data, None)
    ensures r.Some? && hasWeights ==>
      r.value.logWeights.Some? && |r.value.data| == |data| && |r.value.logWeights.value| == |data|
    ensures r.Some? && hasWeights ==> forall k :: 0 <= k < |data| ==>
      IsPair(data[k]) && r.value.data[k] == data[k].items[0] && r.value.logWeights.value[k] == data[k].items[1]
  {
    if !hasWeights then Some(Series(data, None))
    else if forall k :: 0 <= k < |data| ==> IsPair(data[k]) then
      Some(Series(seq(|data|, k requires 0 <= k < |data| => data[k].items[0]),
                  Some(seq(|data|, k requires 0 <= k < |data| => data[k].items[1]))))
    else None
  }

  /** The file a likelihood-weighting run writes splits back into the
      flattened results and their log-weights, in order. */
  lemma SplitWeightedFile(rs: seq<ProgramResult>, ws: seq<real>)
    requires |rs| == |ws|
    requires forall k :: 0 <= k < |rs| ==> FitsI64(rs[k])
    ensures forall k :: 0 <= k < |rs| ==> FitsI64(Lw.WeightedEntry(rs[k], ws[k]))
    ensures var file := seq(|rs|, k requires 0 <= k < |rs| => ResultToJson(Lw.WeightedEntry(rs[k], ws[k])));
      Split(true, file) ==
        Some(Series(seq(|rs|, k requires 0 <= k < |rs| => ResultToJson(rs[k])),
                    Some(seq(|rs|, k requires 0 <= k < |rs| => JNumber(F64(ws[k]))))))
  {
    forall k | 0 <= k < |rs| ensures FitsI64(Lw.WeightedEntry(rs[k], ws[k])) {
      var e := Lw.WeightedEntry(rs[k], ws[k]);
      assert e.items[0] == rs[k];
    }
    var file := seq(|rs|, k requires 0 <= k < |rs| => ResultToJson(Lw.WeightedEntry(rs[k], ws[k])));
    forall k | 0 <= k < |rs|
      ensures IsPair(file[k]) && file[k].items[0] == ResultToJson(rs[k]) && file[k].items[1] == JNumber(F64(ws[k]))
    {
      var e := Lw.WeightedEntry(rs[k], ws[k]);
      assert e.items[0] == rs[k] && e.items[1] == One(IntOrFloat.Float(ws[k]));
    }
    var sp := Split(true, file).value;
    var results := seq(|rs|, k requires 0 <= k < |rs| => ResultToJson(rs[k]));
    var weights := seq(|rs|, k requires 0 <= k < |rs| => JNumber(F64(ws[k])));
    assert sp.data == results;
    assert sp.logWeights.value == weights;
  }

  /** The Python type of a decoded JSON value. */
  datatype PyType = PyBool | PyInt | PyFloat | PyList | PyOther

  function TypeOf(j: JsonValue): (t: PyType)
    ensures t == PyList <==> j.JArray?
    ensures t == PyBool <==> j.JBool?
  {
    match j
    case JBool(_) => PyBool
    case JNumber(n) => if n.F64? then PyFloat else PyInt
    case JArray(_) => PyList
    case _ => PyOther
  }

  datatype Chart = BoolHist | Hist | Hist2d | Occupancy | Unsupported

  /** `plot`: the first observation alone picks the chart, in a fixed order.
      `None` is the IndexError raised on no observations or an empty first
      list. */
  function Classify(data: seq<JsonValue>): (r: Option<Chart>)
    ensures r.None? <==> |data| == 0 || data[0] == JArray([])
    ensures r == Some(BoolHist) <==> |data| > 0 && TypeOf(data[0]) == PyBool
    ensures r == Some(Hist) <==> |data| > 0 && TypeOf(data[0]) in {PyInt, PyFloat}
    ensures r == Some(Hist2d) <==>
      |data| > 0 && data[0].JArray? && |data[0].items| == 2 && TypeOf(data[0].items[0]) == PyFloat
    ensures r == Some(Occupancy) <==>
      |data| > 0 && data[0].JArray? && |data[0].items| > 0 &&
      !(|data[0].items| == 2 && TypeOf(data[0].items[0]) == PyFloat) &&
      TypeOf(data[0].items[0]) in {PyInt, PyBool}
    ensures r == Some(Unsupported) <==>
      |data| > 0 && (data[0].JNull? || data[0].JString? || data[0].JObject? ||
        (data[0].JArray? && |data[0].items| > 0 &&
         !(|data[0].items| == 2 && TypeOf(data[0].items[0]) == PyFloat) &&
         TypeOf(data[0].items[0]) in {PyFloat, PyList, PyOther}))
  {
    if |data| == 0 then None
    else
      var first := data[0];
      var t := TypeOf(first);
      if t == PyBool then Some(BoolHist)
      else if t == PyInt || t == PyFloat then Some(Hist)
      else if t == PyList && |first.items| == 2 && TypeOf(first.items[0]) == PyFloat then Some(Hist2d)
      else if t == PyList && |first.items| == 0 then None
      else if t == PyList && TypeOf(first.items[0]) in {PyInt, PyBool} then Some(Occupancy)
      else Some(Unsupported)
  }

  /** Only the first observation matters. */
  lemma ClassifyLooksAtFirstOnly(d1: seq<JsonValue>, d2: seq<JsonValue>)
    requires |d1| > 0 && |d2| > 0 && d1[0] == d2[0]
    ensures Classify(d1) == Classify(d2)
  {
  }

  /** Data written from inference results is never a Boolean chart and
      never raises unless the first result is an empty vector: a number
      gives a histogram, a vector of two results whose first is a float a
      2-D histogram. */
  lemma {:induction false} ResultsChart(rs: seq<ProgramResult>)
    requires |rs| > 0 && forall k :: 0 <= k < |rs| ==> FitsI64(rs[k])
    requires rs[0].Many? ==> |rs[0].items| > 0
    ensures var data := seq(|rs|, k requires 0 <= k < |rs| => ResultToJson(rs[k]));
      var c := Classify(data);
      c.Some? && c != Some(BoolHist) &&
      (rs[0].One? ==> c == Some(Hist)) &&
      (rs[0].Many? && |rs[0].items| == 2 && rs[0].items[0].One? && rs[0].items[0].leaf.Float? ==> c == Some(Hist2d))
  {
    var data := seq(|rs|, k requires 0 <= k < |rs| => ResultToJson(rs[k]));
    var first := ResultToJson(rs[0]);
    assert data[0] == first;
    if rs[0].Many? {
      assert FitsI64(rs[0].items[0]);
      assert first.items[0] == ResultToJson(rs[0].items[0]);
    }
  }

  /** A program whose first result is an empty vector is written as `[]`,
      and `plot` raises looking up its first entry. */
  lemma EmptyFirstVectorRaises(rs: seq<ProgramResult>)
    requires |rs| > 0 && rs[0] == Many([]) && forall k :: 0 <= k < |rs| ==> FitsI64(rs[k])
    ensures Classify(seq(|rs|, k requires 0 <= k < |rs| => ResultToJson(rs[k]))) == None
  {
    var data := seq(|rs|, k requires 0 <= k < |rs| => ResultToJson(rs[k]));
    assert data[0] == ResultToJson(Many([]));
  }
}

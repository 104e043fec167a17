/** The occupancy chart of thisppl-programs/viz.py: a program that returns
    a vector of integer states per sample is drawn as a state-by-column
    matrix of probability mass (`plot_hmm` and `bincount_hist`), after the
    samples matrix has been reshaped. */
module Occupancy {
  import opened Types

  /** Every row has `cols` entries: the shape of a two-dimensional array. */
  predicate Rectangular(m: seq<seq<int>>, cols: nat) {
    forall s :: 0 <= s < |m| ==> |m[s]| == cols
  }

  /** The entries row after row: the buffer of a row-major array. */
  function Concat(m: seq<seq<int>>): seq<int> {
    if m == [] then [] else Concat(m[..|m| - 1]) + m[|m| - 1]
  }

  lemma ConcatSnoc(m: seq<seq<int>>, row: seq<int>)
    ensures Concat(m + [row]) == Concat(m) + row
  {
    assert (m + [row])[..|m|] == m;
  }

  lemma {:induction false} ConcatLength(m: seq<seq<int>>, cols: nat)
    requires Rectangular(m, cols)
    ensures |Concat(m)| == |m| * cols
    decreases |m|
  {
    if m != [] {
      ConcatLength(m[..|m| - 1], cols);
      assert (|m| - 1) * cols + cols == |m| * cols;
    }
  }

  lemma {:induction false} ConcatContains(m: seq<seq<int>>, s: nat, c: nat)
    requires s < |m| && c < |m[s]|
    ensures m[s][c] in Concat(m)
    decreases |m|
  {
    if s < |m| - 1 {
      ConcatContains(m[..|m| - 1], s, c);
    } else {
      assert Concat(m) == Concat(m[..|m| - 1]) + m[s];
      assert m[s][c] == Concat(m)[|Concat(m[..|m| - 1])| + c];
    }
  }

  /** `count` rows of `width` consecutive entries of `flat`. */
  function Chunks(flat: seq<int>, width: nat, count: nat): (r: seq<seq<int>>)
    requires |flat| == count * width
    ensures |r| == count && Rectangular(r, width)
    ensures Concat(r) == flat
    decreases count
  {
    if count == 0 then []
    else
      var cut := (count - 1) * width;
      assert cut + width == |flat|;
      var front := Chunks(flat[..cut], width, count - 1);
      ConcatSnoc(front, flat[cut..]);
      assert flat[..cut] + flat[cut..] == flat;
      front + [flat[cut..]]
  }

  /** `data.reshape([data.shape[1], data.shape[0]])`: the same row-major
      buffer read as `cols` rows of `|m|` entries. The shape is that of the
      transpose, but the entries keep their order, so this is not a
      transpose. */
  function Reshape(m: seq<seq<int>>, cols: nat): (r: seq<seq<int>>)
    requires Rectangular(m, cols)
    ensures |r| == cols && Rectangular(r, |m|)
    ensures Concat(r) == Concat(m)
  {
    ConcatLength(m, cols);
    assert |m| * cols == cols * |m|;
    Chunks(Concat(m), |m|, cols)
  }

  /** Three samples of two states: the reshaped rows are runs of the
      buffer, where a transpose would give the columns `[0, 2, 4]` and
      `[1, 3, 5]`. */
  lemma ReshapeIsNotTranspose()
    ensures Reshape([[0, 1], [2, 3], [4, 5]], 2) == [[0, 1, 2], [3, 4, 5]]
  {
    var m: seq<seq<int>> := [[0, 1], [2, 3], [4, 5]];
    var m1: seq<seq<int>> := [[0, 1]];
    var m2: seq<seq<int>> := [[0, 1], [2, 3]];
    assert m1[..0] == [] && m2[..1] == m1 && m[..2] == m2;
    assert Concat(m1) == [0, 1];
    assert Concat(m2) == [0, 1, 2, 3];
    assert Concat(m) == [0, 1, 2, 3, 4, 5];
    var r := Reshape(m, 2);
    assert |r[0]| == 3 && |r[1]| == 3;
    assert r == r[..1] + [r[1]] && r[..1] == [r[0]];
    ConcatSnoc(r[..1], r[1]);
    ConcatSnoc([], r[0]);
    assert Concat(r) == r[0] + r[1];
    assert r[0] == Concat(r)[..3] == [0, 1, 2];
    assert r[1] == Concat(r)[3..] == [3, 4, 5];
    assert r == [r[0], r[1]];
  }

  /** The largest entry, numpy's `max` over all entries. */
  function MaxOf(xs: seq<int>): (r: int)
    requires |xs| > 0
    ensures forall k :: 0 <= k < |xs| ==> xs[k] <= r
    ensures r in xs
  {
    if |xs| == 1 then xs[0]
    else
      var front := MaxOf(xs[..|xs| - 1]);
      if xs[|xs| - 1] > front then xs[|xs| - 1] else front
  }

  /** `plot_hmm`: the number of rows is one more than the largest state. */
  function HmmRows(m: seq<seq<int>>): int
    requires |Concat(m)| > 0
  {
    MaxOf(Concat(m)) + 1
  }

  /** The states a histogram can count in: numpy accepts an index from
      `-n` (counted from the end) to `n - 1`. */
  predicate ValidStates(data: seq<seq<int>>, cols: nat, n: nat) {
    Rectangular(data, cols) &&
    forall s, c :: 0 <= s < |data| && 0 <= c < cols ==> -(n as int) <= data[s][c] < n
  }

  /** The row count `plot_hmm` picks is above every state; for states that
      are never negative it is positive and every state selects its own
      row. */
  lemma StatesFitHmmRows(m: seq<seq<int>>, cols: nat)
    requires Rectangular(m, cols) && |Concat(m)| > 0
    ensures forall s, c :: 0 <= s < |m| && 0 <= c < cols ==> m[s][c] < HmmRows(m)
    ensures (forall s, c :: 0 <= s < |m| && 0 <= c < cols ==> m[s][c] >= 0) ==>
      HmmRows(m) > 0 && ValidStates(m, cols, HmmRows(m))
  {
    forall s, c | 0 <= s < |m| && 0 <= c < cols ensures m[s][c] < HmmRows(m) {
      ConcatContains(m, s, c);
    }
    var mx := MaxOf(Concat(m));
    if forall s, c :: 0 <= s < |m| && 0 <= c < cols ==> m[s][c] >= 0 {
      ConcatHasEntry(m, cols, mx);
    }
  }

  lemma {:induction false} ConcatHasEntry(m: seq<seq<int>>, cols: nat, x: int)
    requires Rectangular(m, cols) && x in Concat(m)
    ensures exists s, c :: 0 <= s < |m| && 0 <= c < cols && m[s][c] == x
    decreases |m|
  {
    var front := m[..|m| - 1];
    if x in Concat(front) {
      ConcatHasEntry(front, cols, x);
      var s, c :| 0 <= s < |front| && 0 <= c < cols && front[s][c] == x;
      assert m[s][c] == x;
    } else {
      var c :| 0 <= c < |m[|m| - 1]| && m[|m| - 1][c] == x;
      assert m[|m| - 1][c] == x;
    }
  }

  function Sum(ws: seq<real>): real {
    if ws == [] then 0.0 else Sum(ws[..|ws| - 1]) + ws[|ws| - 1]
  }

  /** Weights are looked up for every sample and divided by their sum. */
  predicate WeightsFit(weights: Option<seq<real>>, samples: nat) {
    weights.Some? ==> samples <= |weights.value| && Sum(weights.value) != 0.0
  }

  /** What one sample adds to a cell: its normalized weight, or `1/N`. */
  function Weight(weights: Option<seq<real>>, samples: nat, s: nat): real
    requires WeightsFit(weights, samples) && s < samples
  {
    if weights.Some? then weights.value[s] / Sum(weights.value) else 1.0 / samples as real
  }

  /** The row a state selects, a negative one counted from the end. */
  function Row(state: int, n: nat): (r: nat)
    requires -(n as int) <= state < n
    ensures r < n
    ensures state >= 0 ==> r == state
  {
    if state < 0 then state + n else state
  }

  /** The mass the first `s` samples put in cell `(r, c)`. */
  function Mass(data: seq<seq<int>>, cols: nat, n: nat, weights: Option<seq<real>>, r: nat, c: nat, s: nat): real
    requires ValidStates(data, cols, n) && WeightsFit(weights, |data|)
    requires c < cols && s <= |data|
  {
    if s == 0 then 0.0
    else
      Mass(data, cols, n, weights, r, c, s - 1) +
      (if Row(data[s - 1][c], n) == r then Weight(weights, |data|, s - 1) else 0.0)
  }

  /** `bincount_hist`: an `n` by `cols` matrix of zeros to which every
      sample adds its weight, in each column, in the row of its state.
      Sample `s` reads `weights[s]`, so with fewer weights than samples the
      loop raises an IndexError at the first sample without one. */
  method BincountHist(data: seq<seq<int>>, cols: nat, n: nat, weights: Option<seq<real>>)
    returns (r: Result<array2<real>>)
    requires ValidStates(data, cols, n)
    requires weights.Some? ==> Sum(weights.value) != 0.0
    ensures r.Err? <==> weights.Some? && |weights.value| < |data|
    ensures r.Err? ==> r.error == Panic("IndexError")
    ensures r.Ok? ==> fresh(r.value) && r.value.Length0 == n && r.value.Length1 == cols
    ensures r.Ok? ==> forall row, c :: 0 <= row < n && 0 <= c < cols ==>
      r.value[row, c] == Mass(data, cols, n, weights, row, c, |data|)
  {
    var counts := new real[n, cols]((row, c) => 0.0);
    var normalized: seq<real> := [];
    if weights.Some? {
      var total := Sum(weights.value);
      normalized := seq(|weights.value|, k requires 0 <= k < |weights.value| => weights.value[k] / total);
    }
    for sample := 0 to |data|
      invariant weights.Some? ==> sample <= |weights.value|
      invariant WeightsFit(weights, |data|) ==> forall row, c :: 0 <= row < n && 0 <= c < cols ==>
        counts[row, c] == Mass(data, cols, n, weights, row, c, sample)
    {
      if weights.Some? && sample >= |normalized| {
        return Err(Panic("IndexError"));
      }
      var weight := if weights.Some? then normalized[sample] else 1.0 / |data| as real;
      assert WeightsFit(weights, |data|) ==> weight == Weight(weights, |data|, sample);
      for i := 0 to cols
        invariant WeightsFit(weights, |data|) ==> forall row, c :: 0 <= row < n && 0 <= c < cols ==>
          counts[row, c] == Mass(data, cols, n, weights, row, c, sample) +
            (if c < i && Row(data[sample][c], n) == row then weight else 0.0)
      {
        var state := data[sample][i];
        var row := if state < 0 then state + n else state;
        counts[row, i] := counts[row, i] + weight;
      }
    }
    r := Ok(counts);
  }

  /** The mass of column `c` in the first `k` rows after `s` samples. */
  function ColumnTotal(data: seq<seq<int>>, cols: nat, n: nat, weights: Option<seq<real>>, c: nat, k: nat, s: nat): real
    requires ValidStates(data, cols, n) && WeightsFit(weights, |data|)
    requires c < cols && s <= |data|
  {
    if k == 0 then 0.0
    else ColumnTotal(data, cols, n, weights, c, k - 1, s) + Mass(data, cols, n, weights, k - 1, c, s)
  }

  /** The total weight of the first `s` samples. */
  function TotalWeight(weights: Option<seq<real>>, samples: nat, s: nat): real
    requires WeightsFit(weights, samples) && s <= samples
  {
    if s == 0 then 0.0 else TotalWeight(weights, samples, s - 1) + Weight(weights, samples, s - 1)
  }

  /** A sample adds to the first `k` rows of a column exactly when its
      state's row is one of them: each sample lands in one cell. */
  lemma {:induction false} ColumnTotalStep(data: seq<seq<int>>, cols: nat, n: nat, weights: Option<seq<real>>,
                                           c: nat, k: nat, s: nat)
    requires ValidStates(data, cols, n) && WeightsFit(weights, |data|)
    requires c < cols && s < |data|
    ensures ColumnTotal(data, cols, n, weights, c, k, s + 1) ==
      ColumnTotal(data, cols, n, weights, c, k, s) +
      (if Row(data[s][c], n) < k then Weight(weights, |data|, s) else 0.0)
    decreases k
  {
    if k > 0 {
      ColumnTotalStep(data, cols, n, weights, c, k - 1, s);
    }
  }

  /** Every column holds the total weight of the samples. */
  lemma {:induction false} ColumnHoldsTotalWeight(data: seq<seq<int>>, cols: nat, n: nat, weights: Option<seq<real>>,
                                                  c: nat, s: nat)
    requires ValidStates(data, cols, n) && WeightsFit(weights, |data|)
    requires c < cols && s <= |data|
    ensures ColumnTotal(data, cols, n, weights, c, n, s) == TotalWeight(weights, |data|, s)
    decreases s
  {
    if s > 0 {
      ColumnHoldsTotalWeight(data, cols, n, weights, c, s - 1);
      ColumnTotalStep(data, cols, n, weights, c, n, s - 1);
    } else {
      ColumnTotalEmpty(data, cols, n, weights, c, n);
    }
  }

  lemma {:induction false} ColumnTotalEmpty(data: seq<seq<int>>, cols: nat, n: nat, weights: Option<seq<real>>,
                                            c: nat, k: nat)
    requires ValidStates(data, cols, n) && WeightsFit(weights, |data|) && c < cols
    ensures ColumnTotal(data, cols, n, weights, c, k, 0) == 0.0
    decreases k
  {
    if k > 0 {
      ColumnTotalEmpty(data, cols, n, weights, c, k - 1);
    }
  }

  lemma {:induction false} UnweightedTotal(samples: nat, s: nat)
    requires 0 < samples && s <= samples
    ensures TotalWeight(None, samples, s) == s as real / samples as real
    decreases s
  {
    if s > 0 {
      UnweightedTotal(samples, s - 1);
    }
  }

  lemma {:induction false} WeightedTotal(ws: seq<real>, samples: nat, s: nat)
    requires WeightsFit(Some(ws), samples) && s <= samples
    ensures TotalWeight(Some(ws), samples, s) == Sum(ws[..s]) / Sum(ws)
    decreases s
  {
    if s > 0 {
      WeightedTotal(ws, samples, s - 1);
      assert ws[..s][..s - 1] == ws[..s - 1];
    }
  }

  /** Every column of the chart sums to 1: without weights when there is a
      sample, with weights when there is one per sample and they do not
      sum to zero. */
  lemma ColumnsSumToOne(data: seq<seq<int>>, cols: nat, n: nat, weights: Option<seq<real>>, c: nat)
    requires ValidStates(data, cols, n) && WeightsFit(weights, |data|) && c < cols
    requires |data| > 0
    requires weights.Some? ==> |weights.value| == |data|
    ensures ColumnTotal(data, cols, n, weights, c, n, |data|) == 1.0
  {
    ColumnHoldsTotalWeight(data, cols, n, weights, c, |data|);
    if weights.Some? {
      WeightedTotal(weights.value, |data|, |data|);
      assert weights.value[..|data|] == weights.value;
      DivSelf(Sum(weights.value));
    } else {
      UnweightedTotal(|data|, |data|);
      DivSelf(|data| as real);
    }
  }

  /** What `plot` hands to `plot_hmm`: one row of `T` states per sample,
      at least one state, none negative. */
  predicate HmmInput(samples: seq<seq<int>>, T: nat) {
    Rectangular(samples, T) && |Concat(samples)| > 0 &&
    forall s, c :: 0 <= s < |samples| && 0 <= c < T ==> samples[s][c] >= 0
  }

  /** The reshaped matrix holds the same states, so `plot_hmm` sizes it
      like the samples and every state has its own row. */
  lemma ReshapedStatesValid(samples: seq<seq<int>>, T: nat)
    requires HmmInput(samples, T)
    ensures HmmRows(Reshape(samples, T)) == HmmRows(samples) > 0
    ensures ValidStates(Reshape(samples, T), |samples|, HmmRows(samples))
  {
    var data := Reshape(samples, T);
    forall s, c | 0 <= s < |data| && 0 <= c < |samples| ensures data[s][c] >= 0 {
      ConcatContains(data, s, c);
      ConcatHasEntry(samples, T, data[s][c]);
    }
    StatesFitHmmRows(data, |samples|);
  }

  /** The mass `plot_hmm` puts in cell `(row, c)`: the `T` reshaped rows are
      the histogram's samples, each weighted by one of the first `T`
      weights. */
  function HmmMass(samples: seq<seq<int>>, T: nat, weights: Option<seq<real>>, row: nat, c: nat): real
    requires HmmInput(samples, T) && WeightsFit(weights, T) && c < |samples|
  {
    ReshapedStatesValid(samples, T);
    Mass(Reshape(samples, T), |samples|, HmmRows(samples), weights, row, c, T)
  }

  /** The sum of column `c` of the chart `plot_hmm` draws. */
  function HmmColumnTotal(samples: seq<seq<int>>, T: nat, weights: Option<seq<real>>, c: nat): real
    requires HmmInput(samples, T) && WeightsFit(weights, T) && c < |samples|
  {
    ReshapedStatesValid(samples, T);
    ColumnTotal(Reshape(samples, T), |samples|, HmmRows(samples), weights, c, HmmRows(samples), T)
  }

  /** `plot` for a program returning state vectors: the `N` by `T` samples
      matrix is reshaped to `T` rows of `N`, `plot_hmm` counts its rows up
      to the largest state, and `bincount_hist` reads one weight per
      reshaped row, so more state positions than weights raise. */
  method PlotHmm(samples: seq<seq<int>>, T: nat, weights: Option<seq<real>>)
    returns (r: Result<array2<real>>)
    requires HmmInput(samples, T)
    requires weights.Some? ==> Sum(weights.value) != 0.0
    ensures r.Err? <==> weights.Some? && |weights.value| < T
    ensures r.Err? ==> r.error == Panic("IndexError")
    ensures r.Ok? ==> fresh(r.value) && r.value.Length0 == HmmRows(samples) && r.value.Length1 == |samples|
    ensures r.Ok? ==> forall row, c :: 0 <= row < r.value.Length0 && 0 <= c < |samples| ==>
      r.value[row, c] == HmmMass(samples, T, weights, row, c)
  {
    var data := Reshape(samples, T);
    ReshapedStatesValid(samples, T);
    r := BincountHist(data, |samples|, HmmRows(data), weights);
  }

  /** Each of the `N` columns `plot_hmm` draws sums to 1 without weights,
      but with the `N` weights only to the share of the first `T` of them:
      the histogram has `T` samples and reads `weights[0]` to
      `weights[T - 1]`. */
  lemma PlotHmmColumnTotals(samples: seq<seq<int>>, T: nat, weights: Option<seq<real>>, c: nat)
    requires HmmInput(samples, T) && WeightsFit(weights, T) && c < |samples|
    ensures HmmColumnTotal(samples, T, weights, c) ==
      if weights.Some? then Sum(weights.value[..T]) / Sum(weights.value) else 1.0
  {
    var data := Reshape(samples, T);
    ReshapedStatesValid(samples, T);
    ColumnHoldsTotalWeight(data, |samples|, HmmRows(samples), weights, c, T);
    if weights.Some? {
      WeightedTotal(weights.value, T, T);
    } else {
      ConcatLength(samples, T);
      UnweightedTotal(T, T);
      DivSelf(T as real);
    }
  }

  /** Three samples of two states with equal weights: every column of the
      chart holds two thirds of the mass, not all of it. */
  lemma EqualWeightsLoseMass()
    ensures HmmInput([[0, 1], [1, 0], [0, 0]], 2) && WeightsFit(Some([1.0, 1.0, 1.0]), 2)
    ensures HmmColumnTotal([[0, 1], [1, 0], [0, 0]], 2, Some([1.0, 1.0, 1.0]), 0) == 2.0 / 3.0
  {
    var m: seq<seq<int>> := [[0, 1], [1, 0], [0, 0]];
    ConcatLength(m, 2);
    var ws := [1.0, 1.0, 1.0];
    assert ws[..2] == [1.0, 1.0] && [1.0, 1.0][..1] == [1.0] && [1.0][..0] == [];
    assert Sum([1.0]) == 1.0;
    assert Sum([1.0, 1.0]) == 2.0;
    assert Sum(ws) == 3.0;
    PlotHmmColumnTotals(m, 2, Some(ws), 0);
  }

  lemma DivSelf(x: real)
    requires x != 0.0
    ensures x / x == 1.0
  {
  }
}

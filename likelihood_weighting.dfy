/** The likelihood-weighting inference algorithm
    (ppl-impl/src/inference/likelihood_weighting.rs): samples are drawn from
    the prior, every `observe` adds the log-density of the observed value to
    the running log-weight, and each finished evaluation records its result
    with its log-weight. */
module LikelihoodWeightingAlg {
  import opened Types
  import opened Inference
  import opened Distributions

  /** The algorithm's fields as a value. */
  datatype LwState = LwState(logW: real, results: seq<Value>, weights: seq<real>)

  /** Every finished evaluation has exactly one weight. */
  predicate Consistent(s: LwState) {
    |s.results| == |s.weights|
  }

  /** `LikelihoodWeighting::new`. */
  function Init(): (s: LwState)
    ensures Consistent(s) && s.logW == 0.0 && s.results == [] && s.weights == []
  {
    LwState(0.0, [], [])
  }

  /** `observe`: the log-density of `val` is added to the log-weight and `val`
      is returned unchanged; a failing density leaves the state as it was. */
  function ObserveStep(o: Oracle, s: LwState, d: Dist, val: Value): (r: (Result<Value>, LwState))
    ensures r.0.Ok? <==> o.logPdf(d, val).Ok?
    ensures r.0.Ok? ==> r.0.value == val && r.1 == s.(logW := s.logW + o.logPdf(d, val).value)
    ensures r.0.Err? ==> r.0.error == o.logPdf(d, val).error && r.1 == s
  {
    match o.logPdf(d, val)
    case Err(e) => (Err(e), s)
    case Ok(lp) => (Ok(val), s.(logW := s.logW + lp))
  }

  /** `finish_one_evaluation`: the result and the current log-weight are
      recorded side by side and the log-weight starts again from zero. */
  function FinishStep(s: LwState, result: Value): (t: LwState)
    ensures Consistent(s) ==> Consistent(t)
    ensures t.logW == 0.0
    ensures t.results == s.results + [result] && t.weights == s.weights + [s.logW]
  {
    LwState(0.0, s.results + [result], s.weights + [s.logW])
  }

  /** Entry `k` of the data file: the flattened result and its weight. */
  function WeightedEntry(r: ProgramResult, w: real): ProgramResult {
    Many([r, One(IntOrFloat.Float(w))])
  }

  /** `finalize_and_make_dataset`: results are flattened, then zipped with
      the weights (a zip stops at the shorter of the two lists). */
  function Finalize(s: LwState): (r: Result<DataFile>)
    ensures r.Ok? <==> forall k :: 0 <= k < |s.results| ==> IsNumericTree(s.results[k])
    ensures r.Err? ==> r.error == RuntimeError(NonNumericMessage)
    ensures r.Ok? ==> r.value.hasWeights
    ensures r.Ok? ==> |r.value.data| == if |s.results| <= |s.weights| then |s.results| else |s.weights|
    ensures r.Ok? ==> forall k :: 0 <= k < |r.value.data| ==>
      k < |s.results| && k < |s.weights| && FlattenValue(s.results[k]).Ok? &&
      r.value.data[k] == WeightedEntry(FlattenValue(s.results[k]).value, s.weights[k])
  {
    forall k | 0 <= k < |s.results| ensures FlattenValue(s.results[k]).Ok? <==> IsNumericTree(s.results[k]) {
      FlattenValueSucceeds(s.results[k]);
    }
    FlattenSucceeds(s.results);
    match Flatten(s.results)
    case Err(e) => Err(e)
    case Ok(vals) =>
      var n := if |vals| <= |s.weights| then |vals| else |s.weights|;
      Ok(DataFile(true, seq(n, k requires 0 <= k < n => WeightedEntry(vals[k], s.weights[k]))))
  }

  /** One evaluation as the algorithm sees it: the log-densities of its
      successful observations, then its result. */
  datatype Evaluation = Evaluation(logPdfs: seq<real>, result: Value)

  function Sum(xs: seq<real>): real {
    if xs == [] then 0.0 else Sum(xs[..|xs| - 1]) + xs[|xs| - 1]
  }

  /** The observations of one evaluation, applied in order. */
  function ObserveAll(s: LwState, lps: seq<real>): LwState {
    if lps == [] then s else ObserveAll(s, lps[..|lps| - 1]).(logW := ObserveAll(s, lps[..|lps| - 1]).logW + lps[|lps| - 1])
  }

  /** A sequence of finished evaluations, applied in order. */
  function Run(s: LwState, evals: seq<Evaluation>): LwState {
    if evals == [] then s
    else
      var e := evals[|evals| - 1];
      FinishStep(ObserveAll(Run(s, evals[..|evals| - 1]), e.logPdfs), e.result)
  }

  lemma {:induction false} ObserveAllAdds(s: LwState, lps: seq<real>)
    ensures ObserveAll(s, lps) == s.(logW := s.logW + Sum(lps))
    decreases |lps|
  {
    if lps != [] {
      ObserveAllAdds(s, lps[..|lps| - 1]);
    }
  }

  /** After any run from `new`, the k-th weight is the sum of the
      log-densities observed during the k-th evaluation, the k-th result is
      that evaluation's result, and the log-weight is back at zero. */
  lemma {:induction false} RunRecordsWeights(evals: seq<Evaluation>)
    ensures Consistent(Run(Init(), evals))
    ensures |Run(Init(), evals).results| == |evals|
    ensures Run(Init(), evals).logW == 0.0
    ensures forall k :: 0 <= k < |evals| ==>
      Run(Init(), evals).results[k] == evals[k].result &&
      Run(Init(), evals).weights[k] == Sum(evals[k].logPdfs)
    decreases |evals|
  {
    if evals != [] {
      var front := evals[..|evals| - 1];
      RunRecordsWeights(front);
      var e := evals[|evals| - 1];
      ObserveAllAdds(Run(Init(), front), e.logPdfs);
    }
  }

  /** The algorithm's object; its fields are updated in place. */
  class LikelihoodWeighting {
    var logW: real
    var results: seq<Value>
    var weights: seq<real>

    function State(): LwState
      reads this
    {
      LwState(logW, results, weights)
    }

    constructor ()
      ensures State() == Init()
    {
      logW := 0.0;
      results := [];
      weights := [];
    }

    /** `sample`: a draw from the distribution; the weight is not touched. */
    method Sample(rng: Rng, d: Dist, number: Option<nat>) returns (r: Result<Value>)
      modifies rng
      ensures r == rng.oracle.draw(d, old(rng.drawn))
      ensures rng.drawn == old(rng.drawn) + 1
    {
      r := rng.Sample(d);
    }

    method Observe(rng: Rng, d: Dist, val: Value, number: Option<nat>) returns (r: Result<Value>)
      modifies this
      ensures (r, State()) == ObserveStep(rng.oracle, old(State()), d, val)
    {
      var lp := rng.oracle.logPdf(d, val);
      if lp.Err? {
        return Err(lp.error);
      }
      logW := logW + lp.value;
      r := Ok(val);
    }

    method FinishOneEvaluation(result: Value)
      modifies this
      ensures State() == FinishStep(old(State()), result)
    {
      var w := logW;
      logW := 0.0;
      results := results + [result];
      weights := weights + [w];
    }

    /** The weighted data file of this object's results: it fails exactly
        when some result is not a numeric tree; otherwise entry `k` holds
        result `k`, flattened, and weight `k`, up to the shorter list. */
    function FinalizeAndMakeDataset(): (r: Result<DataFile>)
      reads this
      ensures r.Ok? <==> forall k :: 0 <= k < |results| ==> IsNumericTree(results[k])
      ensures r.Err? ==> r.error == RuntimeError(NonNumericMessage)
      ensures r.Ok? ==> r.value.hasWeights
      ensures r.Ok? ==> |r.value.data| == if |results| <= |weights| then |results| else |weights|
      ensures r.Ok? ==> forall k :: 0 <= k < |r.value.data| ==>
        r.value.data[k].Many? && |r.value.data[k].items| == 2 &&
        Unflatten(r.value.data[k].items[0]) == results[k] &&
        r.value.data[k].items[1] == One(IntOrFloat.Float(weights[k]))
    {
      var d := Finalize(State());
      if d.Err? then d
      else
        assert forall k :: 0 <= k < |d.value.data| ==> Unflatten(FlattenValue(results[k]).value) == results[k] by {
          forall k | 0 <= k < |d.value.data| ensures Unflatten(FlattenValue(results[k]).value) == results[k] {
            FlattenValueRoundTrip(results[k]);
          }
        }
        d
    }
  }
}

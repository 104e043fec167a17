/** Sampling from the prior only (ppl-impl/src/inference/prior_only.rs):
    observations are ignored and replaced by fresh draws, and results are
    recorded without weights. */
module PriorOnlyAlg {
  import opened Types
  import opened Inference
  import opened Distributions

  datatype PoState = PoState(results: seq<Value>)

  /** `finalize_and_make_dataset`: the flattened results, unweighted. */
  function Finalize(s: PoState): (r: Result<DataFile>)
    ensures r.Ok? <==> forall k :: 0 <= k < |s.results| ==> IsNumericTree(s.results[k])
    ensures r.Err? ==> r.error == RuntimeError(NonNumericMessage)
    ensures r.Ok? ==> !r.value.hasWeights && |r.value.data| == |s.results|
    ensures r.Ok? ==> UnflattenAll(r.value.data) == s.results
  {
    forall k | 0 <= k < |s.results| ensures FlattenValue(s.results[k]).Ok? <==> IsNumericTree(s.results[k]) {
      FlattenValueSucceeds(s.results[k]);
    }
    FlattenSucceeds(s.results);
    match Flatten(s.results)
    case Err(e) => Err(e)
    case Ok(vals) =>
      FlattenRoundTrip(s.results);
      Ok(DataFile(false, vals))
  }

  /** The algorithm's object; its only field grows in place. */
  class PriorOnly {
    var results: seq<Value>

    function State(): PoState
      reads this
    {
      PoState(results)
    }

    constructor ()
      ensures results == []
    {
      results := [];
    }

    /** `sample`: a draw from the distribution. */
    method Sample(rng: Rng, d: Dist, number: Option<nat>) returns (r: Result<Value>)
      modifies rng
      ensures r == rng.oracle.draw(d, old(rng.drawn))
      ensures rng.drawn == old(rng.drawn) + 1
    {
      r := rng.Sample(d);
    }

    /** `observe`: the observed value is ignored; a fresh draw is returned. */
    method Observe(rng: Rng, d: Dist, val: Value, number: Option<nat>) returns (r: Result<Value>)
      modifies rng
      ensures r == rng.oracle.draw(d, old(rng.drawn))
      ensures rng.drawn == old(rng.drawn) + 1
    {
      r := rng.Sample(d);
    }

    /** `finish_one_evaluation`: the result is appended, nothing else changes. */
    method FinishOneEvaluation(result: Value)
      modifies this
      ensures results == old(results) + [result]
    {
      results := results + [result];
    }

    /** The unweighted data file of this object's results: it fails exactly
        when some result is not a numeric tree; otherwise it holds one
        entry per result, from which the results read back in order. */
    function FinalizeAndMakeDataset(): (r: Result<DataFile>)
      reads this
      ensures r.Ok? <==> forall k :: 0 <= k < |results| ==> IsNumericTree(results[k])
      ensures r.Err? ==> r.error == RuntimeError(NonNumericMessage)
      ensures r.Ok? ==> !r.value.hasWeights && |r.value.data| == |results|
      ensures r.Ok? ==> forall k :: 0 <= k < |results| ==> Unflatten(r.value.data[k]) == results[k]
    {
      Finalize(State())
    }
  }
}

/** What an inference run produces (ppl-impl/src/inference.rs and the
    result shapes of ppl-impl/src/main.rs): a data file of numeric results,
    nested like the vectors the program returned. */
module Inference {
  import opened Types

  /** A numeric leaf of a result. main.rs calls this type `ResultValue`
      and gives it a Boolean case too; `flatten_to_numeric_vec_only` only
      builds the two numeric cases. */
  datatype IntOrFloat = Int(i: int) | Float(f: real)

  datatype ProgramResult = One(leaf: IntOrFloat) | Many(items: seq<ProgramResult>)

  datatype DataFile = DataFile(hasWeights: bool, data: seq<ProgramResult>)

  const NonNumericMessage := "Program should only return numbers or vecs of numbers."

  /** A number, or a vector whose elements are all, at every depth, numbers. */
  predicate IsNumericTree(v: Value)
  {
    match v
    case Integer(_) => true
    case Float(_) => true
    case Vector(vs) => forall k :: 0 <= k < |vs| ==> IsNumericTree(vs[k])
    case _ => false
  }

  /** `flatten_to_numeric_vec_only` on one value. */
  function FlattenValue(v: Value): Result<ProgramResult>
    decreases v, 1
  {
    match v
    case Integer(i) => Ok(One(Int(i)))
    case Float(f) => Ok(One(IntOrFloat.Float(f)))
    case Vector(vs) =>
      (match Flatten(vs)
       case Ok(rs) => Ok(Many(rs))
       case Err(e) => Err(e))
    case _ => Err(RuntimeError(NonNumericMessage))
  }

  /** `flatten_to_numeric_vec_only`: each value converted in order; one
      failure fails the whole list. */
  function Flatten(vals: seq<Value>): (r: Result<seq<ProgramResult>>)
    ensures r.Ok? ==> |r.value| == |vals|
    ensures r.Ok? ==> forall k :: 0 <= k < |vals| ==> FlattenValue(vals[k]) == Ok(r.value[k])
    ensures r.Err? ==> r.error == RuntimeError(NonNumericMessage)
    decreases vals, 0
  {
    if vals == [] then Ok([])
    else
      var last := vals[|vals| - 1];
      assert last in vals;
      match Flatten(vals[..|vals| - 1])
      case Err(e) => Err(e)
      case Ok(front) =>
        match FlattenValue(last)
        case Err(e) => Err(e)
        case Ok(x) => Ok(front + [x])
  }

  /** The value a result stands for: the inverse of flattening. */
  function Unflatten(r: ProgramResult): Value
  {
    match r
    case One(leaf) => if leaf.Int? then Integer(leaf.i) else Value.Float(leaf.f)
    case Many(rs) => Vector(UnflattenAll(rs))
  }

  /** Element `k` is the value result `k` stands for. */
  function UnflattenAll(rs: seq<ProgramResult>): (vs: seq<Value>)
    ensures |vs| == |rs|
    ensures forall k :: 0 <= k < |rs| ==> vs[k] == Unflatten(rs[k])
    decreases rs
  {
    if rs == [] then []
    else
      assert rs[|rs| - 1] in rs;
      UnflattenAll(rs[..|rs| - 1]) + [Unflatten(rs[|rs| - 1])]
  }

  /** Flattening succeeds exactly on numeric trees. */
  lemma {:induction false} FlattenValueSucceeds(v: Value)
    ensures FlattenValue(v).Ok? <==> IsNumericTree(v)
    decreases v
  {
    if v.Vector? {
      var vs := v.elems;
      forall k | 0 <= k < |vs| ensures FlattenValue(vs[k]).Ok? <==> IsNumericTree(vs[k]) {
        assert vs[k] in vs;
        FlattenValueSucceeds(vs[k]);
      }
      FlattenSucceeds(vs);
    }
  }

  lemma {:induction false} FlattenSucceeds(vals: seq<Value>)
    requires forall k :: 0 <= k < |vals| ==> (FlattenValue(vals[k]).Ok? <==> IsNumericTree(vals[k]))
    ensures Flatten(vals).Ok? <==> forall k :: 0 <= k < |vals| ==> IsNumericTree(vals[k])
    decreases |vals|
  {
    if vals != [] {
      var front := vals[..|vals| - 1];
      FlattenSucceeds(front);
      if !Flatten(front).Ok? {
        var k :| 0 <= k < |front| && !IsNumericTree(front[k]);
        assert vals[k] == front[k];
      }
    }
  }

  /** Flattening loses nothing: unflattening gives the values back. */
  lemma {:induction false} FlattenValueRoundTrip(v: Value)
    requires FlattenValue(v).Ok?
    ensures Unflatten(FlattenValue(v).value) == v
    decreases v
  {
    if v.Vector? {
      var vs := v.elems;
      var rs := Flatten(vs).value;
      forall k | 0 <= k < |vs| ensures UnflattenAll(rs)[k] == vs[k] {
        assert vs[k] in vs;
        FlattenValueRoundTrip(vs[k]);
      }
      assert UnflattenAll(rs) == vs;
    }
  }

  lemma FlattenRoundTrip(vals: seq<Value>)
    requires Flatten(vals).Ok?
    ensures UnflattenAll(Flatten(vals).value) == vals
  {
    var rs := Flatten(vals).value;
    forall k | 0 <= k < |vals| ensures UnflattenAll(rs)[k] == vals[k] {
      FlattenValueRoundTrip(vals[k]);
    }
  }

  /** Every result is reached: flattening the value a result stands for
      gives that result back. */
  lemma {:induction false} UnflattenRoundTrip(r: ProgramResult)
    ensures FlattenValue(Unflatten(r)) == Ok(r)
    decreases r
  {
    if r.Many? {
      var rs := r.items;
      var vs := UnflattenAll(rs);
      forall k | 0 <= k < |rs| ensures FlattenValue(vs[k]) == Ok(rs[k]) {
        assert rs[k] in rs;
        UnflattenRoundTrip(rs[k]);
      }
      UnflattenAllRoundTrip(rs);
      assert Unflatten(r) == Vector(vs);
    }
  }

  lemma {:induction false} UnflattenAllRoundTrip(rs: seq<ProgramResult>)
    requires forall k :: 0 <= k < |rs| ==> FlattenValue(UnflattenAll(rs)[k]) == Ok(rs[k])
    ensures Flatten(UnflattenAll(rs)) == Ok(rs)
    decreases |rs|
  {
    if rs != [] {
      var front := rs[..|rs| - 1];
      var vs := UnflattenAll(rs);
      assert vs[..|vs| - 1] == UnflattenAll(front);
      forall k | 0 <= k < |front| ensures FlattenValue(UnflattenAll(front)[k]) == Ok(front[k]) {
        assert UnflattenAll(front)[k] == vs[k];
      }
      UnflattenAllRoundTrip(front);
      assert rs == front + [rs[|rs| - 1]];
    }
  }
}

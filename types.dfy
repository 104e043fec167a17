/** Runtime values of the FOPPL interpreter and their conversion helpers
    (ppl-impl/src/types.rs). Floating-point payloads are modelled as reals. */
module Types {

  datatype Option<+T> = None | Some(value: T)

  /** A runtime error carries its message. `Panic` stands for a Rust panic
      (integer division by zero, `unwrap` on `None`), or an exception that
      stops the Python renderer: it ends evaluation the same way an error
      does. */
  datatype Error = RuntimeError(message: string) | Panic(reason: string)

  datatype Result<+T> = Ok(value: T) | Err(error: Error) {
    predicate IsFailure() { Err? }

    function PropagateFailure<U>(): Result<U>
      requires Err?
    {
      Err(error)
    }

    function Extract(): T
      requires Ok?
    {
      value
    }
  }

  /** An opaque handle on a distribution object. Drawing from it and
      evaluating its log-density are external (see module Distributions). */
  datatype Dist = Dist(name: string, id: nat)

  datatype Value =
    | Float(f: real)
    | Integer(i: int)
    | Boolean(b: bool)
    | Distribution(dist: Dist)
    | Vector(elems: seq<Value>)
    | Null

  /** The tag of a value (`ValueType` in the source). */
  datatype ValueType = TFloat | TInteger | TBoolean | TDistribution | TVector | TNull

  predicate IsNumeric(v: Value) {
    v.Integer? || v.Float?
  }

  /** The numeric payload of a number, an Integer converted to a float. */
  function NumericValue(v: Value): real
    requires IsNumeric(v)
  {
    if v.Integer? then v.i as real else v.f
  }

  function GetType(v: Value): (t: ValueType)
    ensures t == TFloat <==> v.Float?
    ensures t == TInteger <==> v.Integer?
    ensures t == TBoolean <==> v.Boolean?
    ensures t == TDistribution <==> v.Distribution?
    ensures t == TVector <==> v.Vector?
    ensures t == TNull <==> v.Null?
  {
    match v
    case Float(_) => TFloat
    case Integer(_) => TInteger
    case Boolean(_) => TBoolean
    case Distribution(_) => TDistribution
    case Vector(_) => TVector
    case Null => TNull
  }

  /** The name a tag prints as: its `Display` writes the `Debug` form,
      which is the variant's own name, so the error messages of the
      built-ins say "Integer" and "Float". */
  function TypeName(t: ValueType): (name: string)
    ensures name == "Integer" <==> t == TInteger
    ensures name == "Float" <==> t == TFloat
    ensures name in {"Float", "Integer", "Boolean", "Distribution", "Vector", "Null"}
  {
    match t
    case TFloat => "Float"
    case TInteger => "Integer"
    case TBoolean => "Boolean"
    case TDistribution => "Distribution"
    case TVector => "Vector"
    case TNull => "Null"
  }

  /** Different tags print differently, so a message names its type
      unambiguously. */
  lemma TypeNameInjective(a: ValueType, b: ValueType)
    ensures TypeName(a) == TypeName(b) <==> a == b
  {
  }

  /** Only strictly positive integers convert to a size. */
  function TryIntoUsize(v: Value, message: string): (r: Result<nat>)
    ensures r.Ok? <==> v.Integer? && v.i > 0
    ensures r.Ok? ==> r.value == v.i && r.value > 0
    ensures r.Err? ==> r.error == RuntimeError(message)
  {
    match v
    case Integer(x) => if x > 0 then Ok(x) else Err(RuntimeError(message))
    case _ => Err(RuntimeError(message))
  }

  /** No float is ever accepted as an integer. */
  function TryIntoInteger(v: Value, message: string): (r: Result<int>)
    ensures r.Ok? <==> GetType(v) == TInteger
    ensures r.Ok? ==> Integer(r.value) == v
    ensures r.Err? ==> r.error == RuntimeError(message)
  {
    match v
    case Integer(x) => Ok(x)
    case _ => Err(RuntimeError(message))
  }

  /** No integer is ever accepted as a float. */
  function TryIntoFloat(v: Value, message: string): (r: Result<real>)
    ensures r.Ok? <==> GetType(v) == TFloat
    ensures r.Ok? ==> Float(r.value) == v
    ensures r.Err? ==> r.error == RuntimeError(message)
  {
    match v
    case Float(x) => Ok(x)
    case _ => Err(RuntimeError(message))
  }

  /** Integers and floats are accepted; an integer is converted to a float. */
  function TryIntoNumeric(v: Value, message: string): (r: Result<real>)
    ensures r.Ok? <==> GetType(v) == TInteger || GetType(v) == TFloat
    ensures v.Integer? ==> r == Ok(v.i as real)
    ensures v.Float? ==> r == Ok(v.f)
    ensures r.Err? ==> r.error == RuntimeError(message)
  {
    match v
    case Float(x) => Ok(x)
    case Integer(x) => Ok(x as real)
    case _ => Err(RuntimeError(message))
  }

  function TryIntoVector(v: Value, message: string): (r: Result<seq<Value>>)
    ensures r.Ok? <==> GetType(v) == TVector
    ensures r.Ok? ==> Vector(r.value) == v
    ensures r.Err? ==> r.error == RuntimeError(message)
  {
    match v
    case Vector(x) => Ok(x)
    case _ => Err(RuntimeError(message))
  }

  /** `try_into_numeric` on a vector of values: every element must be a
      number, and the numbers come out in the same order. */
  function VecTryIntoNumeric(vs: seq<Value>, message: string): (r: Result<seq<real>>)
    ensures r.Ok? <==> forall k :: 0 <= k < |vs| ==> IsNumeric(vs[k])
    ensures r.Ok? ==> |r.value| == |vs|
    ensures r.Ok? ==> forall k :: 0 <= k < |vs| ==> r.value[k] == NumericValue(vs[k])
    ensures r.Err? ==> r.error == RuntimeError(message)
  {
    if vs == [] then Ok([])
    else
      match VecTryIntoNumeric(vs[..|vs| - 1], message)
      case Err(e) => Err(e)
      case Ok(prefix) =>
        match TryIntoNumeric(vs[|vs| - 1], message)
        case Err(e) => Err(e)
        case Ok(x) => Ok(prefix + [x])
  }

  /** Succeeds exactly on a one-element vector and returns that element. */
  function TryIntoOne(vs: seq<Value>, message: string): (r: Result<Value>)
    ensures r.Ok? <==> |vs| == 1
    ensures r.Ok? ==> r.value == vs[0]
    ensures r.Err? ==> r.error == RuntimeError(message)
  {
    if |vs| != 1 then Err(RuntimeError(message)) else Ok(vs[|vs| - 1])
  }
}

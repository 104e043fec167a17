/** JSON documents as serde_json holds them, and the untagged serialization
    of a `ProgramResult` that ppl-impl/src/main.rs writes to a data file. */
module Json {
  import opened Inference

  const U64Limit: int := 0x1_0000_0000_0000_0000
  const I64Min: int := -0x8000_0000_0000_0000
  const I64Max: int := 0x7FFF_FFFF_FFFF_FFFF

  /** serde_json keeps a number as a non-negative u64, a negative i64 or an
      f64; a number written with a fraction or exponent is an f64. */
  datatype Number = PosInt(u: nat) | NegInt(i: int) | F64(f: real)

  predicate ValidNumber(n: Number) {
    match n
    case PosInt(u) => u < U64Limit
    case NegInt(i) => I64Min <= i < 0
    case F64(_) => true
  }

  datatype JsonValue =
    | JNull
    | JBool(b: bool)
    | JNumber(n: Number)
    | JString(s: string)
    | JArray(items: seq<JsonValue>)
    | JObject(fields: seq<(string, JsonValue)>)

  /** How serde_json stores an i64 it serializes. */
  function IntNumber(i: int): (n: Number)
    requires I64Min <= i <= I64Max
    ensures ValidNumber(n)
    ensures n.PosInt? <==> i >= 0
  {
    if i >= 0 then PosInt(i) else NegInt(i)
  }

  /** The leaves of a result fit a 64-bit integer, as an `i64` does. */
  predicate FitsI64(r: ProgramResult) {
    match r
    case One(leaf) => leaf.Int? ==> I64Min <= leaf.i <= I64Max
    case Many(rs) => forall k :: 0 <= k < |rs| ==> FitsI64(rs[k])
  }

  /** `#[serde(untagged)]` on `ProgramResult` and its leaf type: a leaf is
      written as a bare number and `Many` as an array of its items. */
  function ResultToJson(r: ProgramResult): (j: JsonValue)
    requires FitsI64(r)
    ensures r.One? ==> j.JNumber? && ValidNumber(j.n)
    ensures r.One? ==> (j.n.F64? <==> r.leaf.Float?)
    ensures r.Many? ==> j.JArray? && |j.items| == |r.items|
    ensures r.Many? ==> forall k :: 0 <= k < |r.items| ==> j.items[k] == ResultToJson(r.items[k])
  {
    match r
    case One(leaf) => if leaf.Int? then JNumber(IntNumber(leaf.i)) else JNumber(F64(leaf.f))
    case Many(rs) => JArray(seq(|rs|, k requires 0 <= k < |rs| => ResultToJson(rs[k])))
  }
}

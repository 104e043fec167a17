/** The conversion of a JSON document into a runtime value
    (`impl From<serde_json::Value> for Value`, ppl-impl/src/ancestral_sampler.rs). */
module AncestralSampler {
  import opened Types
  import opened Inference
  import opened Json

  /** Strings and objects are not supported: the conversion panics on them,
      at any depth. Numbers are as serde_json can hold them. */
  predicate Convertible(j: JsonValue) {
    match j
    case JString(_) => false
    case JObject(_) => false
    case JNumber(n) => ValidNumber(n)
    case JArray(items) => forall k :: 0 <= k < |items| ==> Convertible(items[k])
    case _ => true
  }

  /** An integer number: an i64 when it fits, otherwise its u64 is cast to
      i64, which wraps around. */
  function IntegerOf(n: Number): (i: int)
    requires ValidNumber(n) && !n.F64?
    ensures I64Min <= i <= I64Max
    ensures n.NegInt? ==> i == n.i
    ensures n.PosInt? && n.u <= I64Max ==> i == n.u
    ensures n.PosInt? && n.u > I64Max ==> i < 0 && (i - n.u) % U64Limit == 0
  {
    if n.NegInt? then n.i
    else if n.u <= I64Max then n.u
    else n.u - U64Limit
  }

  /** `Value::from`. */
  function FromJson(j: JsonValue): (v: Value)
    requires Convertible(j)
    ensures v.Null? <==> j.JNull?
    ensures v.Boolean? <==> j.JBool?
    ensures j.JBool? ==> v.b == j.b
    ensures v.Float? <==> j.JNumber? && j.n.F64?
    ensures v.Float? ==> v.f == j.n.f
    ensures v.Integer? <==> j.JNumber? && !j.n.F64?
    ensures v.Integer? ==> v.i == IntegerOf(j.n)
    ensures v.Vector? <==> j.JArray?
    ensures v.Vector? ==> |v.elems| == |j.items|
    ensures v.Vector? ==> forall k :: 0 <= k < |j.items| ==> v.elems[k] == FromJson(j.items[k])
    ensures !v.Distribution?
  {
    match j
    case JNull => Null
    case JBool(b) => Boolean(b)
    case JNumber(n) => if n.F64? then Value.Float(n.f) else Integer(IntegerOf(n))
    case JArray(items) => Vector(seq(|items|, k requires 0 <= k < |items| => FromJson(items[k])))
  }

  /** Values a JSON document can stand for: no distributions, integers
      within i64. */
  predicate Representable(v: Value) {
    match v
    case Integer(i) => I64Min <= i <= I64Max
    case Distribution(_) => false
    case Vector(vs) => forall k :: 0 <= k < |vs| ==> Representable(vs[k])
    case _ => true
  }

  /** A document that converts back to the value: the reference direction
      of the conversion, since `Value` itself has no serialization. */
  function ToJson(v: Value): (j: JsonValue)
    requires Representable(v)
    ensures Convertible(j)
    ensures v.Vector? ==> j.JArray? && |j.items| == |v.elems|
    ensures v.Vector? ==> forall k :: 0 <= k < |v.elems| ==> j.items[k] == ToJson(v.elems[k])
  {
    match v
    case Float(f) => JNumber(F64(f))
    case Integer(i) => JNumber(IntNumber(i))
    case Boolean(b) => JBool(b)
    case Vector(vs) => JArray(seq(|vs|, k requires 0 <= k < |vs| => ToJson(vs[k])))
    case Null => JNull
  }

  /** Converting what was written gives the value back. */
  lemma {:induction false} FromToJson(v: Value)
    requires Representable(v)
    ensures FromJson(ToJson(v)) == v
    decreases v
  {
    if v.Vector? {
      var vs := v.elems;
      var back := FromJson(ToJson(v));
      forall k | 0 <= k < |vs| ensures back.elems[k] == vs[k] {
        assert vs[k] in vs;
        FromToJson(vs[k]);
      }
    }
  }

  /** Without a u64 beyond i64, nothing is lost in the other direction
      either: writing the converted value gives the document back. */
  predicate NoWrap(j: JsonValue) {
    match j
    case JNumber(n) => n.PosInt? ==> n.u <= I64Max
    case JArray(items) => forall k :: 0 <= k < |items| ==> NoWrap(items[k])
    case _ => true
  }

  lemma {:induction false} ToFromJson(j: JsonValue)
    requires Convertible(j) && NoWrap(j)
    ensures Representable(FromJson(j))
    ensures ToJson(FromJson(j)) == j
    decreases j
  {
    if j.JArray? {
      var items := j.items;
      var v := FromJson(j);
      forall k | 0 <= k < |items| ensures Representable(v.elems[k]) && ToJson(v.elems[k]) == items[k] {
        assert items[k] in items;
        ToFromJson(items[k]);
      }
      assert Representable(v);
      var back := ToJson(v);
      assert |back.items| == |items|;
      assert forall k :: 0 <= k < |items| ==> back.items[k] == items[k];
    }
  }

  /** A u64 beyond i64 comes back negative: 2^63 reads as -2^63. */
  lemma WrapExample()
    ensures FromJson(JNumber(PosInt(I64Max + 1))) == Integer(I64Min)
  {
  }

  /** Reading back a result written to a data file gives the value that
      result stands for. */
  lemma {:induction false} ReadBackResult(r: ProgramResult)
    requires FitsI64(r)
    ensures Convertible(ResultToJson(r))
    ensures FromJson(ResultToJson(r)) == Unflatten(r)
    decreases r
  {
    if r.Many? {
      var rs := r.items;
      var j := ResultToJson(r);
      forall k | 0 <= k < |rs| ensures Convertible(j.items[k]) && FromJson(j.items[k]) == Unflatten(rs[k]) {
        assert rs[k] in rs;
        ReadBackResult(rs[k]);
      }
      assert Convertible(j);
      var back := FromJson(j);
      forall k | 0 <= k < |rs| ensures back.elems[k] == UnflattenAll(rs)[k] {
      }
    }
  }
}

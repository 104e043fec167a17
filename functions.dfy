/** The built-in functions of the interpreter (ppl-impl/src/functions.rs),
    applied to already-evaluated arguments, as the interpreter calls them. */
module Functions {
  import opened Types

  /** The tag `assert_all_numeric_type` has reached after the values `vals`:
      it starts at Integer, stays Integer while it sees Integers, turns to
      Float at a Float, and fails at anything else, including an Integer
      that follows a Float. */
  function NumericType(vals: seq<Value>): Result<ValueType>
  {
    if vals == [] then Ok(TInteger)
    else
      match NumericType(vals[..|vals| - 1])
      case Err(e) => Err(e)
      case Ok(t) =>
        var v := vals[|vals| - 1];
        if t == TInteger && v.Integer? then Ok(TInteger)
        else if v.Float? then Ok(TFloat)
        else Err(RuntimeError("Expected a numeric type, but found " + TypeName(GetType(v))))
  }

  /** The loop of `assert_all_numeric_type`. */
  method AssertAllNumericType(vals: seq<Value>) returns (r: Result<ValueType>)
    ensures r == NumericType(vals)
  {
    var allT := TInteger;
    var i := 0;
    while i < |vals|
      invariant 0 <= i <= |vals|
      invariant NumericType(vals[..i]) == Ok(allT)
    {
      assert vals[..i + 1][..i] == vals[..i];
      var v := vals[i];
      if allT == TInteger && v.Integer? {
        allT := TInteger;
      } else if v.Float? {
        allT := TFloat;
      } else {
        r := Err(RuntimeError("Expected a numeric type, but found " + TypeName(GetType(v))));
        NumericTypeErrorSticks(vals, i + 1);
        return;
      }
      i := i + 1;
    }
    assert vals[..i] == vals;
    return Ok(allT);
  }

  /** Once the check has failed on a prefix, later values do not matter. */
  lemma {:induction false} NumericTypeErrorSticks(vals: seq<Value>, n: nat)
    requires n <= |vals|
    requires NumericType(vals[..n]).Err?
    ensures NumericType(vals) == NumericType(vals[..n])
    decreases |vals| - n
  {
    if n < |vals| {
      assert vals[..n + 1][..n] == vals[..n];
      NumericTypeErrorSticks(vals, n + 1);
    } else {
      assert vals[..n] == vals;
    }
  }

  predicate AllInteger(vals: seq<Value>) {
    forall k :: 0 <= k < |vals| ==> vals[k].Integer?
  }

  predicate AllNumeric(vals: seq<Value>) {
    forall k :: 0 <= k < |vals| ==> IsNumeric(vals[k])
  }

  /** No Integer comes after a Float. */
  predicate FloatsLast(vals: seq<Value>) {
    forall i, j :: 0 <= i < j < |vals| && vals[i].Float? ==> vals[j].Float?
  }

  /** The check passes exactly on numbers in which no Integer follows a
      Float; it answers Integer when all are Integers and Float otherwise. */
  lemma {:induction false} NumericTypeAccepts(vals: seq<Value>)
    ensures NumericType(vals).Ok? <==> AllNumeric(vals) && FloatsLast(vals)
    ensures NumericType(vals) == Ok(TInteger) <==> AllInteger(vals)
    ensures NumericType(vals) == Ok(TFloat) <==>
      AllNumeric(vals) && FloatsLast(vals) && exists k :: 0 <= k < |vals| && vals[k].Float?
    ensures NumericType(vals).Err? ==> NumericType(vals).error.RuntimeError?
    decreases |vals|
  {
    if vals != [] {
      var front, v := vals[..|vals| - 1], vals[|vals| - 1];
      NumericTypeAccepts(front);
      assert forall k :: 0 <= k < |front| ==> front[k] == vals[k];
      if NumericType(vals) == Ok(TFloat) && NumericType(front) == Ok(TFloat) {
        var k :| 0 <= k < |front| && front[k].Float?;
        assert vals[k].Float?;
      }
      if !AllInteger(vals) && AllInteger(front) && AllNumeric(vals) {
        assert v.Float?;
      }
    }
  }

  /** The order matters: an Integer then a Float passes, the same two
      values the other way round do not. */
  lemma NumericTypeIsOrderSensitive()
    ensures NumericType([Integer(1), Float(1.0)]) == Ok(TFloat)
    ensures NumericType([Float(1.0), Integer(1)])
      == Err(RuntimeError("Expected a numeric type, but found Integer"))
  {
    assert [Integer(1), Float(1.0)][..1] == [Integer(1)];
    assert [Float(1.0), Integer(1)][..1] == [Float(1.0)];
    assert [Integer(1)][..0] == [];
    assert [Float(1.0)][..0] == [];
    assert NumericType([Float(1.0)]) == Ok(TFloat);
    assert TypeName(GetType(Integer(1))) == "Integer";
    assert "Expected a numeric type, but found " + "Integer" == "Expected a numeric type, but found Integer";
  }

  /** `addition` and `multiplication` share one shape and differ only in
      the operation and its unit. */
  datatype ArithOp = Add | Mul

  function IntUnit(op: ArithOp): int {
    if op == Add then 0 else 1
  }

  function RealUnit(op: ArithOp): real {
    if op == Add then 0.0 else 1.0
  }

  function IntApply(op: ArithOp, a: int, b: int): int {
    if op == Add then a + b else a * b
  }

  function RealApply(op: ArithOp, a: real, b: real): real {
    if op == Add then a + b else a * b
  }

  /** The integer accumulator: the sum (product) of the Integer arguments. */
  function IntTotal(op: ArithOp, vals: seq<Value>): int
  {
    if vals == [] then IntUnit(op)
    else
      var v := vals[|vals| - 1];
      var front := IntTotal(op, vals[..|vals| - 1]);
      if v.Integer? then IntApply(op, front, v.i) else front
  }

  /** The float accumulator: the sum (product) of all the numeric arguments,
      an Integer taken as a float. */
  function RealTotal(op: ArithOp, vals: seq<Value>): real
  {
    if vals == [] then RealUnit(op)
    else
      var v := vals[|vals| - 1];
      var front := RealTotal(op, vals[..|vals| - 1]);
      if IsNumeric(v) then RealApply(op, front, NumericValue(v)) else front
  }

  /** On Integers only, the two accumulators agree. */
  lemma {:induction false} TotalsAgree(op: ArithOp, vals: seq<Value>)
    requires AllInteger(vals)
    ensures RealTotal(op, vals) == IntTotal(op, vals) as real
    decreases |vals|
  {
    if vals != [] {
      var front := vals[..|vals| - 1];
      assert AllInteger(front) by {
        forall k | 0 <= k < |front| ensures front[k].Integer? { assert front[k] == vals[k]; }
      }
      TotalsAgree(op, front);
    }
  }

  /** What `addition` (op Add) and `multiplication` (op Mul) return: at least
      two arguments, all numbers; an Integer when every argument is an
      Integer, a Float of the float total otherwise. Both report the same
      messages, "Multiply ..." for the addition too. */
  function Arithmetic(op: ArithOp, vals: seq<Value>): (r: Result<Value>)
    ensures r.Ok? <==> |vals| >= 2 && AllNumeric(vals)
    ensures r.Ok? ==> (r.value.Integer? <==> AllInteger(vals))
    ensures r.Ok? ==> r.value.Integer? || r.value.Float?
    ensures r.Ok? ==> NumericValue(r.value) == RealTotal(op, vals)
  {
    if |vals| < 2 then Err(RuntimeError("Multiply must have at least 2 arguments."))
    else if !AllNumeric(vals) then Err(RuntimeError("Can't multiply types other than int and float."))
    else if AllInteger(vals) then
      TotalsAgree(op, vals);
      Ok(Integer(IntTotal(op, vals)))
    else Ok(Float(RealTotal(op, vals)))
  }

  /** The loop of `addition` / `multiplication`: both accumulators run side
      by side and a flag records whether every argument so far was an Integer. */
  method ArithmeticLoop(op: ArithOp, vals: seq<Value>) returns (r: Result<Value>)
    ensures r == Arithmetic(op, vals)
  {
    if |vals| < 2 {
      return Err(RuntimeError("Multiply must have at least 2 arguments."));
    }
    var intAcc := IntUnit(op);
    var realAcc := RealUnit(op);
    var allInt := true;
    var i := 0;
    while i < |vals|
      invariant 0 <= i <= |vals|
      invariant AllNumeric(vals[..i])
      invariant intAcc == IntTotal(op, vals[..i])
      invariant realAcc == RealTotal(op, vals[..i])
      invariant allInt == AllInteger(vals[..i])
    {
      var front := vals[..i];
      assert vals[..i + 1][..i] == front;
      assert vals[..i + 1] == front + [vals[i]];
      match vals[i] {
        case Float(x) =>
          realAcc := RealApply(op, realAcc, x);
          allInt := false;
        case Integer(x) =>
          realAcc := RealApply(op, realAcc, x as real);
          intAcc := IntApply(op, intAcc, x);
        case _ =>
          assert !IsNumeric(vals[i]);
          return Err(RuntimeError("Can't multiply types other than int and float."));
      }
      i := i + 1;
    }
    assert vals[..i] == vals;
    if allInt {
      r := Ok(Integer(intAcc));
    } else {
      r := Ok(Float(realAcc));
    }
  }

  /** Integer division truncating toward zero, as Rust's `/` on integers. */
  function TruncDiv(a: int, b: int): int
    requires b != 0
  {
    var q := Abs(a) / Abs(b);
    if (a < 0) != (b < 0) then -q else q
  }

  function Abs(x: int): nat {
    if x < 0 then -x else x
  }

  /** The quotient and remainder of truncating division: the remainder is
      smaller than the divisor in magnitude and has the sign of the dividend. */
  lemma TruncDivRemainder(a: int, b: int)
    requires b != 0
    ensures Abs(a - b * TruncDiv(a, b)) < Abs(b)
    ensures a - b * TruncDiv(a, b) == 0 || ((a - b * TruncDiv(a, b) < 0) == (a < 0))
    ensures Abs(TruncDiv(a, b)) == Abs(a) / Abs(b)
  {
    var q := Abs(a) / Abs(b);
    var rem := Abs(a) % Abs(b);
    DivMod(Abs(a), Abs(b));
    var t := TruncDiv(a, b);
    assert t == (if (a < 0) != (b < 0) then -q else q);
    SignedRemainder(a, b, q, rem);
    assert a - b * t == (if a >= 0 then rem else -rem);
    assert Abs(t) == q;
  }

  lemma DivMod(x: nat, y: nat)
    requires y > 0
    ensures x == y * (x / y) + x % y && 0 <= x % y < y && x / y >= 0
  {
  }

  /** The division identity `|a| == |b| * q + rem`, with signs put back. */
  lemma SignedRemainder(a: int, b: int, q: int, rem: int)
    requires b != 0 && Abs(a) == Abs(b) * q + rem
    ensures a - b * (if (a < 0) != (b < 0) then -q else q) == (if a >= 0 then rem else -rem)
  {
    var B := Abs(b);
    if b > 0 {
      assert b == B;
      if a < 0 {
        assert b * (-q) == -(B * q);
      }
    } else {
      assert b == -B;
      assert b * q == -(B * q);
      if a >= 0 {
        assert b * (-q) == B * q;
      }
    }
  }

  /** Float division. IEEE infinities and NaN are not modelled: a zero
      divisor yields the placeholder 0.0. */
  function FloatDiv(x: real, y: real): real {
    if y == 0.0 then 0.0 else x / y
  }

  /** `subtraction_or_negation`: one argument is negated, two are
      subtracted, after the order-sensitive numeric check; any other count
      is an error. The `unreachable!()` arms are a panic, never reached. */
  function SubtractionOrNegation(vals: seq<Value>): (r: Result<Value>)
    ensures r.Ok? <==> (|vals| == 1 || |vals| == 2) && AllNumeric(vals) && FloatsLast(vals)
    ensures !(r.Err? && r.error.Panic?)
    ensures |vals| == 1 && r.Ok? ==>
      GetType(r.value) == GetType(vals[0]) && NumericValue(r.value) == -NumericValue(vals[0])
    ensures |vals| == 2 && r.Ok? ==>
      (r.value.Integer? <==> AllInteger(vals)) && (r.value.Integer? || r.value.Float?) &&
      NumericValue(r.value) == NumericValue(vals[0]) - NumericValue(vals[1])
    ensures |vals| != 1 && |vals| != 2 ==>
      r == Err(RuntimeError("Too many arguments for subtraction or negation."))
  {
    NumericTypeAccepts(vals);
    if |vals| == 1 then
      match NumericType(vals)
      case Err(e) => Err(e)
      case Ok(_) =>
        match vals[0]
        case Integer(a) => Ok(Integer(-a))
        case Float(a) => Ok(Float(-a))
        case _ => Err(Panic("internal error: entered unreachable code"))
    else if |vals| == 2 then
      match NumericType(vals)
      case Err(e) => Err(e)
      case Ok(_) =>
        match (vals[0], vals[1])
        case (Integer(a), Integer(b)) => Ok(Integer(a - b))
        case (Float(a), Integer(b)) => Ok(Float(a - b as real))
        case (Integer(a), Float(b)) => Ok(Float(a as real - b))
        case (Float(a), Float(b)) => Ok(Float(a - b))
        case _ => Err(Panic("internal error: entered unreachable code"))
    else Err(RuntimeError("Too many arguments for subtraction or negation."))
  }

  /** `division`: exactly two arguments, numeric check first. Integer by
      Integer truncates toward zero and panics on a zero divisor; any Float
      makes a Float quotient. */
  function Division(vals: seq<Value>): (r: Result<Value>)
    ensures r.Ok? <==>
      (|vals| == 2 && AllNumeric(vals) && FloatsLast(vals) && !(AllInteger(vals) && vals[1].i == 0))
    ensures r.Err? && r.error.Panic? <==> |vals| == 2 && AllInteger(vals) && vals[1].i == 0
    ensures r.Ok? && AllInteger(vals) ==> r.value == Integer(TruncDiv(vals[0].i, vals[1].i))
    ensures r.Ok? && !AllInteger(vals) ==>
      (r.value.Float? &&
       (NumericValue(vals[1]) != 0.0 ==> r.value.f * NumericValue(vals[1]) == NumericValue(vals[0])))
    ensures |vals| != 2 ==> r == Err(RuntimeError("Too many arguments for subtraction or negation."))
  {
    NumericTypeAccepts(vals);
    if |vals| == 2 then
      match NumericType(vals)
      case Err(e) => Err(e)
      case Ok(_) =>
        match (vals[0], vals[1])
        case (Integer(a), Integer(b)) =>
          if b == 0 then Err(Panic("attempt to divide by zero")) else Ok(Integer(TruncDiv(a, b)))
        case (Float(a), Integer(b)) => Ok(Float(FloatDiv(a, b as real)))
        case (Integer(a), Float(b)) => Ok(Float(FloatDiv(a as real, b)))
        case (Float(a), Float(b)) => Ok(Float(FloatDiv(a, b)))
        case _ => Err(Panic("internal error: entered unreachable code"))
    else Err(RuntimeError("Too many arguments for subtraction or negation."))
  }

  /** The names of the built-in table whose functions always fail. */
  predicate IsStub(name: string) {
    name in {"<", "<=", "<>", "=", ">=", ">", "hashmap", "get", "log", "exp",
             "bernoulli", "discrete", "normal", "beta", "poisson"}
  }

  predicate IsBuiltin(name: string) {
    name in {"+", "*", "-", "/", "vector"} || IsStub(name)
  }

  /** `dispatch_function`: the fixed table of built-ins; user definitions are
      never consulted, so any other name is not found. */
  function Dispatch(name: string, vals: seq<Value>): (r: Result<Value>)
    ensures !IsBuiltin(name) ==> r == Err(RuntimeError("Could not find function " + name))
    ensures IsStub(name) ==> r == Err(RuntimeError("Unimplemented"))
  {
    if IsStub(name) then Err(RuntimeError("Unimplemented"))
    else if name == "+" then Arithmetic(Add, vals)
    else if name == "*" then Arithmetic(Mul, vals)
    else if name == "-" then SubtractionOrNegation(vals)
    else if name == "/" then Division(vals)
    else if name == "vector" then Ok(Vector(vals))
    else Err(RuntimeError("Could not find function " + name))
  }

  /** `dispatch_function` as the interpreter runs it: the looping built-ins
      run their loops. */
  method DispatchFunction(name: string, vals: seq<Value>) returns (r: Result<Value>)
    ensures r == Dispatch(name, vals)
  {
    if IsStub(name) {
      r := Err(RuntimeError("Unimplemented"));
    } else if name == "+" {
      r := ArithmeticLoop(Add, vals);
    } else if name == "*" {
      r := ArithmeticLoop(Mul, vals);
    } else if name == "-" {
      r := SubtractionOrNegation(vals);
    } else if name == "/" {
      r := Division(vals);
    } else if name == "vector" {
      r := Ok(Vector(vals));
    } else {
      r := Err(RuntimeError("Could not find function " + name));
    }
  }

  /** A successful built-in call returns a number or, for `vector`, the
      vector of its arguments. */
  lemma DispatchResults(name: string, vals: seq<Value>)
    ensures Dispatch(name, vals).Ok? ==>
      IsNumeric(Dispatch(name, vals).value) || Dispatch(name, vals) == Ok(Vector(vals))
    ensures Dispatch(name, vals).Ok? ==> name in {"+", "*", "-", "/", "vector"}
  {
  }
}

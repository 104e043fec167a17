/** What `Interpreter::eval` computes (ppl-impl/src/interpreter.rs), as
    functions that thread the interpreter's state through an evaluation:
    the scope (a stack of bindings), the inference algorithm's state and the
    position of the random stream. The imperative interpreter in module
    Interpreter is proved to follow these functions step by step. */
module Semantics {
  import opened Types
  import opened Ast
  import opened Distributions
  import Functions
  import Lw = LikelihoodWeightingAlg
  import Po = PriorOnlyAlg

  datatype Binding = Binding(ident: string, val: Value)

  /** The state of the inference algorithm the interpreter drives. */
  datatype AlgState = LwAlg(lw: Lw.LwState) | PoAlg(po: Po.PoState)

  datatype EvalState = EvalState(scope: seq<Binding>, alg: AlgState, drawn: nat)

  /** The results the algorithm has recorded so far. */
  function Finished(a: AlgState): seq<Value> {
    match a
    case LwAlg(s) => s.results
    case PoAlg(s) => s.results
  }

  /** `lookup_var`: the scope is searched from its most recent binding down. */
  function LookupVar(scope: seq<Binding>, name: string): (r: Option<Value>)
    ensures r.None? <==> forall k :: 0 <= k < |scope| ==> scope[k].ident != name
  {
    if scope == [] then None
    else if scope[|scope| - 1].ident == name then Some(scope[|scope| - 1].val)
    else
      assert forall k :: 0 <= k < |scope| - 1 ==> scope[..|scope| - 1][k] == scope[k];
      LookupVar(scope[..|scope| - 1], name)
  }

  /** The value found is that of the innermost binding of the name: later
      bindings shadow earlier ones. */
  lemma {:induction false} LookupVarFindsInnermost(scope: seq<Binding>, name: string, k: nat)
    requires k < |scope| && scope[k].ident == name
    requires forall j :: k < j < |scope| ==> scope[j].ident != name
    ensures LookupVar(scope, name) == Some(scope[k].val)
    decreases |scope|
  {
    if k < |scope| - 1 {
      LookupVarFindsInnermost(scope[..|scope| - 1], name, k);
    }
  }

  /** `Vec::truncate`: a length at least the current one changes nothing. */
  function Truncate(scope: seq<Binding>, n: nat): seq<Binding> {
    if n <= |scope| then scope[..n] else scope
  }

  function WithScope(st: EvalState, scope: seq<Binding>): EvalState {
    st.(scope := scope)
  }

  /** `vals.pop().unwrap()`: the last value, a panic on an empty list. */
  function PopUnwrap(vals: seq<Value>): (r: Result<Value>)
    ensures r.Ok? <==> vals != []
    ensures r.Ok? ==> r.value == vals[|vals| - 1]
  {
    if vals == [] then Err(Panic("called `Option::unwrap()` on a `None` value"))
    else Ok(vals[|vals| - 1])
  }

  /** The algorithm's `sample`: both algorithms take the next draw. */
  function AlgSample(o: Oracle, st: EvalState, d: Dist): (Result<Value>, EvalState) {
    (o.draw(d, st.drawn), st.(drawn := st.drawn + 1))
  }

  /** The algorithm's `observe`: likelihood weighting weighs the observed
      value, prior-only sampling replaces it by a draw. */
  function AlgObserve(o: Oracle, st: EvalState, d: Dist, val: Value): (r: (Result<Value>, EvalState))
    ensures r.1.scope == st.scope && Finished(r.1.alg) == Finished(st.alg)
  {
    match st.alg
    case LwAlg(s) =>
      var (r, s') := Lw.ObserveStep(o, s, d, val);
      (r, st.(alg := LwAlg(s')))
    case PoAlg(_) => (o.draw(d, st.drawn), st.(drawn := st.drawn + 1))
  }

  /** The algorithm's `finish_one_evaluation`. */
  function AlgFinish(a: AlgState, val: Value): (b: AlgState)
    ensures Finished(b) == Finished(a) + [val]
  {
    match a
    case LwAlg(s) => LwAlg(Lw.FinishStep(s, val))
    case PoAlg(s) => PoAlg(Po.PoState(s.results + [val]))
  }

  /** The name the catch-all error gives to an expression the evaluator does
      not implement. */
  function KindName(e: Expression): string {
    match e
    case Boolean(b) => if b then "Boolean(true)" else "Boolean(false)"
    case Null => "Null"
    case If(_, _, _) => "If"
    case _ => "Expression"
  }

  /** `Interpreter::eval`: one case per kind of expression. */
  function Eval(o: Oracle, st: EvalState, e: Expression): (Result<Value>, EvalState)
    decreases Size(e), 1
  {
    match e
    case Variable(x) => EvalVariable(st, x)
    case Let(bs, body) => EvalLet(o, st, bs, body)
    case Integer(i) => (Ok(Value.Integer(i)), st)
    case Float(f) => (Ok(Value.Float(f)), st)
    case Sample(d, n) => EvalSample(o, st, d, n)
    case FunctionApplication(f, args) => EvalApplication(o, st, f, args)
    case Observe(d, v, n) => EvalObserve(o, st, d, v, n)
    case ForEach(n, bs, body) => EvalForEach(o, st, n, bs, body)
    case Loop(n, acc, f, ps) => EvalLoop(o, st, n, acc, f, ps)
    case Vector(es) => EvalVector(o, st, es)
    case _ => (Err(RuntimeError("Unimplemented: " + KindName(e))), st)
  }

  function EvalVariable(st: EvalState, x: string): (Result<Value>, EvalState) {
    match LookupVar(st.scope, x)
    case Some(v) => (Ok(v), st)
    case None => (Err(RuntimeError("Variable " + x + " not defined.")), st)
  }

  /** `let`: the bindings are pushed one by one, the body is evaluated and
      the scope is truncated back to its length on entry, on every path. */
  function EvalLet(o: Oracle, st: EvalState, bs: seq<(string, Expression)>, body: seq<Expression>)
    : (Result<Value>, EvalState)
    decreases Size(Let(bs, body)), 0
  {
    if |bs| == 0 then (Err(RuntimeError("Let must have at least one binding.")), st)
    else if |body| == 0 then (Err(RuntimeError("Let must have a body.")), st)
    else
      var (rb, st1) := EvalLetBindings(o, st, bs);
      if rb.Err? then (Err(rb.error), WithScope(st1, Truncate(st1.scope, |st.scope|)))
      else
        var (rv, st2) := EvalAll(o, st1, body);
        var st3 := WithScope(st2, Truncate(st2.scope, |st.scope|));
        if rv.Err? then (Err(rv.error), st3) else (PopUnwrap(rv.value), st3)
  }

  /** `sample`: the operand must be a distribution; the algorithm draws. */
  function EvalSample(o: Oracle, st: EvalState, d: Expression, n: Option<nat>): (Result<Value>, EvalState)
    decreases Size(Sample(d, n)), 0
  {
    var (rd, st1) := Eval(o, st, d);
    if rd.Err? then (rd, st1)
    else if !rd.value.Distribution? then
      (Err(RuntimeError("Sample must only be called on a Distribution value.")), st1)
    else AlgSample(o, st1, rd.value.dist)
  }

  /** A call: the arguments are evaluated, then the built-in is run. */
  function EvalApplication(o: Oracle, st: EvalState, f: string, args: seq<Expression>): (Result<Value>, EvalState)
    decreases Size(FunctionApplication(f, args)), 0
  {
    var (ra, st1) := EvalAll(o, st, args);
    if ra.Err? then (Err(ra.error), st1) else (Functions.Dispatch(f, ra.value), st1)
  }

  /** `observe`: the distribution, then the observed value, then the
      algorithm's `observe`. */
  function EvalObserve(o: Oracle, st: EvalState, d: Expression, v: Expression, n: Option<nat>)
    : (Result<Value>, EvalState)
    decreases Size(Observe(d, v, n)), 0
  {
    var (rd, st1) := Eval(o, st, d);
    if rd.Err? then (rd, st1)
    else if !rd.value.Distribution? then
      (Err(RuntimeError("First expression in `observe` must evaluate to a distribution.")), st1)
    else ObserveValue(o, st1, rd.value.dist, v)
  }

  /** The observed expression, then the algorithm's `observe` of it. */
  function ObserveValue(o: Oracle, st: EvalState, d: Dist, v: Expression): (Result<Value>, EvalState)
    decreases Size(v), 2
  {
    var (rv, st1) := Eval(o, st, v);
    if rv.Err? then (rv, st1) else AlgObserve(o, st1, d, rv.value)
  }

  /** `foreach`: the bindings, then `n` iterations collected in a vector. */
  function EvalForEach(o: Oracle, st: EvalState, n: nat, bs: seq<(string, Expression)>, body: seq<Expression>)
    : (Result<Value>, EvalState)
    decreases Size(ForEach(n, bs, body)), 0
  {
    var (rb, st1) := EvalForEachBindings(o, st, n, bs);
    if rb.Err? then (Err(rb.error), st1)
    else
      var (ri, st2) := ForEachIterations(o, st1, n, rb.value, body, n);
      if ri.Err? then (Err(ri.error), st2) else (Ok(Value.Vector(ri.value)), st2)
  }

  /** `loop`: the accumulator and parameters once, then `n` calls. */
  function EvalLoop(o: Oracle, st: EvalState, n: nat, acc: Expression, f: string, ps: seq<Expression>)
    : (Result<Value>, EvalState)
    decreases Size(Loop(n, acc, f, ps)), 0
  {
    var (ra, st1) := Eval(o, st, acc);
    if ra.Err? then (ra, st1)
    else
      var (rp, st2) := EvalAll(o, st1, ps);
      if rp.Err? then (Err(rp.error), st2) else (LoopIterations(f, ra.value, rp.value, n), st2)
  }

  /** A vector literal: its elements in order. */
  function EvalVector(o: Oracle, st: EvalState, es: seq<Expression>): (Result<Value>, EvalState)
    decreases Size(Expression.Vector(es)), 0
  {
    var (r, st1) := EvalAll(o, st, es);
    if r.Err? then (Err(r.error), st1) else (Ok(Value.Vector(r.value)), st1)
  }

  /** `eval_all`: left to right, stopping at the first error. */
  function EvalAll(o: Oracle, st: EvalState, es: seq<Expression>): (Result<seq<Value>>, EvalState)
    decreases SizeAll(es), 2
  {
    if es == [] then (Ok([]), st)
    else
      var (r, st1) := EvalAll(o, st, es[..|es| - 1]);
      if r.Err? then (r, st1)
      else
        var (v, st2) := Eval(o, st1, es[|es| - 1]);
        if v.Err? then (Err(v.error), st2) else (Ok(r.value + [v.value]), st2)
  }

  /** The bindings of a `let`, each evaluated in the scope extended by the
      ones before it and then pushed. */
  function EvalLetBindings(o: Oracle, st: EvalState, bs: seq<(string, Expression)>): (Result<()>, EvalState)
    decreases SizeBindings(bs), 2
  {
    if bs == [] then (Ok(()), st)
    else
      var last := bs[|bs| - 1];
      var (r, st1) := EvalLetBindings(o, st, bs[..|bs| - 1]);
      if r.Err? then (r, st1)
      else
        var (v, st2) := Eval(o, st1, last.1);
        if v.Err? then (Err(v.error), st2)
        else (Ok(()), WithScope(st2, st2.scope + [Binding(last.0, v.value)]))
  }

  /** The bindings of a `foreach`, all evaluated in the enclosing scope;
      each must give a vector of exactly `n` elements. */
  function EvalForEachBindings(o: Oracle, st: EvalState, n: nat, bs: seq<(string, Expression)>)
    : (r: (Result<seq<(string, seq<Value>)>>, EvalState))
    ensures r.0.Ok? ==> |r.0.value| == |bs|
    ensures r.0.Ok? ==> forall k :: 0 <= k < |bs| ==> r.0.value[k].0 == bs[k].0 && |r.0.value[k].1| == n
    decreases SizeBindings(bs), 3
  {
    if bs == [] then (Ok([]), st)
    else
      var last := bs[|bs| - 1];
      var (r, st1) := EvalForEachBindings(o, st, n, bs[..|bs| - 1]);
      if r.Err? then (r, st1)
      else
        var (v, st2) := BindingVector(o, st1, n, last.1);
        if v.Err? then (Err(v.error), st2) else (Ok(r.value + [(last.0, v.value)]), st2)
  }

  /** The value of one `foreach` binding: a vector of exactly `n` elements. */
  function BindingVector(o: Oracle, st: EvalState, n: nat, e: Expression): (r: (Result<seq<Value>>, EvalState))
    ensures r.0.Ok? ==> |r.0.value| == n
    decreases Size(e), 2
  {
    var (v, st1) := Eval(o, st, e);
    (CheckBindingVector(n, v), st1)
  }

  /** A binding's value is accepted when it is a vector of `n` elements. */
  function CheckBindingVector(n: nat, v: Result<Value>): (r: Result<seq<Value>>)
    ensures r.Ok? <==> v.Ok? && v.value.Vector? && |v.value.elems| == n
    ensures r.Ok? ==> r.value == v.value.elems
    ensures v.Err? ==> r == Err(v.error)
  {
    if v.Err? then Err(v.error)
    else if !v.value.Vector? then Err(RuntimeError("`foreach` binding values must be vectors."))
    else if |v.value.elems| != n then Err(RuntimeError("`foreach` binding vectors must have the specified length."))
    else Ok(v.value.elems)
  }

  /** The `i`-th element of each bound vector, bound to its name. */
  function IterationBindings(bound: seq<(string, seq<Value>)>, i: nat): (r: seq<Binding>)
    requires forall k :: 0 <= k < |bound| ==> i < |bound[k].1|
    ensures |r| == |bound|
    ensures forall k :: 0 <= k < |bound| ==> r[k] == Binding(bound[k].0, bound[k].1[i])
  {
    seq(|bound|, k requires 0 <= k < |bound| => Binding(bound[k].0, bound[k].1[i]))
  }

  /** The first `i` iterations of a `foreach` whose bound vectors have `n`
      elements: each extends the scope with its elements, evaluates the
      body, restores the scope and keeps the body's last value. */
  function ForEachIterations(o: Oracle, st: EvalState, n: nat, bound: seq<(string, seq<Value>)>,
                             body: seq<Expression>, i: nat): (Result<seq<Value>>, EvalState)
    requires i <= n
    requires forall k :: 0 <= k < |bound| ==> |bound[k].1| == n
    decreases SizeAll(body), 3, i
  {
    if i == 0 then (Ok([]), st)
    else
      var (r, st1) := ForEachIterations(o, st, n, bound, body, i - 1);
      if r.Err? then (r, st1)
      else
        var (v, st2) := Iteration(o, st1, bound, body, i - 1);
        if v.Err? then (Err(v.error), st2) else (Ok(r.value + [v.value]), st2)
  }

  /** Iteration `i` of a `foreach`: the `i`-th elements are pushed, the body
      is evaluated, the scope is truncated back and the body's last value is
      popped (a panic when the body is empty). */
  function Iteration(o: Oracle, st: EvalState, bound: seq<(string, seq<Value>)>, body: seq<Expression>, i: nat)
    : (Result<Value>, EvalState)
    requires forall k :: 0 <= k < |bound| ==> i < |bound[k].1|
    decreases SizeAll(body), 3, 0
  {
    var st1 := WithScope(st, st.scope + IterationBindings(bound, i));
    var (rv, st2) := EvalAll(o, st1, body);
    var st3 := WithScope(st2, Truncate(st2.scope, |st.scope|));
    if rv.Err? then (Err(rv.error), st3) else (PopUnwrap(rv.value), st3)
  }

  /** The first `i` calls of a `loop`: call `k` passes `[Integer(k), acc]`
      followed by the parameters and its result becomes the accumulator. */
  function LoopIterations(f: string, acc: Value, ps: seq<Value>, i: nat): Result<Value>
  {
    if i == 0 then Ok(acc)
    else
      match LoopIterations(f, acc, ps, i - 1)
      case Err(e) => Err(e)
      case Ok(a) => Functions.Dispatch(f, [Value.Integer(i - 1), a] + ps)
  }

  /** `eval_program`'s sampling loop: `i` evaluations of the main
      expression, each result handed to the algorithm, stopping at the
      first error. */
  function RunSamples(o: Oracle, st: EvalState, e: Expression, i: nat): (Result<()>, EvalState)
  {
    if i == 0 then (Ok(()), st)
    else
      var (r, st1) := RunSamples(o, st, e, i - 1);
      if r.Err? then (r, st1) else SampleOnce(o, st1, e)
  }

  /** One pass of the sampling loop: the main expression is evaluated and
      its value handed to the algorithm. */
  function SampleOnce(o: Oracle, st: EvalState, e: Expression): (Result<()>, EvalState)
  {
    var (v, st1) := Eval(o, st, e);
    if v.Err? then (Err(v.error), st1) else (Ok(()), st1.(alg := AlgFinish(st1.alg, v.value)))
  }

  /* Every loop of the evaluator stops at its first error: once a prefix
     has failed, the whole run returns that failure and that state. */

  lemma {:induction false} EvalAllStopsAtError(o: Oracle, st: EvalState, es: seq<Expression>, j: nat)
    requires j <= |es|
    requires EvalAll(o, st, es[..j]).0.Err?
    ensures EvalAll(o, st, es) == EvalAll(o, st, es[..j])
    decreases |es| - j
  {
    if j < |es| {
      var es' := es[..j + 1];
      assert es'[..j] == es[..j];
      assert es'[..|es'| - 1] == es[..j];
      EvalAllStopsAtError(o, st, es, j + 1);
    } else {
      assert es[..j] == es;
    }
  }

  lemma {:induction false} LetBindingsStopAtError(o: Oracle, st: EvalState, bs: seq<(string, Expression)>, j: nat)
    requires j <= |bs|
    requires EvalLetBindings(o, st, bs[..j]).0.Err?
    ensures EvalLetBindings(o, st, bs) == EvalLetBindings(o, st, bs[..j])
    decreases |bs| - j
  {
    if j < |bs| {
      var bs' := bs[..j + 1];
      assert bs'[..|bs'| - 1] == bs[..j];
      LetBindingsStopAtError(o, st, bs, j + 1);
    } else {
      assert bs[..j] == bs;
    }
  }

  lemma {:induction false} ForEachBindingsStopAtError(o: Oracle, st: EvalState, n: nat, bs: seq<(string, Expression)>, j: nat)
    requires j <= |bs|
    requires EvalForEachBindings(o, st, n, bs[..j]).0.Err?
    ensures EvalForEachBindings(o, st, n, bs) == EvalForEachBindings(o, st, n, bs[..j])
    decreases |bs| - j
  {
    if j < |bs| {
      ForEachBindingsErrStep(o, st, n, bs[..j + 1], bs[..j]);
      ForEachBindingsStopAtError(o, st, n, bs, j + 1);
    } else {
      assert bs[..j] == bs;
    }
  }

  /** A failed prefix stays failed when one more binding follows. */
  lemma ForEachBindingsErrStep(o: Oracle, st: EvalState, n: nat, bs: seq<(string, Expression)>,
                               front: seq<(string, Expression)>)
    requires bs != [] && front == bs[..|bs| - 1]
    requires EvalForEachBindings(o, st, n, front).0.Err?
    ensures EvalForEachBindings(o, st, n, bs) == EvalForEachBindings(o, st, n, front)
  {
  }

  lemma {:induction false} IterationsStopAtError(o: Oracle, st: EvalState, n: nat, bound: seq<(string, seq<Value>)>,
                                                 body: seq<Expression>, j: nat, i: nat)
    requires j <= i <= n
    requires forall k :: 0 <= k < |bound| ==> |bound[k].1| == n
    requires ForEachIterations(o, st, n, bound, body, j).0.Err?
    ensures ForEachIterations(o, st, n, bound, body, i) == ForEachIterations(o, st, n, bound, body, j)
    decreases i - j
  {
    if j < i {
      IterationsStopAtError(o, st, n, bound, body, j, i - 1);
    }
  }

  lemma {:induction false} LoopStopsAtError(f: string, acc: Value, ps: seq<Value>, j: nat, i: nat)
    requires j <= i
    requires LoopIterations(f, acc, ps, j).Err?
    ensures LoopIterations(f, acc, ps, i) == LoopIterations(f, acc, ps, j)
    decreases i - j
  {
    if j < i {
      LoopStopsAtError(f, acc, ps, j, i - 1);
    }
  }

  lemma {:induction false} RunSamplesStopAtError(o: Oracle, st: EvalState, e: Expression, j: nat, i: nat)
    requires j <= i
    requires RunSamples(o, st, e, j).0.Err?
    ensures RunSamples(o, st, e, i) == RunSamples(o, st, e, j)
    decreases i - j
  {
    if j < i {
      RunSamplesStopAtError(o, st, e, j, i - 1);
    }
  }
}

/** What the evaluator promises about scopes, `let`, `foreach`, `loop` and
    the sampling loop of `eval_program` (ppl-impl/src/interpreter.rs). */
module EvalProperties {
  import opened Types
  import opened Ast
  import opened Distributions
  import opened Semantics
  import Functions

  /** A successful `eval_all` gives one value per expression. */
  lemma {:induction false} EvalAllLength(o: Oracle, st: EvalState, es: seq<Expression>)
    ensures EvalAll(o, st, es).0.Ok? ==> |EvalAll(o, st, es).0.value| == |es|
    decreases |es|
  {
    if es != [] {
      EvalAllLength(o, st, es[..|es| - 1]);
    }
  }

  /** Every evaluation, successful or not, leaves the scope as it found it
      and records no result with the algorithm. */
  lemma {:induction false} EvalKeepsScope(o: Oracle, st: EvalState, e: Expression)
    ensures Eval(o, st, e).1.scope == st.scope
    ensures Finished(Eval(o, st, e).1.alg) == Finished(st.alg)
    decreases Size(e), 1
  {
    match e
    case Let(bs, body) =>
      LetKeepsScope(o, st, bs, body);
    case Sample(d, _) =>
      EvalKeepsScope(o, st, d);
    case FunctionApplication(_, args) =>
      EvalAllKeepsScope(o, st, args);
    case Observe(d, v, n) =>
      ObserveKeepsScope(o, st, d, v, n);
    case ForEach(n, bs, body) =>
      ForEachKeepsScope(o, st, n, bs, body);
    case Loop(n, acc, f, ps) =>
      LoopKeepsScope(o, st, n, acc, f, ps);
    case Vector(es) =>
      EvalAllKeepsScope(o, st, es);
    case _ =>
  }

  lemma {:induction false} LetKeepsScope(o: Oracle, st: EvalState, bs: seq<(string, Expression)>, body: seq<Expression>)
    ensures EvalLet(o, st, bs, body).1.scope == st.scope
    ensures Finished(EvalLet(o, st, bs, body).1.alg) == Finished(st.alg)
    decreases Size(Let(bs, body)), 0
  {
    if |bs| > 0 && |body| > 0 {
      var st1 := EvalLetBindings(o, st, bs).1;
      LetBindingsExtendScope(o, st, bs);
      EvalAllKeepsScope(o, st1, body);
    }
  }

  lemma {:induction false} ObserveKeepsScope(o: Oracle, st: EvalState, d: Expression, v: Expression, n: Option<nat>)
    ensures EvalObserve(o, st, d, v, n).1.scope == st.scope
    ensures Finished(EvalObserve(o, st, d, v, n).1.alg) == Finished(st.alg)
    decreases Size(Observe(d, v, n)), 0
  {
    EvalKeepsScope(o, st, d);
    var (rd, st1) := Eval(o, st, d);
    if rd.Ok? && rd.value.Distribution? {
      EvalKeepsScope(o, st1, v);
      assert EvalObserve(o, st, d, v, n) == ObserveValue(o, st1, rd.value.dist, v);
    }
  }

  lemma {:induction false} ForEachKeepsScope(o: Oracle, st: EvalState, n: nat, bs: seq<(string, Expression)>,
                                             body: seq<Expression>)
    ensures EvalForEach(o, st, n, bs, body).1.scope == st.scope
    ensures Finished(EvalForEach(o, st, n, bs, body).1.alg) == Finished(st.alg)
    decreases Size(ForEach(n, bs, body)), 0
  {
    ForEachBindingsKeepScope(o, st, n, bs);
    var (rb, st1) := EvalForEachBindings(o, st, n, bs);
    if rb.Ok? {
      IterationsKeepScope(o, st1, n, rb.value, body, n);
    }
  }

  lemma {:induction false} LoopKeepsScope(o: Oracle, st: EvalState, n: nat, acc: Expression, f: string,
                                          ps: seq<Expression>)
    ensures EvalLoop(o, st, n, acc, f, ps).1.scope == st.scope
    ensures Finished(EvalLoop(o, st, n, acc, f, ps).1.alg) == Finished(st.alg)
    decreases Size(Loop(n, acc, f, ps)), 0
  {
    EvalKeepsScope(o, st, acc);
    EvalAllKeepsScope(o, Eval(o, st, acc).1, ps);
  }

  lemma {:induction false} EvalAllKeepsScope(o: Oracle, st: EvalState, es: seq<Expression>)
    ensures EvalAll(o, st, es).1.scope == st.scope
    ensures Finished(EvalAll(o, st, es).1.alg) == Finished(st.alg)
    decreases SizeAll(es), 2
  {
    if es != [] {
      var front := es[..|es| - 1];
      EvalAllKeepsScope(o, st, front);
      EvalKeepsScope(o, EvalAll(o, st, front).1, es[|es| - 1]);
    }
  }

  /** The bindings of a `let` only push: the scope on entry stays a prefix. */
  lemma {:induction false} LetBindingsExtendScope(o: Oracle, st: EvalState, bs: seq<(string, Expression)>)
    ensures |st.scope| <= |EvalLetBindings(o, st, bs).1.scope|
    ensures EvalLetBindings(o, st, bs).1.scope[..|st.scope|] == st.scope
    ensures Finished(EvalLetBindings(o, st, bs).1.alg) == Finished(st.alg)
    decreases SizeBindings(bs), 2
  {
    if bs != [] {
      var front := bs[..|bs| - 1];
      LetBindingsExtendScope(o, st, front);
      var st1 := EvalLetBindings(o, st, front).1;
      EvalKeepsScope(o, st1, bs[|bs| - 1].1);
    }
  }

  lemma {:induction false} ForEachBindingsKeepScope(o: Oracle, st: EvalState, n: nat, bs: seq<(string, Expression)>)
    ensures EvalForEachBindings(o, st, n, bs).1.scope == st.scope
    ensures Finished(EvalForEachBindings(o, st, n, bs).1.alg) == Finished(st.alg)
    decreases SizeBindings(bs), 2
  {
    if bs != [] {
      var front := bs[..|bs| - 1];
      ForEachBindingsKeepScope(o, st, n, front);
      var (r, st1) := EvalForEachBindings(o, st, n, front);
      if r.Ok? {
        EvalKeepsScope(o, st1, bs[|bs| - 1].1);
      }
    }
  }

  /** Each `foreach` iteration truncates the scope back to its length on
      entry, whether its body succeeds or fails. */
  lemma {:induction false} IterationsKeepScope(o: Oracle, st: EvalState, n: nat, bound: seq<(string, seq<Value>)>,
                                               body: seq<Expression>, i: nat)
    requires i <= n
    requires forall k :: 0 <= k < |bound| ==> |bound[k].1| == n
    ensures ForEachIterations(o, st, n, bound, body, i).1.scope == st.scope
    ensures Finished(ForEachIterations(o, st, n, bound, body, i).1.alg) == Finished(st.alg)
    decreases SizeAll(body), 3, i
  {
    if i > 0 {
      IterationsKeepScope(o, st, n, bound, body, i - 1);
      var st1 := ForEachIterations(o, st, n, bound, body, i - 1).1;
      var st2 := WithScope(st1, st1.scope + IterationBindings(bound, i - 1));
      EvalAllKeepsScope(o, st2, body);
    }
  }

  /** A variable evaluates to its innermost binding and is an error when
      unbound; nothing else changes. */
  lemma VariableLooksUpInnermost(o: Oracle, st: EvalState, x: string)
    ensures Eval(o, st, Variable(x)).1 == st
    ensures (forall k :: 0 <= k < |st.scope| ==> st.scope[k].ident != x) ==>
      Eval(o, st, Variable(x)).0 == Err(RuntimeError("Variable " + x + " not defined."))
    ensures forall k ::
      (0 <= k < |st.scope| && st.scope[k].ident == x && forall j :: k < j < |st.scope| ==> st.scope[j].ident != x) ==>
      Eval(o, st, Variable(x)).0 == Ok(st.scope[k].val)
  {
    forall k | 0 <= k < |st.scope| && st.scope[k].ident == x &&
      (forall j :: k < j < |st.scope| ==> st.scope[j].ident != x)
      ensures Eval(o, st, Variable(x)).0 == Ok(st.scope[k].val)
    {
      LookupVarFindsInnermost(st.scope, x, k);
    }
  }

  /** A `let` with no bindings or no body is an error; otherwise it succeeds
      exactly when its bindings and its body do, with the value of the last
      body expression, and it never panics. */
  lemma LetReturnsLastBodyValue(o: Oracle, st: EvalState, bs: seq<(string, Expression)>, body: seq<Expression>)
    ensures |bs| == 0 ==> Eval(o, st, Let(bs, body)).0 == Err(RuntimeError("Let must have at least one binding."))
    ensures |bs| > 0 && |body| == 0 ==> Eval(o, st, Let(bs, body)).0 == Err(RuntimeError("Let must have a body."))
    ensures |bs| > 0 && |body| > 0 ==>
      var (rb, st1) := EvalLetBindings(o, st, bs);
      var rv := EvalAll(o, st1, body).0;
      (Eval(o, st, Let(bs, body)).0.Ok? <==> rb.Ok? && rv.Ok?) &&
      (Eval(o, st, Let(bs, body)).0.Ok? ==>
        |rv.value| == |body| && Eval(o, st, Let(bs, body)).0.value == rv.value[|rv.value| - 1])
    ensures Eval(o, st, Let(bs, body)).1.scope == st.scope
  {
    EvalKeepsScope(o, st, Let(bs, body));
    if |bs| > 0 && |body| > 0 {
      EvalAllLength(o, EvalLetBindings(o, st, bs).1, body);
    }
  }

  /** The first `i` iterations of a `foreach`, when they succeed, give `i`
      values. */
  lemma {:induction false} IterationsLength(o: Oracle, st: EvalState, n: nat, bound: seq<(string, seq<Value>)>,
                                            body: seq<Expression>, i: nat)
    requires i <= n
    requires forall k :: 0 <= k < |bound| ==> |bound[k].1| == n
    ensures ForEachIterations(o, st, n, bound, body, i).0.Ok? ==>
      |ForEachIterations(o, st, n, bound, body, i).0.value| == i
    decreases i
  {
    if i > 0 {
      IterationsLength(o, st, n, bound, body, i - 1);
    }
  }

  /** An iteration whose body is empty panics on `pop().unwrap()`. */
  lemma {:induction false} EmptyBodyIterationPanics(o: Oracle, st: EvalState, n: nat, bound: seq<(string, seq<Value>)>, i: nat)
    requires 0 < i <= n
    requires forall k :: 0 <= k < |bound| ==> |bound[k].1| == n
    ensures ForEachIterations(o, st, n, bound, [], i).0.Err?
    ensures ForEachIterations(o, st, n, bound, [], i).0.error.Panic?
    decreases i
  {
    if i > 1 {
      EmptyBodyIterationPanics(o, st, n, bound, i - 1);
    }
  }

  /** A successful `foreach` gives a vector of exactly `n_iters` elements;
      it fails unless every binding gives a vector of `n_iters` elements;
      with iterations to run and an empty body it panics. The scope is
      restored in every case. */
  lemma ForEachMakesVectorOfN(o: Oracle, st: EvalState, n: nat, bs: seq<(string, Expression)>, body: seq<Expression>)
    ensures Eval(o, st, ForEach(n, bs, body)).0.Ok? ==>
      Eval(o, st, ForEach(n, bs, body)).0.value.Vector? &&
      |Eval(o, st, ForEach(n, bs, body)).0.value.elems| == n
    ensures Eval(o, st, ForEach(n, bs, body)).0.Ok? ==>
      var rb := EvalForEachBindings(o, st, n, bs).0;
      rb.Ok? && |rb.value| == |bs| && forall k :: 0 <= k < |bs| ==> |rb.value[k].1| == n
    ensures n > 0 && body == [] && EvalForEachBindings(o, st, n, bs).0.Ok? ==>
      Eval(o, st, ForEach(n, bs, body)).0.Err? && Eval(o, st, ForEach(n, bs, body)).0.error.Panic?
    ensures Eval(o, st, ForEach(n, bs, body)).1.scope == st.scope
  {
    EvalKeepsScope(o, st, ForEach(n, bs, body));
    var (rb, st1) := EvalForEachBindings(o, st, n, bs);
    if rb.Ok? {
      IterationsLength(o, st1, n, rb.value, body, n);
      if n > 0 && body == [] {
        EmptyBodyIterationPanics(o, st1, n, rb.value, n);
      }
    }
  }

  /** A `loop` of zero iterations is its evaluated initial accumulator. */
  lemma LoopZeroIsAccumulator(o: Oracle, st: EvalState, acc: Expression, f: string, ps: seq<Expression>)
    ensures var (ra, st1) := Eval(o, st, acc);
      ra.Ok? && EvalAll(o, st1, ps).0.Ok? ==> Eval(o, st, Loop(0, acc, f, ps)).0 == ra
  {
  }

  /** Built-in dispatch never consults the program's definitions, so a
      `loop` over any other function fails as soon as it has an iteration
      to run. */
  lemma {:induction false} LoopOfDefinitionFails(f: string, acc: Value, ps: seq<Value>, i: nat)
    requires !Functions.IsBuiltin(f)
    requires i > 0
    ensures LoopIterations(f, acc, ps, i) == Err(RuntimeError("Could not find function " + f))
    decreases i
  {
    if i > 1 {
      LoopOfDefinitionFails(f, acc, ps, i - 1);
    }
  }

  /** The sampling loop of `eval_program`: when no evaluation fails, the
      algorithm has recorded exactly one more result per sample; otherwise
      it stopped early, having recorded fewer. Earlier results are kept. */
  lemma {:induction false} RunSamplesRecordsEach(o: Oracle, st: EvalState, e: Expression, i: nat)
    ensures var st' := RunSamples(o, st, e, i).1;
      |Finished(st.alg)| <= |Finished(st'.alg)| &&
      Finished(st'.alg)[..|Finished(st.alg)|] == Finished(st.alg)
    ensures RunSamples(o, st, e, i).0.Ok? ==>
      |Finished(RunSamples(o, st, e, i).1.alg)| == |Finished(st.alg)| + i
    ensures RunSamples(o, st, e, i).0.Err? ==>
      |Finished(RunSamples(o, st, e, i).1.alg)| < |Finished(st.alg)| + i
    decreases i
  {
    if i > 0 {
      RunSamplesRecordsEach(o, st, e, i - 1);
      var (r, st1) := RunSamples(o, st, e, i - 1);
      if r.Ok? {
        SampleOnceRecords(o, st1, e);
      }
    }
  }

  /** One pass of the sampling loop records the value just computed, or,
      when the evaluation fails, nothing. */
  lemma SampleOnceRecords(o: Oracle, st: EvalState, e: Expression)
    ensures SampleOnce(o, st, e).0.Ok? ==>
      Eval(o, st, e).0.Ok? &&
      Finished(SampleOnce(o, st, e).1.alg) == Finished(st.alg) + [Eval(o, st, e).0.value]
    ensures SampleOnce(o, st, e).0.Err? ==> Finished(SampleOnce(o, st, e).1.alg) == Finished(st.alg)
  {
    EvalKeepsScope(o, st, e);
  }
}

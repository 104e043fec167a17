/** The interpreter object of ppl-impl/src/interpreter.rs: a scope stack
    that `let` and `foreach` push onto and truncate, a table of function
    definitions, the inference algorithm it reports to and the random
    stream. Every method is proved to do what the functions of module
    Semantics say. */
module Interpreter {
  import opened Types
  import opened Ast
  import opened Distributions
  import opened Semantics
  import Functions
  import Numbering
  import Lw = LikelihoodWeightingAlg
  import Po = PriorOnlyAlg

  /** The inference algorithm the interpreter drives (its `T: InferenceAlg`). */
  datatype Alg = UseLw(lw: Lw.LikelihoodWeighting) | UsePo(po: Po.PriorOnly)

  /** A user definition as stored by `eval_program`. */
  datatype Function = Function(parameters: seq<string>, body: Expression)

  /** The function table after inserting `ds` in order into `m`. */
  function Register(m: map<string, Function>, ds: seq<Definition>): map<string, Function>
  {
    if ds == [] then m
    else
      var d := ds[|ds| - 1];
      Register(m, ds[..|ds| - 1])[d.name := Function(d.params, d.body)]
  }

  /** A name no definition uses keeps its entry. */
  lemma {:induction false} RegisterKeepsOthers(m: map<string, Function>, ds: seq<Definition>, x: string)
    requires forall k :: 0 <= k < |ds| ==> ds[k].name != x
    ensures x in Register(m, ds) <==> x in m
    ensures x in m ==> Register(m, ds)[x] == m[x]
    decreases |ds|
  {
    if ds != [] {
      var front := ds[..|ds| - 1];
      assert forall k :: 0 <= k < |front| ==> front[k] == ds[k];
      RegisterKeepsOthers(m, front, x);
    }
  }

  /** A defined name maps to its last definition: `HashMap::insert`
      overwrites. */
  lemma {:induction false} RegisterLastWins(m: map<string, Function>, ds: seq<Definition>, k: nat)
    requires k < |ds|
    requires forall j :: k < j < |ds| ==> ds[j].name != ds[k].name
    ensures ds[k].name in Register(m, ds)
    ensures Register(m, ds)[ds[k].name] == Function(ds[k].params, ds[k].body)
    decreases |ds|
  {
    if k < |ds| - 1 {
      var front := ds[..|ds| - 1];
      assert front[k] == ds[k];
      RegisterLastWins(m, front, k);
    }
  }

  class Interpreter {
    var scope: seq<Binding>
    var functions: map<string, Function>
    const alg: Alg
    const rng: Rng

    /** The algorithm object, whichever kind it is. */
    function AlgObject(): object {
      if alg.UseLw? then alg.lw else alg.po
    }

    function AlgState(): Semantics.AlgState
      reads AlgObject()
    {
      match alg
      case UseLw(x) => LwAlg(x.State())
      case UsePo(y) => PoAlg(y.State())
    }

    /** Everything an evaluation reads and changes. */
    function State(): EvalState
      reads this, rng, AlgObject()
    {
      EvalState(scope, AlgState(), rng.drawn)
    }

    /** `Interpreter::new`: an empty scope and no functions. */
    constructor (alg: Alg, rng: Rng)
      ensures this.alg == alg && this.rng == rng
      ensures scope == [] && functions == map[]
    {
      this.alg := alg;
      this.rng := rng;
      scope := [];
      functions := map[];
    }

    /** `lookup_var`: the scope is searched from the top down. */
    method LookupVar(name: string) returns (r: Option<Value>)
      ensures r == Semantics.LookupVar(scope, name)
    {
      var i := |scope|;
      assert scope[..i] == scope;
      while i > 0
        invariant 0 <= i <= |scope|
        invariant Semantics.LookupVar(scope, name) == Semantics.LookupVar(scope[..i], name)
      {
        assert scope[..i][..i - 1] == scope[..i - 1];
        if scope[i - 1].ident == name {
          return Some(scope[i - 1].val);
        }
        i := i - 1;
      }
      r := None;
    }

    /** `Interpreter::eval`. */
    method Eval(e: Expression) returns (r: Result<Value>)
      modifies this, rng, AlgObject()
      ensures (r, State()) == Semantics.Eval(rng.oracle, old(State()), e)
      ensures functions == old(functions)
      decreases Size(e), 1
    {
      match e {
        case Variable(x) =>
          var v := LookupVar(x);
          if v.Some? {
            r := Ok(v.value);
          } else {
            r := Err(RuntimeError("Variable " + x + " not defined."));
          }
        case Let(bs, body) =>
          r := EvalLet(bs, body);
        case Integer(i) =>
          r := Ok(Value.Integer(i));
        case Float(f) =>
          r := Ok(Value.Float(f));
        case Sample(d, number) =>
          r := EvalSample(d, number);
        case FunctionApplication(f, args) =>
          r := EvalApplication(f, args);
        case Observe(d, v, number) =>
          r := EvalObserve(d, v, number);
        case ForEach(n, bs, body) =>
          r := EvalForEach(n, bs, body);
        case Loop(n, acc, f, ps) =>
          r := EvalLoop(n, acc, f, ps);
        case Vector(es) =>
          r := EvalVector(es);
        case _ =>
          r := Err(RuntimeError("Unimplemented: " + KindName(e)));
      }
    }

    /** A built-in function applied to its evaluated arguments. */
    method EvalApplication(f: string, args: seq<Expression>) returns (r: Result<Value>)
      modifies this, rng, AlgObject()
      ensures (r, State()) == Semantics.EvalApplication(rng.oracle, old(State()), f, args)
      ensures functions == old(functions)
      decreases Size(FunctionApplication(f, args)), 0
    {
      var vals := EvalAll(args);
      if vals.Err? {
        r := Err(vals.error);
      } else {
        r := Functions.DispatchFunction(f, vals.value);
      }
    }

    /** A vector literal: its elements, evaluated in order. */
    method EvalVector(es: seq<Expression>) returns (r: Result<Value>)
      modifies this, rng, AlgObject()
      ensures (r, State()) == Semantics.EvalVector(rng.oracle, old(State()), es)
      ensures functions == old(functions)
      decreases Size(Expression.Vector(es)), 0
    {
      var vals := EvalAll(es);
      if vals.Err? {
        r := Err(vals.error);
      } else {
        r := Ok(Value.Vector(vals.value));
      }
    }

    /** `eval_all`: evaluates left to right and stops at the first error. */
    method EvalAll(es: seq<Expression>) returns (r: Result<seq<Value>>)
      modifies this, rng, AlgObject()
      ensures (r, State()) == Semantics.EvalAll(rng.oracle, old(State()), es)
      ensures functions == old(functions)
      decreases SizeAll(es), 2
    {
      ghost var st0 := State();
      var vals: seq<Value> := [];
      var i := 0;
      while i < |es|
        invariant 0 <= i <= |es|
        invariant (Ok(vals), State()) == Semantics.EvalAll(rng.oracle, st0, es[..i])
        invariant functions == old(functions)
      {
        SizeAllElem(es, i);
        var v := Eval(es[i]);
        assert es[..i + 1][..i] == es[..i];
        if v.Err? {
          EvalAllStopsAtError(rng.oracle, st0, es, i + 1);
          return Err(v.error);
        }
        vals := vals + [v.value];
        i := i + 1;
      }
      assert es[..i] == es;
      r := Ok(vals);
    }

    /** `let`: bindings are evaluated and pushed one at a time, then the
        body is evaluated; the scope is truncated back on every path. */
    method EvalLet(bs: seq<(string, Expression)>, body: seq<Expression>) returns (r: Result<Value>)
      modifies this, rng, AlgObject()
      ensures (r, State()) == Semantics.EvalLet(rng.oracle, old(State()), bs, body)
      ensures functions == old(functions)
      decreases Size(Let(bs, body)), 0
    {
      if |bs| == 0 {
        return Err(RuntimeError("Let must have at least one binding."));
      }
      if |body| == 0 {
        return Err(RuntimeError("Let must have a body."));
      }
      var oldScopeCount := |scope|;
      var pushed := PushBindings(bs);
      if pushed.Err? {
        scope := Truncate(scope, oldScopeCount);
        return Err(pushed.error);
      }
      var vals := EvalAll(body);
      scope := Truncate(scope, oldScopeCount);
      if vals.Err? {
        return Err(vals.error);
      }
      r := PopUnwrap(vals.value);
    }

    /** The bindings of a `let`: each is evaluated and pushed in turn. */
    method PushBindings(bs: seq<(string, Expression)>) returns (r: Result<()>)
      modifies this, rng, AlgObject()
      ensures (r, State()) == EvalLetBindings(rng.oracle, old(State()), bs)
      ensures functions == old(functions)
      decreases SizeBindings(bs), 2
    {
      ghost var st0 := State();
      var i := 0;
      while i < |bs|
        invariant 0 <= i <= |bs|
        invariant (Ok(()), State()) == EvalLetBindings(rng.oracle, st0, bs[..i])
        invariant functions == old(functions)
      {
        SizeBindingsElem(bs, i);
        var v := Eval(bs[i].1);
        assert bs[..i + 1][..i] == bs[..i];
        if v.Err? {
          LetBindingsStopAtError(rng.oracle, st0, bs, i + 1);
          assert bs[..|bs|] == bs;
          return Err(v.error);
        }
        scope := scope + [Binding(bs[i].0, v.value)];
        i := i + 1;
      }
      assert bs[..i] == bs;
      r := Ok(());
    }

    /** `sample`: the distribution operand is evaluated, then the algorithm
        is asked for a draw. */
    method EvalSample(d: Expression, number: Option<nat>) returns (r: Result<Value>)
      modifies this, rng, AlgObject()
      ensures (r, State()) == Semantics.EvalSample(rng.oracle, old(State()), d, number)
      ensures functions == old(functions)
      decreases Size(Sample(d, number)), 0
    {
      var dv := Eval(d);
      if dv.Err? {
        return dv;
      }
      if !dv.value.Distribution? {
        return Err(RuntimeError("Sample must only be called on a Distribution value."));
      }
      r := AlgSampleCall(dv.value.dist, number);
    }

    /** The algorithm's `sample`. */
    method AlgSampleCall(d: Dist, number: Option<nat>) returns (r: Result<Value>)
      modifies rng, AlgObject()
      ensures (r, State()) == Semantics.AlgSample(rng.oracle, old(State()), d)
    {
      match alg {
        case UseLw(x) => r := x.Sample(rng, d, number);
        case UsePo(y) => r := y.Sample(rng, d, number);
      }
    }

    /** `observe`: the distribution, then the observed value, then the
        algorithm's `observe`. */
    method EvalObserve(d: Expression, v: Expression, number: Option<nat>) returns (r: Result<Value>)
      modifies this, rng, AlgObject()
      ensures (r, State()) == Semantics.EvalObserve(rng.oracle, old(State()), d, v, number)
      ensures functions == old(functions)
      decreases Size(Observe(d, v, number)), 0
    {
      var dv := Eval(d);
      if dv.Err? {
        return dv;
      }
      if !dv.value.Distribution? {
        return Err(RuntimeError("First expression in `observe` must evaluate to a distribution."));
      }
      r := ObserveValue(dv.value.dist, v, number);
    }

    /** The observed expression, then the algorithm's `observe`. */
    method ObserveValue(d: Dist, v: Expression, number: Option<nat>) returns (r: Result<Value>)
      modifies this, rng, AlgObject()
      ensures (r, State()) == Semantics.ObserveValue(rng.oracle, old(State()), d, v)
      ensures functions == old(functions)
      decreases Size(v), 2
    {
      var val := Eval(v);
      if val.Err? {
        return val;
      }
      r := AlgObserveCall(d, val.value, number);
    }

    /** The algorithm's `observe`. */
    method AlgObserveCall(d: Dist, val: Value, number: Option<nat>) returns (r: Result<Value>)
      modifies rng, AlgObject()
      ensures (r, State()) == Semantics.AlgObserve(rng.oracle, old(State()), d, val)
    {
      match alg {
        case UseLw(x) => r := x.Observe(rng, d, val, number);
        case UsePo(y) => r := y.Observe(rng, d, val, number);
      }
    }

    /** `foreach`: every binding must give a vector of `n` elements; then
        iteration `i` binds the `i`-th elements, evaluates the body and
        truncates the scope back. */
    method EvalForEach(n: nat, bs: seq<(string, Expression)>, body: seq<Expression>) returns (r: Result<Value>)
      modifies this, rng, AlgObject()
      ensures (r, State()) == Semantics.EvalForEach(rng.oracle, old(State()), n, bs, body)
      ensures functions == old(functions)
      decreases Size(ForEach(n, bs, body)), 0
    {
      var bound := BindForEach(n, bs);
      if bound.Err? {
        return Err(bound.error);
      }
      r := ForEachLoop(n, bound.value, body);
    }

    /** The bindings of a `foreach`: each is evaluated in the enclosing
        scope and must be a vector of `n` elements. */
    method BindForEach(n: nat, bs: seq<(string, Expression)>) returns (r: Result<seq<(string, seq<Value>)>>)
      modifies this, rng, AlgObject()
      ensures (r, State()) == EvalForEachBindings(rng.oracle, old(State()), n, bs)
      ensures functions == old(functions)
      decreases SizeBindings(bs), 3
    {
      ghost var st0 := State();
      var bound: seq<(string, seq<Value>)> := [];
      var i := 0;
      while i < |bs|
        invariant 0 <= i <= |bs|
        invariant (Ok(bound), State()) == EvalForEachBindings(rng.oracle, st0, n, bs[..i])
        invariant functions == old(functions)
      {
        SizeBindingsElem(bs, i);
        var v := BindingVector(n, bs[i].1);
        assert bs[..i + 1][..i] == bs[..i];
        if v.Err? {
          ForEachBindingsStopAtError(rng.oracle, st0, n, bs, i + 1);
          assert bs[..|bs|] == bs;
          return Err(v.error);
        }
        bound := bound + [(bs[i].0, v.value)];
        i := i + 1;
      }
      assert bs[..i] == bs;
      r := Ok(bound);
    }

    /** The value of one `foreach` binding, which must be a vector of `n`
        elements. */
    method BindingVector(n: nat, e: Expression) returns (r: Result<seq<Value>>)
      modifies this, rng, AlgObject()
      ensures (r, State()) == Semantics.BindingVector(rng.oracle, old(State()), n, e)
      ensures functions == old(functions)
      decreases Size(e), 2
    {
      var v := Eval(e);
      r := CheckBindingVector(n, v);
    }

    /** The iterations of a `foreach` over its evaluated bindings. */
    method ForEachLoop(n: nat, bound: seq<(string, seq<Value>)>, body: seq<Expression>) returns (r: Result<Value>)
      requires forall k :: 0 <= k < |bound| ==> |bound[k].1| == n
      modifies this, rng, AlgObject()
      ensures var (ri, st) := ForEachIterations(rng.oracle, old(State()), n, bound, body, n);
        State() == st && r == (if ri.Err? then Err(ri.error) else Ok(Value.Vector(ri.value)))
      ensures functions == old(functions)
      decreases SizeAll(body), 4
    {
      ghost var st1 := State();
      var returnVec: seq<Value> := [];
      var j := 0;
      while j < n
        invariant 0 <= j <= n
        invariant (Ok(returnVec), State()) == ForEachIterations(rng.oracle, st1, n, bound, body, j)
        invariant functions == old(functions)
      {
        var last := Iterate(bound, body, j);
        if last.Err? {
          IterationsStopAtError(rng.oracle, st1, n, bound, body, j + 1, n);
          return Err(last.error);
        }
        returnVec := returnVec + [last.value];
        j := j + 1;
      }
      r := Ok(Value.Vector(returnVec));
    }

    /** One iteration: the `i`-th elements are pushed, the body is
        evaluated, the scope is truncated back and the last value popped. */
    method Iterate(bound: seq<(string, seq<Value>)>, body: seq<Expression>, i: nat) returns (r: Result<Value>)
      requires forall k :: 0 <= k < |bound| ==> i < |bound[k].1|
      modifies this, rng, AlgObject()
      ensures (r, State()) == Iteration(rng.oracle, old(State()), bound, body, i)
      ensures functions == old(functions)
      decreases SizeAll(body), 3
    {
      var oldScopeCount := |scope|;
      scope := scope + IterationBindings(bound, i);
      var vals := EvalAll(body);
      scope := Truncate(scope, oldScopeCount);
      if vals.Err? {
        return Err(vals.error);
      }
      r := PopUnwrap(vals.value);
    }

    /** `loop`: the accumulator and the parameters are evaluated once, then
        the function is called `n` times, threading the accumulator. */
    method EvalLoop(n: nat, acc: Expression, f: string, ps: seq<Expression>) returns (r: Result<Value>)
      modifies this, rng, AlgObject()
      ensures (r, State()) == Semantics.EvalLoop(rng.oracle, old(State()), n, acc, f, ps)
      ensures functions == old(functions)
      decreases Size(Loop(n, acc, f, ps)), 0
    {
      var a0 := Eval(acc);
      if a0.Err? {
        return a0;
      }
      var params := EvalAll(ps);
      if params.Err? {
        return Err(params.error);
      }
      r := LoopCalls(n, a0.value, f, params.value);
    }

    /** The calls of a `loop`: call `i` gets `[Integer(i), acc]` followed by
        the parameters, and its result is the next accumulator. */
    static method LoopCalls(n: nat, acc: Value, f: string, params: seq<Value>) returns (r: Result<Value>)
      ensures r == LoopIterations(f, acc, params, n)
    {
      var accumulator := acc;
      var i := 0;
      while i < n
        invariant 0 <= i <= n
        invariant LoopIterations(f, acc, params, i) == Ok(accumulator)
      {
        var args := [Value.Integer(i), accumulator] + params;
        var next := Functions.DispatchFunction(f, args);
        if next.Err? {
          LoopStopsAtError(f, acc, params, i + 1, n);
          return next;
        }
        accumulator := next.value;
        i := i + 1;
      }
      r := Ok(accumulator);
    }

    /** The algorithm's `finish_one_evaluation`. */
    method FinishOneEvaluation(val: Value)
      modifies AlgObject()
      ensures State() == old(State()).(alg := AlgFinish(old(AlgState()), val))
      ensures functions == old(functions)
    {
      match alg {
        case UseLw(x) => x.FinishOneEvaluation(val);
        case UsePo(y) => y.FinishOneEvaluation(val);
      }
    }

    /** `eval_program`: the program is numbered, its definitions are
        stored, and the main expression is evaluated `nSamples` times, each
        result handed to the algorithm, stopping at the first error. */
    method EvalProgram(p: Program, nSamples: nat) returns (r: Result<()>)
      modifies this, rng, AlgObject()
      ensures (r, State()) == RunSamples(rng.oracle, old(State()), Numbering.NumberProgram(p).expression, nSamples)
      ensures functions == Register(old(functions), Numbering.NumberProgram(p).definitions)
    {
      ghost var st0 := State();
      var q := Number(p);
      RegisterDefinitions(q.definitions);
      assert State() == st0;
      r := RunSamplesLoop(q.expression, nSamples);
    }

    /** `assign_variable_numbers` on the program to be run; its properties
        are those of `Numbering.AssignVariableNumbers`. */
    static method Number(p: Program) returns (q: Program)
      ensures q == Numbering.NumberProgram(p)
    {
      q := Numbering.AssignVariableNumbers(p);
    }

    /** Every definition is inserted into the function table, in order. */
    method RegisterDefinitions(ds: seq<Definition>)
      modifies this
      ensures functions == Register(old(functions), ds)
      ensures State() == old(State())
    {
      var i := 0;
      while i < |ds|
        invariant 0 <= i <= |ds|
        invariant functions == Register(old(functions), ds[..i])
        invariant scope == old(scope)
      {
        var d := ds[i];
        assert ds[..i + 1][..i] == ds[..i];
        functions := functions[d.name := Function(d.params, d.body)];
        i := i + 1;
      }
      assert ds[..i] == ds;
    }

    /** The sampling loop of `eval_program`. */
    method RunSamplesLoop(e: Expression, nSamples: nat) returns (r: Result<()>)
      modifies this, rng, AlgObject()
      ensures (r, State()) == RunSamples(rng.oracle, old(State()), e, nSamples)
      ensures functions == old(functions)
    {
      ghost var st0 := State();
      r := Ok(());
      var k := 0;
      while k < nSamples && r.Ok?
        invariant 0 <= k <= nSamples
        invariant (r, State()) == RunSamples(rng.oracle, st0, e, k)
        invariant functions == old(functions)
      {
        r := RunOneSample(e);
        k := k + 1;
      }
      if r.Err? {
        RunSamplesStopAtError(rng.oracle, st0, e, k, nSamples);
      }
    }

    /** One pass of the sampling loop: evaluate, then hand the value to
        the algorithm. */
    method RunOneSample(e: Expression) returns (r: Result<()>)
      modifies this, rng, AlgObject()
      ensures (r, State()) == SampleOnce(rng.oracle, old(State()), e)
      ensures functions == old(functions)
    {
      var v := Eval(e);
      if v.Err? {
        return Err(v.error);
      }
      FinishOneEvaluation(v.value);
      r := Ok(());
    }
  }
}

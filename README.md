# A verified model of the ThisPPL interpreter and its chart renderer

This project models two parts of the repository in Dafny.

**The FOPPL interpreter in `ppl-impl/src`.** A FOPPL program is a main expression plus a list of function definitions.
- Before evaluation, every `sample` and `observe` node is numbered in pre-order.
- The main expression is then evaluated `n_samples` times.
- Each evaluation keeps a stack of variable bindings (the scope). `let` and `foreach` push onto it and truncate it back.
- `sample` and `observe` are handed to an inference algorithm.
- After each evaluation the algorithm is told the result (`finish_one_evaluation`).
- At the end the algorithm turns its results into a data file of numbers and nested lists of numbers.

Two algorithms are modelled:
- likelihood weighting, which records a log-weight per evaluation;
- prior-only sampling, which ignores observations.

The data file is written as untagged JSON. A JSON document can be read back into a runtime value.

**The chart renderer `thisppl-programs/viz.py` and its older copy `ppl-impl/viz.py`.** Only the parts that compute something are modelled:
- the side of the square grid of charts;
- the cell each data file is drawn in;
- the split of a weighted data file into observations and log-weights;
- the choice of chart from the first observation;
- the state-by-iteration occupancy matrix of `bincount_hist`, and the `plot` path that feeds it: the samples matrix is reshaped, `plot_hmm` sizes the rows, and one weight is read per reshaped row;
- the node and edge statements `render_graphs` hands to graphviz.

## Model structure

| file | module | what it holds |
|---|---|---|
| types.dfy | Types | `Value`, `ValueType`, `Result`/`Option`, the `try_into_*` helpers |
| ast.dfy | Ast | the expression tree as the interpreter uses it, its children, pre-order and size |
| numbering.dfy | Numbering | `traverse_expr` and `assign_variable_numbers` |
| functions.dfy | Functions | the built-in table, the arithmetic built-ins and `assert_all_numeric_type` |
| inference.dfy | Inference | `ProgramResult`, `DataFile`, `flatten_to_numeric_vec_only` and its inverse |
| distributions.dfy | Distributions | distributions seen from outside: a draw oracle and a log-density oracle, plus a random stream |
| likelihood_weighting.dfy | LikelihoodWeightingAlg | the likelihood-weighting state machine, as a value and as a class |
| prior_only.dfy | PriorOnlyAlg | the prior-only state machine |
| semantics.dfy | Semantics | what `eval` computes, as functions that thread scope, algorithm state and random stream |
| eval_properties.dfy | EvalProperties | properties of evaluation |
| interpreter.dfy | Interpreter | the interpreter object, with its methods proved against Semantics |
| json.dfy | Json | JSON values and the untagged serialization of results |
| ancestral_sampler.dfy | AncestralSampler | the conversion from JSON to `Value` |
| viz.dfy | Viz | grid, cells, splitting weighted files, chart choice |
| occupancy.dfy | Occupancy | `reshape`, `plot_hmm`'s `n`, `bincount_hist`, the `plot` path through them, and the column sums |
| factor_graph.dfy | FactorGraph | `render_graphs` |
| legacy_viz.dfy | LegacyViz | the transposed grid placement of the older renderer |

### Modelling choices
- **Randomness and distributions.**
  - A distribution is an opaque handle.
  - Drawing from it and evaluating its log-density are two given functions, the `Oracle`.
  - The random stream is the class `Rng`. It only counts the draws it has handed out.
  - The `n`-th draw from `d` is `oracle.draw(d, n)`.
- **Floats** are Dafny reals. Rounding, NaN and infinities are not modelled.
- **Integers** are unbounded. i64 overflow is discussed under Left out.
- **Rust panics** become `Err(Panic(..))`. Examples are an `unwrap` on an empty body or integer division by zero.
- **Expression shape.** It follows its use in `interpreter.rs`, not the declarations in `ast.rs`, which disagree with it:
  - `sample`/`observe` carry an optional number;
  - `let` has a body sequence;
  - `foreach` and `loop` exist.
- **Built-ins take already evaluated values.**
  - `interpreter.rs` evaluates the arguments, then hands the values to `dispatch_function`.
  - `functions.rs` as written takes expressions and evaluates them a second time.
  - The model follows the interpreter.
  - As a consequence, `+` and `*` fail on the first non-numeric value in argument order. So does the source, because it evaluates and checks the arguments one at a time.
- **The inference algorithm.** The generic parameter `T: InferenceAlg` becomes the datatype `Interpreter.Alg`, which wraps one of the two algorithm objects.
- **The JSON reader** is given the parsed document. serde_json's number classes are kept: non-negative u64, negative i64 and f64.
- **`render_graphs`.**
  - The `P[v][1][0]` lookup is collapsed to a map from vertex to distribution name.
  - The arcs `A` are the list of entries in dictionary order.

## Model

| member | source | states |
|---|---|---|
| Types.GetType | ppl-impl/src/types.rs:40-49 | the tag is the variant's tag, for each of the six variants (both directions) |
| Types.TypeName | ppl-impl/src/types.rs:23-27 | a tag prints as its variant's `Debug` name: exactly `TInteger` prints "Integer" and exactly `TFloat` prints "Float", and every name is one of the six variant names |
| Types.TypeNameInjective | ppl-impl/src/types.rs:23-27 | two tags print the same name exactly when they are the same tag |
| Types.TryIntoUsize | ppl-impl/src/types.rs:51-56 | succeeds exactly on `Integer(x)` with `x > 0` and returns `x`; otherwise the caller's message |
| Types.TryIntoInteger | ppl-impl/src/types.rs:58-63 | succeeds exactly on an Integer and returns its payload; no coercion from Float |
| Types.TryIntoFloat | ppl-impl/src/types.rs:65-70 | succeeds exactly on a Float and returns its payload; no coercion from Integer |
| Types.TryIntoNumeric | ppl-impl/src/types.rs:72-78 | succeeds exactly on Integer or Float; an Integer is converted to a float |
| Types.TryIntoVector | ppl-impl/src/types.rs:80-85 | succeeds exactly on a Vector and returns its elements unchanged |
| Types.VecTryIntoNumeric | ppl-impl/src/types.rs:94-102 | succeeds exactly when every element is numeric; same length, element k is element k's number |
| Types.TryIntoOne | ppl-impl/src/types.rs:104-109 | succeeds exactly when the length is 1 and returns that element |
| Numbering.TraverseVisitsPreOrder | ppl-impl/src/interpreter.rs:20-83 | a walk that records the nodes it visits sees them in pre-order (node before children) and leaves the tree unchanged |
| Numbering.TraverseAllVisitsPreOrder | ppl-impl/src/interpreter.rs:24-31 | the same for a sequence of subexpressions, visited left to right |
| Numbering.NumberNode | ppl-impl/src/interpreter.rs:88-98 | a `sample`/`observe` node gets the counter as its number and the counter advances by one; every other node and the counter are unchanged |
| Numbering.NumberingIsPreOrderRange | ppl-impl/src/interpreter.rs:20-83 | numbering a tree from `c` gives its random nodes, in pre-order, the ids `c, c+1, …`, returns `c` plus their count and changes nothing but the numbers |
| Numbering.NumberingAll | ppl-impl/src/interpreter.rs:24-31 | the same for a sequence of subexpressions numbered left to right |
| Numbering.NumberDefinitionsRange | ppl-impl/src/interpreter.rs:105-112 | after the main expression, the definition bodies continue the same id range in order, each body otherwise unchanged |
| Numbering.NumberProgramIsPreOrderRange | ppl-impl/src/interpreter.rs:85-113 | the ids of a numbered program, main expression first and then each definition body, are exactly `0..k-1` in pre-order; nothing else changes |
| Numbering.AssignVariableNumbers | ppl-impl/src/interpreter.rs:85-113 | the method computes `NumberProgram`, and so has the same id-range, shape and definitions guarantees |
| Functions.AssertAllNumericType | ppl-impl/src/functions.rs:14-38 | the loop computes the numeric-type function, which stops at the first rejected element |
| Functions.NumericTypeErrorSticks | ppl-impl/src/functions.rs:32-34 | once a prefix is rejected, the whole list is rejected with the same error |
| Functions.NumericTypeAccepts | ppl-impl/src/functions.rs:14-38 | accepted exactly when all elements are numeric and no Integer follows a Float; Integer exactly when all are Integers (the empty list included); Float exactly when some Float appears |
| Functions.NumericTypeIsOrderSensitive | ppl-impl/src/functions.rs:28-34 | `[1, 1.0]` is Float but `[1.0, 1]` is an error naming Integer |
| Functions.TotalsAgree | ppl-impl/src/functions.rs:88-110 | on all-Integer arguments the float accumulator equals the integer accumulator |
| Functions.Arithmetic | ppl-impl/src/functions.rs:83-141 | `+`/`*` succeed exactly on at least two numeric arguments; the result is Integer exactly when all are Integers, and its number is the sum/product |
| Functions.ArithmeticLoop | ppl-impl/src/functions.rs:83-141 | the accumulating loop computes `Arithmetic` |
| Functions.TruncDivRemainder | ppl-impl/src/functions.rs:185-187 | the integer quotient truncates toward zero: the remainder is smaller than the divisor, has the dividend's sign, and the magnitude of the quotient is the floor of the magnitudes' quotient |
| Functions.SubtractionOrNegation | ppl-impl/src/functions.rs:143-177 | one argument negates and keeps the tag; two subtract, Integer exactly when both are; any other count is the "Too many arguments" error; accepted argument types as the numeric-type check allows |
| Functions.Division | ppl-impl/src/functions.rs:179-202 | exactly two numeric arguments; Integer/Integer is the truncated quotient, and a zero divisor panics; otherwise a Float that times the divisor gives the dividend |
| Functions.Dispatch | ppl-impl/src/functions.rs:41-81 | a name outside the table is "Could not find function"; every stub is "Unimplemented" |
| Functions.DispatchFunction | ppl-impl/src/functions.rs:41-81 | the dispatch method computes `Dispatch` |
| Functions.DispatchResults | ppl-impl/src/functions.rs:204-255 | only `+ * - / vector` can succeed, and a success is a number or the vector of the arguments |
| Inference.Flatten | ppl-impl/src/inference.rs:7-16 | on success the output has the input's length, and item k is element k flattened; a failure carries the non-numeric message |
| Inference.FlattenValueSucceeds | ppl-impl/src/inference.rs:9-13 | a value flattens exactly when it is a tree of Integers and Floats (no Boolean, Distribution or Null at any depth) |
| Inference.FlattenSucceeds | ppl-impl/src/inference.rs:7-16 | the list flattens exactly when every element does |
| Inference.FlattenValueRoundTrip | ppl-impl/src/inference.rs:10-12 | unflattening a flattened value gives it back: tags, depth and inner lengths are kept |
| Inference.FlattenRoundTrip | ppl-impl/src/inference.rs:7-16 | the same for the whole list |
| Inference.UnflattenRoundTrip | ppl-impl/src/inference.rs:10-12 | every result is the flattening of exactly one value |
| Inference.UnflattenAllRoundTrip | ppl-impl/src/inference.rs:7-16 | the same for a list of results |
| Inference.UnflattenAll | ppl-impl/src/inference.rs:12 | the inverse of flattening a list keeps its length and unflattens element by element, in order |
| Distributions.Rng.Sample | ppl-impl/src/types.rs:7-11 | a draw is the oracle's next draw from the stream, and the stream advances by one |
| LikelihoodWeightingAlg.Init | ppl-impl/src/inference/likelihood_weighting.rs:12-18 | starts with log-weight 0 and no results or weights |
| LikelihoodWeightingAlg.ObserveStep | ppl-impl/src/inference/likelihood_weighting.rs:26-30 | succeeds exactly when the log-density does, returns the observed value unchanged and adds the log-density to the log-weight; a failure leaves the state alone |
| LikelihoodWeightingAlg.FinishStep | ppl-impl/src/inference/likelihood_weighting.rs:31-36 | appends the result and the current log-weight, resets the log-weight to 0, and keeps results and weights the same length |
| LikelihoodWeightingAlg.Finalize | ppl-impl/src/inference/likelihood_weighting.rs:38-50 | fails exactly when a result is non-numeric; otherwise the file is weighted, as long as the shorter of results and weights (the zip), and entry k pairs flattened result k with weight k |
| LikelihoodWeightingAlg.ObserveAllAdds | ppl-impl/src/inference/likelihood_weighting.rs:27 | a run of observes adds the sum of their log-densities |
| LikelihoodWeightingAlg.RunRecordsWeights | ppl-impl/src/inference/likelihood_weighting.rs:27-35 | after any run from `new`, weight k is the sum of evaluation k's observed log-densities, result k is its result, and the log-weight is 0 again |
| LikelihoodWeightingAlg.LikelihoodWeighting.constructor | ppl-impl/src/inference/likelihood_weighting.rs:12-18 | the object's state is `Init()` |
| LikelihoodWeightingAlg.LikelihoodWeighting.Sample | ppl-impl/src/inference/likelihood_weighting.rs:22-24 | delegates to the distribution and leaves the log-weight alone |
| LikelihoodWeightingAlg.LikelihoodWeighting.Observe | ppl-impl/src/inference/likelihood_weighting.rs:26-30 | the object's new state and result are `ObserveStep` |
| LikelihoodWeightingAlg.LikelihoodWeighting.FinishOneEvaluation | ppl-impl/src/inference/likelihood_weighting.rs:31-36 | the object's new state is `FinishStep` |
| LikelihoodWeightingAlg.LikelihoodWeighting.FinalizeAndMakeDataset | ppl-impl/src/inference/likelihood_weighting.rs:38-50 | on the object's fields: fails with the flattening message exactly when some result is not a numeric tree; otherwise a weighted file as long as the shorter of results and weights, entry `k` pairing result `k` (reading back to `results[k]`) with `Float(weights[k])` |
| PriorOnlyAlg.Finalize | ppl-impl/src/inference/prior_only.rs:43-50 | fails exactly when a result is non-numeric; otherwise unweighted, one entry per result, and unflattening the entries gives the results back |
| PriorOnlyAlg.PriorOnly.constructor | ppl-impl/src/inference/prior_only.rs:13-18 | starts with no results |
| PriorOnlyAlg.PriorOnly.Sample | ppl-impl/src/inference/prior_only.rs:22-28 | returns the next draw from the distribution |
| PriorOnlyAlg.PriorOnly.Observe | ppl-impl/src/inference/prior_only.rs:30-37 | ignores the observed value and returns the next draw from the distribution |
| PriorOnlyAlg.PriorOnly.FinishOneEvaluation | ppl-impl/src/inference/prior_only.rs:39-41 | appends the result and changes nothing else |
| PriorOnlyAlg.PriorOnly.FinalizeAndMakeDataset | ppl-impl/src/inference/prior_only.rs:43-50 | on the object's results: fails with the flattening message exactly when some result is not a numeric tree; otherwise an unweighted file with one entry per result, entry `k` reading back to `results[k]` |
| Semantics.LookupVar | ppl-impl/src/interpreter.rs:135-143 | `None` exactly when no binding has that name |
| Semantics.LookupVarFindsInnermost | ppl-impl/src/interpreter.rs:136-139 | the value is that of the most recently pushed binding with the name |
| Semantics.PopUnwrap | ppl-impl/src/interpreter.rs:212-213 | the last value, or a panic on an empty list |
| Semantics.AlgFinish | ppl-impl/src/interpreter.rs:170 | the algorithm records exactly one more result, at the end |
| Semantics.AlgObserve | ppl-impl/src/interpreter.rs:245-249 | the algorithm's `observe` neither changes the scope nor records a result |
| Semantics.EvalForEachBindings | ppl-impl/src/interpreter.rs:262-280 | on success, one bound vector per binding, with its name, each of exactly `n_iters` values |
| Semantics.BindingVector | ppl-impl/src/interpreter.rs:265-277 | an accepted binding value has exactly `n_iters` elements |
| Semantics.CheckBindingVector | ppl-impl/src/interpreter.rs:266-277 | a value is accepted exactly when it is a vector of `n_iters` elements, which are kept; an evaluation error is passed on unchanged |
| Semantics.IterationBindings | ppl-impl/src/interpreter.rs:285-289 | iteration `i` binds each name to element `i` of its vector, in binding order |
| Semantics.EvalAllStopsAtError | ppl-impl/src/interpreter.rs:327-333 | `eval_all` stops at the first failing argument |
| Semantics.LetBindingsStopAtError | ppl-impl/src/interpreter.rs:195-202 | `let` stops at the first failing binding |
| Semantics.ForEachBindingsStopAtError | ppl-impl/src/interpreter.rs:262-280 | `foreach` stops at the first failing binding |
| Semantics.IterationsStopAtError | ppl-impl/src/interpreter.rs:283-294 | `foreach` stops at the first failing iteration |
| Semantics.LoopStopsAtError | ppl-impl/src/interpreter.rs:308-315 | `loop` stops at the first failing call |
| Semantics.RunSamplesStopAtError | ppl-impl/src/interpreter.rs:167-173 | the sampling loop stops at the first failing evaluation |
| EvalProperties.EvalAllLength | ppl-impl/src/interpreter.rs:327-333 | on success, one value per argument |
| EvalProperties.EvalKeepsScope | ppl-impl/src/interpreter.rs:176-325 | every evaluation, successful or not, leaves the scope as it found it and finishes no evaluation |
| EvalProperties.LetKeepsScope | ppl-impl/src/interpreter.rs:194-211 | `let` truncates the scope back to its length on entry, on success and on failure |
| EvalProperties.ObserveKeepsScope | ppl-impl/src/interpreter.rs:235-253 | `observe` leaves the scope unchanged |
| EvalProperties.ForEachKeepsScope | ppl-impl/src/interpreter.rs:254-297 | `foreach` leaves the scope as on entry |
| EvalProperties.LoopKeepsScope | ppl-impl/src/interpreter.rs:298-318 | `loop` leaves the scope unchanged |
| EvalProperties.EvalAllKeepsScope | ppl-impl/src/interpreter.rs:327-333 | evaluating a list leaves the scope unchanged |
| EvalProperties.LetBindingsExtendScope | ppl-impl/src/interpreter.rs:195-208 | pushing `let` bindings only adds on top of the scope |
| EvalProperties.ForEachBindingsKeepScope | ppl-impl/src/interpreter.rs:262-280 | evaluating `foreach` bindings leaves the scope unchanged |
| EvalProperties.IterationsKeepScope | ppl-impl/src/interpreter.rs:283-294 | each iteration truncates the scope back to its length on entry |
| EvalProperties.VariableLooksUpInnermost | ppl-impl/src/interpreter.rs:178-184 | a variable is the innermost binding's value, or the "Variable x not defined." error when unbound; the state is unchanged |
| EvalProperties.LetReturnsLastBodyValue | ppl-impl/src/interpreter.rs:185-214 | no bindings or no body is an error with the source's message; otherwise success exactly when bindings and body succeed, with the last body value; scope restored |
| EvalProperties.IterationsLength | ppl-impl/src/interpreter.rs:282-294 | `i` successful iterations give `i` values |
| EvalProperties.EmptyBodyIterationPanics | ppl-impl/src/interpreter.rs:292-293 | an iteration with an empty body panics (`pop().unwrap()` on nothing) |
| EvalProperties.ForEachMakesVectorOfN | ppl-impl/src/interpreter.rs:254-297 | success means every binding was a vector of exactly `n_iters` values, and the result is a vector of exactly `n_iters` values; an empty body panics; scope restored |
| EvalProperties.LoopZeroIsAccumulator | ppl-impl/src/interpreter.rs:306-317 | with zero iterations, `loop` returns the evaluated initial accumulator |
| EvalProperties.LoopOfDefinitionFails | ppl-impl/src/interpreter.rs:308-315 | a `loop` over a name that is not a built-in fails with "Could not find function" as soon as it runs an iteration, even if the program defines it |
| EvalProperties.RunSamplesRecordsEach | ppl-impl/src/interpreter.rs:167-173 | without failure the algorithm records exactly `n_samples` more results; after a failure fewer; earlier results are kept |
| EvalProperties.SampleOnceRecords | ppl-impl/src/interpreter.rs:168-170 | one pass of the sampling loop records exactly the value just evaluated, or nothing when the evaluation fails |
| Interpreter.RegisterKeepsOthers | ppl-impl/src/interpreter.rs:152-164 | names not defined by the program keep their entry |
| Interpreter.RegisterLastWins | ppl-impl/src/interpreter.rs:152-164 | a name defined several times maps to its last definition |
| Interpreter.Interpreter.constructor | ppl-impl/src/interpreter.rs:127-133 | empty scope and function table |
| Interpreter.Interpreter.LookupVar | ppl-impl/src/interpreter.rs:135-143 | the backward scan returns `Semantics.LookupVar` |
| Interpreter.Interpreter.Eval | ppl-impl/src/interpreter.rs:176-325 | result and new state (scope, algorithm, stream) are those of `Semantics.Eval`; the function table is unchanged |
| Interpreter.Interpreter.EvalAll | ppl-impl/src/interpreter.rs:327-333 | the loop computes `Semantics.EvalAll` |
| Interpreter.Interpreter.EvalLet | ppl-impl/src/interpreter.rs:185-214 | push, evaluate, truncate, as `Semantics.EvalLet` |
| Interpreter.Interpreter.PushBindings | ppl-impl/src/interpreter.rs:195-208 | the binding loop, truncating on failure |
| Interpreter.Interpreter.EvalApplication | ppl-impl/src/interpreter.rs:228-231 | `Semantics.EvalApplication`: the arguments left to right, the first error returned, otherwise the built-in's result |
| Interpreter.Interpreter.EvalVector | ppl-impl/src/interpreter.rs:320 | `Semantics.EvalVector`: the elements left to right, the first error returned, otherwise the vector of their values |
| Interpreter.Interpreter.EvalSample | ppl-impl/src/interpreter.rs:217-227 | `Semantics.EvalSample`: a non-distribution is an error, otherwise the algorithm samples |
| Interpreter.Interpreter.AlgSampleCall | ppl-impl/src/interpreter.rs:221 | the call into whichever algorithm is in use |
| Interpreter.Interpreter.EvalObserve | ppl-impl/src/interpreter.rs:235-253 | `Semantics.EvalObserve` |
| Interpreter.Interpreter.ObserveValue | ppl-impl/src/interpreter.rs:244-249 | `Semantics.ObserveValue`: the observed expression is evaluated, an error returned, otherwise the algorithm observes it |
| Interpreter.Interpreter.AlgObserveCall | ppl-impl/src/interpreter.rs:247-249 | the call into whichever algorithm is in use |
| Interpreter.Interpreter.EvalForEach | ppl-impl/src/interpreter.rs:254-297 | `Semantics.EvalForEach` |
| Interpreter.Interpreter.BindForEach | ppl-impl/src/interpreter.rs:262-280 | the binding loop, stopping at the first binding that fails or is not a vector of `n_iters` values, as `EvalForEachBindings` |
| Interpreter.Interpreter.BindingVector | ppl-impl/src/interpreter.rs:265-277 | one binding: its expression evaluated and its value checked, as `Semantics.BindingVector` |
| Interpreter.Interpreter.ForEachLoop | ppl-impl/src/interpreter.rs:282-296 | the iteration loop builds the result vector as `ForEachIterations` |
| Interpreter.Interpreter.Iterate | ppl-impl/src/interpreter.rs:284-293 | one iteration: extend the scope, evaluate the body, truncate, pop the last value |
| Interpreter.Interpreter.EvalLoop | ppl-impl/src/interpreter.rs:298-318 | `Semantics.EvalLoop` |
| Interpreter.Interpreter.LoopCalls | ppl-impl/src/interpreter.rs:308-315 | the accumulator is threaded through calls with `[Integer(i), acc, params…]`, as `LoopIterations` |
| Interpreter.Interpreter.FinishOneEvaluation | ppl-impl/src/interpreter.rs:170 | the algorithm's state takes one `finish_one_evaluation` step; scope and stream unchanged |
| Interpreter.Interpreter.EvalProgram | ppl-impl/src/interpreter.rs:145-174 | numbers the program, registers its definitions in order and runs the sampling loop, as `RunSamples` |
| Interpreter.Interpreter.Number | ppl-impl/src/interpreter.rs:150 | the numbering step of `eval_program` |
| Interpreter.Interpreter.RegisterDefinitions | ppl-impl/src/interpreter.rs:152-164 | the insertion loop computes `Register`; evaluation state unchanged |
| Interpreter.Interpreter.RunSamplesLoop | ppl-impl/src/interpreter.rs:166-173 | the sampling loop computes `RunSamples` |
| Interpreter.Interpreter.RunOneSample | ppl-impl/src/interpreter.rs:168-170 | `Semantics.SampleOnce`: one evaluation of the main expression, its value then handed to `finish_one_evaluation` |
| Json.IntNumber | ppl-impl/src/main.rs:91-97 | an i64 is stored as a non-negative or a negative integer number according to its sign |
| Json.ResultToJson | ppl-impl/src/main.rs:84-97 | a leaf is a bare number, a float exactly when the leaf is a Float; `Many` is an array of the same length whose items are the items' serializations |
| AncestralSampler.IntegerOf | ppl-impl/src/ancestral_sampler.rs:48-53 | an integer that fits i64 is kept; a larger u64 wraps to a negative i64 congruent to it modulo 2^64 |
| AncestralSampler.FromJson | ppl-impl/src/ancestral_sampler.rs:41-59 | null is Null, a bool is Boolean, a float number is Float, an integer number is Integer, an array is a Vector of the same length converted element by element; never a Distribution |
| AncestralSampler.ToJson | ppl-impl/src/ancestral_sampler.rs:41-59 | the reference direction: every representable value has a convertible document, arrays element by element |
| AncestralSampler.FromToJson | ppl-impl/src/ancestral_sampler.rs:41-59 | converting the document of a value gives the value back |
| AncestralSampler.ToFromJson | ppl-impl/src/ancestral_sampler.rs:41-59 | without integers beyond i64, writing the converted value gives the document back |
| AncestralSampler.WrapExample | ppl-impl/src/ancestral_sampler.rs:51-52 | 2^63 reads back as -2^63 |
| AncestralSampler.ReadBackResult | ppl-impl/src/ancestral_sampler.rs:41-59 | reading a written result gives the value it stands for |
| Viz.SmallestSquareBiggerThan | thisppl-programs/viz.py:7-11 | `i*i >= n`, and `i` is 0 or `(i-1)*(i-1) < n`; 0 for `n <= 0` |
| Viz.GridSideIsLeast | thisppl-programs/viz.py:7-11 | no smaller side holds `n` charts |
| Viz.CellInGrid | thisppl-programs/viz.py:26 | the cell of every file index is inside the grid |
| Viz.CellInjective | thisppl-programs/viz.py:26 | distinct file indices get distinct cells |
| Viz.ChartCells | thisppl-programs/viz.py:18-26 | the grid side is the least square side; file `k` is drawn at row `k // n_plots`, column `k % n_plots`; every cell is inside the grid, and no two files share one |
| Viz.Split | thisppl-programs/viz.py:31-38 | unweighted data is unchanged with no weights; weighted data becomes parallel lists `d[0]` and `d[1]`; an entry without both raises |
| Viz.SplitWeightedFile | thisppl-programs/viz.py:31-38 | the file likelihood weighting writes splits back into the results and their log-weights, in order |
| Viz.TypeOf | thisppl-programs/viz.py:127-135 | list exactly for arrays, bool exactly for booleans |
| Viz.Classify | thisppl-programs/viz.py:126-142 | the first observation picks the chart in the source's order: bool, then int/float, then 2-list with a float first, then a list with an int/bool first, else unsupported; no data or an empty first list raises |
| Viz.ClassifyLooksAtFirstOnly | thisppl-programs/viz.py:126-142 | data with the same first observation get the same chart |
| Viz.ResultsChart | thisppl-programs/viz.py:126-142 | data written from inference results never raises unless the first result is an empty vector, and is never a bool chart; a number gives a histogram, a pair with a float first a 2-D histogram |
| Viz.EmptyFirstVectorRaises | thisppl-programs/viz.py:135 | when the first result is an empty vector, the data is `[]` first and `plot` raises |
| LegacyViz.ChartCells | ppl-impl/viz.py:8-21 | the grid side is the least square side; file `k` is drawn at `(k % n_plots, k // n_plots)`, the transposed cell; every cell is inside the grid, and no two files share one |
| LegacyViz.CellsAreTransposed | ppl-impl/viz.py:21 | the older renderer swaps the two coordinates of the newer one |
| Occupancy.Chunks | thisppl-programs/viz.py:137 | rows of equal width that concatenate to the buffer |
| Occupancy.Reshape | thisppl-programs/viz.py:137 | `reshape([cols, rows])` gives `cols` rows of `rows` entries and keeps the row-major buffer |
| Occupancy.ReshapeIsNotTranspose | thisppl-programs/viz.py:137 | the 3×2 matrix `[[0,1],[2,3],[4,5]]` becomes `[[0,1,2],[3,4,5]]`, not its transpose |
| Occupancy.MaxOf | thisppl-programs/viz.py:115 | the maximum is an entry and bounds every entry |
| Occupancy.StatesFitHmmRows | thisppl-programs/viz.py:115-116 | with `n = max + 1`, every state is below `n`, and non-negative states index a row |
| Occupancy.Row | thisppl-programs/viz.py:108-109 | the row a state indexes: itself when non-negative, counted from the end when negative |
| Occupancy.BincountHist | thisppl-programs/viz.py:100-110 | an IndexError exactly when there are fewer weights than samples; otherwise a fresh `n × cols` matrix, cell `(r, c)` holding the total weight of the samples whose state in column `c` indexes row `r` |
| Occupancy.ColumnTotalStep | thisppl-programs/viz.py:107-109 | each (sample, column) pair adds its weight to exactly one row |
| Occupancy.ColumnHoldsTotalWeight | thisppl-programs/viz.py:104-109 | every column holds the total weight of the samples |
| Occupancy.UnweightedTotal | thisppl-programs/viz.py:109 | unweighted, `s` samples add `s/N` |
| Occupancy.WeightedTotal | thisppl-programs/viz.py:103 | weighted, `s` samples add their share of the weight sum |
| Occupancy.ColumnsSumToOne | thisppl-programs/viz.py:100-110 | every column of the matrix sums to 1 |
| Occupancy.ReshapedStatesValid | thisppl-programs/viz.py:137-140 | the reshaped matrix has the same largest state, so `plot_hmm`'s `n` is positive and every state of a reshaped row indexes its own row |
| Occupancy.PlotHmm | thisppl-programs/viz.py:135-140 | an `N × T` samples matrix gives an IndexError exactly when there are fewer than `T` weights; otherwise a fresh `(max + 1) × N` matrix whose cells hold the masses of the `T` reshaped rows, row `s` weighted by `weights[s]` |
| Occupancy.PlotHmmColumnTotals | thisppl-programs/viz.py:135-140 | each of the `N` columns sums to 1 without weights, and to `Sum(w[..T]) / Sum(w)` with the `N` weights: only the first `T` weights take part |
| Occupancy.EqualWeightsLoseMass | thisppl-programs/viz.py:135-140 | three samples of two states with equal weights give columns holding 2/3 of the mass |
| FactorGraph.VertexNodesAt | thisppl-programs/viz.py:156-160 | vertex `k` contributes node `2k`, its factor box, and node `2k+1`, its circle |
| FactorGraph.FactorEdges | thisppl-programs/viz.py:161 | one edge per vertex, from its factor to itself |
| FactorGraph.TargetEdges | thisppl-programs/viz.py:163-164 | one edge per target, from the source into the target's factor |
| FactorGraph.ArcEdgesShape | thisppl-programs/viz.py:162-164 | one edge per arc, each from an arc's source into the factor of its target |
| FactorGraph.RenderGraph | thisppl-programs/viz.py:155-164 | a fresh graph whose nodes are the vertex nodes and whose edges are the factor edges then the arc edges |
| FactorGraph.AddVertices | thisppl-programs/viz.py:156-161 | the first loop appends the vertex nodes and the factor edges |
| FactorGraph.AddVertex | thisppl-programs/viz.py:157-161 | one vertex: factor box, circle, edge |
| FactorGraph.AddArcs | thisppl-programs/viz.py:162-164 | the second loop appends the arc edges and no node |
| FactorGraph.ObservedAreGray | thisppl-programs/viz.py:159-160 | a vertex's circle has the `fillcolor` attribute gray exactly when the vertex is observed |
| FactorGraph.TwoVertexExample | thisppl-programs/viz.py:156-164 | `V=[a,b]`, `A={a:[b]}` gives 4 nodes and the edges `a_factor→a`, `b_factor→b`, `a→b_factor` |

## Left out
- **i64 overflow.** Rust overflow panics in debug builds. `+`, `*`, `-`, negation and i64 division (`i64::MIN / -1`) are modelled on unbounded integers. Functions.Arithmetic, Functions.SubtractionOrNegation and Functions.Division do not model this.
- **Float semantics.** Division of a float by zero is the placeholder function `FloatDiv`. IEEE infinities, NaN and rounding are not modelled. Functions.Division promises nothing about a float result when the divisor is 0.0.
- **Distributions.** `ppl-impl/src/distributions.rs` is not part of this model. Its sampling and densities come from external crates and are floating point, so they are the given `Oracle`.
- **Density naming.**
  - Likelihood weighting calls `log_pdf`.
  - The `Distribution` trait in `types.rs` declares `pdf`.
  - The model uses the oracle's `logPdf`.
- **`ppl-impl/src/inference/single_site_metropolis.rs`** is not part of this model. It is unfinished and does not type-check.
- **`ppl-impl/src/main.rs` command line.** Argument parsing, file reading, the parser and JSON writing to disk are left out.
  - Only the serialized shape of `ProgramResult` is modelled, in Json.ResultToJson.
  - `main.rs` names the leaf type `ResultValue` and gives it a Boolean case.
  - `inference.rs` uses `IntOrFloat { Int, Float }`, which the model follows, so no result is ever a Boolean.
- **`ppl-impl/src/ast.rs`** is not part of this model. Its declarations are out of step with the interpreter.
- **Unimplemented expressions.**
  - The interpreter's catch-all error for `If`, `Boolean` and `Null` expressions is the message "Unimplemented: " followed by the expression kind's name.
  - Rust's full `Debug` rendering of the expression is not modelled.
- **Loop index conversion.** `loop` converts its `usize` index with `i64::try_from`, which fails once the index reaches 2^63. Reaching it takes 2^63 iterations, so the failure is left out.
- **Functions.Division: integer division by zero.** It is modelled as a panic result rather than excluded by a precondition, so callers see the failure.
- **JSON strings and objects.**
  - The conversion panics on them (`unimplemented!`).
  - AncestralSampler.FromJson requires a document without them instead of modelling the panic.
- **Plotting and rendering.**
  - matplotlib histograms and images, figure saving, `plt.pause` and `input()` are left out.
  - Graphviz rendering to PNG is left out. `render_graphs` never sets `style=filled`, so graphviz draws every circle unfilled whatever its `fillcolor`.
  - `os.listdir` enumeration is left out. The model takes the number of data files.
- **Exponentiating weights.** `np.exp` of the log-weights is left out.
  - Viz.Split keeps the log-weights as the JSON values they are.
  - Occupancy.BincountHist takes the weights as given reals whose sum is not zero.
  - A zero sum gives NaN in numpy, so the model excludes it.
- **Occupancy.ColumnsSumToOne: weight count.** In the weighted case it requires exactly one weight per sample. With extra weights the columns would sum to less than 1.
- **NumPy coercion.** `np.array` of the JSON data is left out. Occupancy.PlotHmm works on integer states.
  - For a matrix of booleans, the test `type(data[0][0]) is bool` in `plot` sees a `numpy.bool_`, so it never converts to `uint8`.
  - The boolean matrix reaches `bincount_hist` unconverted. numpy's indexing with boolean scalars is not modelled.
- **Occupancy.BincountHist: states out of range.** It requires every state to be in `[-n, n)`. numpy raises an IndexError outside that range, and that error is not modelled. The IndexError for a missing weight is modelled.
- **Occupancy.PlotHmm: negative states.** It requires non-negative states, as HMM programs return. A negative state below `-(max + 1)` would raise in numpy.
- **Functions.NumericType: Null.** The `match` in `assert_all_numeric_type` (`ppl-impl/src/functions.rs:19-25`) has no `Value::Null` arm, so the source does not compile as written. The model completes it: a Null is rejected like any other non-numeric value, with the message naming `Null`.
- **Distribution sampling.** LikelihoodWeightingAlg.LikelihoodWeighting.Sample and PriorOnlyAlg.PriorOnly.Sample state the draw through the oracle. No property of the drawn value is claimed.
- **Missing import.** `render_graphs` uses `graphviz` without importing it, and `main` does not call it. FactorGraph models the graph the function would build.

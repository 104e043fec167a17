/** The pre-order walk over expressions and the numbering of random-variable
    nodes done before evaluation (ppl-impl/src/interpreter.rs, `traverse_expr`
    and `assign_variable_numbers`). The walk mutates the tree in place in the
    source; here it threads the visitor's state `S` and returns the new tree. */
module Numbering {
  import Types
  import opened Ast

  /** A visitor may rewrite the node it is given, but must keep its size, so
      that the walk into the rewritten node's children terminates. */
  ghost predicate PreservesSize<S(!new)>(f: (Expression, S) -> (Expression, S)) {
    forall x: Expression, s: S :: Size(f(x, s).0) == Size(x)
  }

  /** Applies `f` to a node, then walks the children of the node `f`
      returned, left to right, threading the visitor's state. */
  function Traverse<S(!new)>(e: Expression, f: (Expression, S) -> (Expression, S), s: S): (Expression, S)
    requires PreservesSize(f)
    decreases Size(e), 0
  {
    var visited := f(e, s);
    assert Size(visited.0) == Size(e);
    SizeOfChildren(visited.0);
    var walked := TraverseAll(Children(visited.0), f, visited.1);
    (WithChildren(visited.0, walked.0), walked.1)
  }

  function TraverseAll<S(!new)>(es: seq<Expression>, f: (Expression, S) -> (Expression, S), s: S): (r: (seq<Expression>, S))
    requires PreservesSize(f)
    ensures |r.0| == |es|
    decreases SizeAll(es), 1
  {
    if es == [] then ([], s)
    else
      var front := TraverseAll(es[..|es| - 1], f, s);
      var last := Traverse(es[|es| - 1], f, front.1);
      (front.0 + [last.0], last.1)
  }

  /** One step of the walk: visit the node, then walk its (new) children. */
  lemma TraverseStep<S(!new)>(e: Expression, f: (Expression, S) -> (Expression, S), s: S)
    requires PreservesSize(f)
    ensures |TraverseAll(Children(f(e, s).0), f, f(e, s).1).0| == |Children(f(e, s).0)|
    ensures Traverse(e, f, s)
      == (WithChildren(f(e, s).0, TraverseAll(Children(f(e, s).0), f, f(e, s).1).0),
          TraverseAll(Children(f(e, s).0), f, f(e, s).1).1)
  {
  }

  /** One step of the walk over a list: walk all but the last, then the last. */
  lemma TraverseAllStep<S(!new)>(es: seq<Expression>, f: (Expression, S) -> (Expression, S), s: S)
    requires PreservesSize(f)
    requires es != []
    ensures TraverseAll(es, f, s)
      == (TraverseAll(es[..|es| - 1], f, s).0 + [Traverse(es[|es| - 1], f, TraverseAll(es[..|es| - 1], f, s).1).0],
          Traverse(es[|es| - 1], f, TraverseAll(es[..|es| - 1], f, s).1).1)
  {
  }

  /** The visitor that rewrites nothing and records every node it is given. */
  function Record(x: Expression, visited: seq<Expression>): (Expression, seq<Expression>)
  {
    (x, visited + [x])
  }

  lemma RecordPreservesSize()
    ensures PreservesSize(Record)
  {
  }

  /** The walk hands the visitor every node exactly once, in pre-order, and
      a visitor that rewrites nothing leaves the tree unchanged. */
  lemma {:induction false} TraverseVisitsPreOrder(e: Expression, visited: seq<Expression>)
    requires PreservesSize(Record)
    ensures Traverse(e, Record, visited) == (e, visited + PreOrder(e))
    decreases Size(e), 1
  {
    SizeOfChildren(e);
    TraverseStep(e, Record, visited);
    var v := Record(e, visited);
    assert v == (e, visited + [e]);
    var cs := Children(e);
    TraverseAllVisitsPreOrder(cs, visited + [e]);
    WithOwnChildren(e);
    assert PreOrder(e) == [e] + PreOrderAll(cs);
    AppendAssoc(visited, [e], PreOrderAll(cs));
  }

  lemma {:induction false} TraverseAllVisitsPreOrder(es: seq<Expression>, visited: seq<Expression>)
    requires PreservesSize(Record)
    ensures TraverseAll(es, Record, visited) == (es, visited + PreOrderAll(es))
    decreases SizeAll(es), 2
  {
    if es == [] {
      assert visited + PreOrderAll(es) == visited;
    } else {
      var prefix, last := es[..|es| - 1], es[|es| - 1];
      TraverseAllStep(es, Record, visited);
      TraverseAllVisitsPreOrder(prefix, visited);
      TraverseVisitsPreOrder(last, visited + PreOrderAll(prefix));
      SplitLast(es);
      assert PreOrderAll(es) == PreOrderAll(prefix) + PreOrder(last);
      AppendAssoc(visited, PreOrderAll(prefix), PreOrder(last));
    }
  }

  /** The visitor of `assign_variable_numbers`: a `sample` or `observe`
      node takes the counter's value as its number and the counter goes up
      by one; any other node is left alone. */
  function NumberNode(x: Expression, counter: nat): (r: (Expression, nat))
    ensures ClearNumber(r.0) == ClearNumber(x)
    ensures Children(r.0) == Children(x)
    ensures IsRandom(r.0) == IsRandom(x)
    ensures IsRandom(x) ==> r.0.number == Types.Some(counter) && r.1 == counter + 1
    ensures !IsRandom(x) ==> r == (x, counter)
  {
    match x
    case Sample(d, _) => (Sample(d, Types.Some(counter)), counter + 1)
    case Observe(d, o, _) => (Observe(d, o, Types.Some(counter)), counter + 1)
    case _ => (x, counter)
  }

  lemma NumberNodePreservesSize()
    ensures PreservesSize(NumberNode)
  {
  }

  function Number(e: Expression, c: nat): (Expression, nat)
  {
    NumberNodePreservesSize();
    Traverse<nat>(e, NumberNode, c)
  }

  function NumberAll(es: seq<Expression>, c: nat): (r: (seq<Expression>, nat))
    ensures |r.0| == |es|
  {
    NumberNodePreservesSize();
    TraverseAll<nat>(es, NumberNode, c)
  }

  /** `ids` are the numbers `from, from + 1, ..., from + |ids| - 1`. */
  predicate IsIdRange(ids: seq<Types.Option<nat>>, from: nat) {
    ids == [] || (IsIdRange(ids[..|ids| - 1], from) && ids[|ids| - 1] == Types.Some(from + |ids| - 1))
  }

  lemma {:induction false} IdRangeIndex(ids: seq<Types.Option<nat>>, from: nat, k: nat)
    requires IsIdRange(ids, from)
    requires k < |ids|
    ensures ids[k] == Types.Some(from + k)
    decreases |ids|
  {
    if k < |ids| - 1 {
      IdRangeIndex(ids[..|ids| - 1], from, k);
    }
  }

  lemma IdRangeFromZero(ids: seq<Types.Option<nat>>)
    requires IsIdRange(ids, 0)
    ensures forall k :: 0 <= k < |ids| ==> ids[k] == Types.Some(k)
  {
    forall k | 0 <= k < |ids|
      ensures ids[k] == Types.Some(k)
    {
      IdRangeIndex(ids, 0, k);
    }
  }

  lemma {:induction false} IdRangeJoin(a: seq<Types.Option<nat>>, b: seq<Types.Option<nat>>, c: nat, c1: nat)
    requires IsIdRange(a, c)
    requires c1 == c + |a|
    requires IsIdRange(b, c1)
    ensures IsIdRange(a + b, c)
    decreases |b|
  {
    if b == [] {
      assert a + b == a;
    } else {
      IdRangeJoin(a, b[..|b| - 1], c, c1);
      assert (a + b)[..|a + b| - 1] == a + b[..|b| - 1];
    }
  }

  /** Ids of the list `xs ++ ys` when each part is a consecutive range. */
  lemma RangesJoin(xs: seq<Expression>, ys: seq<Expression>, c: nat, c1: nat)
    requires IsIdRange(RandomIds(xs), c)
    requires c1 == c + |RandomIds(xs)|
    requires IsIdRange(RandomIds(ys), c1)
    ensures IsIdRange(RandomIds(xs + ys), c)
  {
    RandomIdsAppend(xs, ys);
    IdRangeJoin(RandomIds(xs), RandomIds(ys), c, c1);
  }

  lemma NumberStep(e: Expression, c: nat)
    ensures |NumberAll(Children(e), NumberNode(e, c).1).0| == |Children(NumberNode(e, c).0)|
    ensures Number(e, c)
      == (WithChildren(NumberNode(e, c).0, NumberAll(Children(e), NumberNode(e, c).1).0),
          NumberAll(Children(e), NumberNode(e, c).1).1)
  {
    NumberNodePreservesSize();
    TraverseStep(e, NumberNode, c);
  }

  lemma NumberAllStep(es: seq<Expression>, c: nat)
    requires es != []
    ensures NumberAll(es, c)
      == (NumberAll(es[..|es| - 1], c).0 + [Number(es[|es| - 1], NumberAll(es[..|es| - 1], c).1).0],
          Number(es[|es| - 1], NumberAll(es[..|es| - 1], c).1).1)
  {
    NumberNodePreservesSize();
    TraverseAllStep(es, NumberNode, c);
  }

  /** Numbering a tree from `c` gives its random nodes the numbers
      `c .. c + k - 1` in pre-order, where `k` is how many there are, leaves
      the counter at `c + k` and changes nothing but the numbers. */
  lemma {:induction false} NumberingIsPreOrderRange(e: Expression, c: nat)
    ensures Number(e, c).1 == c + |RandomIds(PreOrder(e))|
    ensures |RandomIds(PreOrder(Number(e, c).0))| == |RandomIds(PreOrder(e))|
    ensures IsIdRange(RandomIds(PreOrder(Number(e, c).0)), c)
    ensures Strip(Number(e, c).0) == Strip(e)
    decreases Size(e), 1
  {
    SizeOfChildren(e);
    NumberStep(e, c);
    var node := NumberNode(e, c);
    NumberingAll(Children(e), node.1);
    var rest := NumberAll(Children(e), node.1);
    NumberingNode(e, c, node.1, rest.0, rest.1);
  }

  /** The step of `NumberingIsPreOrderRange`: a node numbered by the visitor
      followed by its numbered children is a numbered tree. */
  lemma NumberingNode(e: Expression, c: nat, c1: nat, cs': seq<Expression>, c2: nat)
    requires c1 == NumberNode(e, c).1
    requires c2 == c1 + |RandomIds(PreOrderAll(Children(e)))|
    requires |RandomIds(PreOrderAll(cs'))| == |RandomIds(PreOrderAll(Children(e)))|
    requires IsIdRange(RandomIds(PreOrderAll(cs')), c1)
    requires StripAll(cs') == StripAll(Children(e))
    ensures |cs'| == |Children(NumberNode(e, c).0)|
    ensures c2 == c + |RandomIds(PreOrder(e))|
    ensures |RandomIds(PreOrder(WithChildren(NumberNode(e, c).0, cs')))| == |RandomIds(PreOrder(e))|
    ensures IsIdRange(RandomIds(PreOrder(WithChildren(NumberNode(e, c).0, cs'))), c)
    ensures Strip(WithChildren(NumberNode(e, c).0, cs')) == Strip(e)
  {
    var e1 := NumberNode(e, c).0;
    var cs := Children(e);
    var e' := WithChildren(e1, cs');
    ChildrenOfWithChildren(e1, cs');
    KindOfWithChildren(e1, cs');
    assert PreOrder(e') == [e'] + PreOrderAll(cs');
    assert PreOrder(e) == [e] + PreOrderAll(cs);
    RandomIdsCons(e', PreOrderAll(cs'));
    RandomIdsCons(e, PreOrderAll(cs));
    RandomIdsSingle(e');
    assert c1 == c + |RandomIds([e'])|;
    RangesJoin([e'], PreOrderAll(cs'), c, c1);
    ClearOfWithChildren(e1, cs', StripAll(cs));
    assert Strip(e') == WithChildren(ClearNumber(e'), StripAll(cs'));
  }

  lemma {:induction false} NumberingAll(es: seq<Expression>, c: nat)
    ensures NumberAll(es, c).1 == c + |RandomIds(PreOrderAll(es))|
    ensures |RandomIds(PreOrderAll(NumberAll(es, c).0))| == |RandomIds(PreOrderAll(es))|
    ensures IsIdRange(RandomIds(PreOrderAll(NumberAll(es, c).0)), c)
    ensures StripAll(NumberAll(es, c).0) == StripAll(es)
    decreases SizeAll(es), 2
  {
    if es == [] {
      NumberNodePreservesSize();
      assert NumberAll(es, c) == ([], c);
      assert PreOrderAll(es) == [];
      assert RandomIds([]) == [];
    } else {
      var prefix, last := es[..|es| - 1], es[|es| - 1];
      NumberAllStep(es, c);
      NumberingAll(prefix, c);
      var front := NumberAll(prefix, c);
      NumberingIsPreOrderRange(last, front.1);
      var back := Number(last, front.1);
      SplitLast(es);
      NumberingJoin(prefix, last, front.0, back.0, c, front.1, back.1);
      assert NumberAll(es, c) == (front.0 + [back.0], back.1);
    }
  }

  /** The inductive step of `NumberingAll`: a numbered prefix followed by a
      numbered last element is a numbered list. */
  lemma NumberingJoin(prefix: seq<Expression>, last: Expression, ps': seq<Expression>, l': Expression, c: nat, c1: nat, c2: nat)
    requires c1 == c + |RandomIds(PreOrderAll(prefix))|
    requires |RandomIds(PreOrderAll(ps'))| == |RandomIds(PreOrderAll(prefix))|
    requires IsIdRange(RandomIds(PreOrderAll(ps')), c)
    requires StripAll(ps') == StripAll(prefix)
    requires c2 == c1 + |RandomIds(PreOrder(last))|
    requires |RandomIds(PreOrder(l'))| == |RandomIds(PreOrder(last))|
    requires IsIdRange(RandomIds(PreOrder(l')), c1)
    requires Strip(l') == Strip(last)
    ensures c2 == c + |RandomIds(PreOrderAll(prefix + [last]))|
    ensures |RandomIds(PreOrderAll(ps' + [l']))| == |RandomIds(PreOrderAll(prefix + [last]))|
    ensures IsIdRange(RandomIds(PreOrderAll(ps' + [l'])), c)
    ensures StripAll(ps' + [l']) == StripAll(prefix + [last])
  {
    PreOrderAllSnoc(ps', l');
    PreOrderAllSnoc(prefix, last);
    StripAllSnoc(ps', l');
    StripAllSnoc(prefix, last);
    RangesJoin(PreOrderAll(ps'), PreOrder(l'), c, c1);
    RandomIdsAppend(PreOrderAll(ps'), PreOrder(l'));
    RandomIdsAppend(PreOrderAll(prefix), PreOrder(last));
  }

  /** The numbering of a list of definitions: their bodies in order, the
      counter carried from one body to the next. */
  function NumberDefinitions(ds: seq<Definition>, c: nat): (r: (seq<Definition>, nat))
    ensures |r.0| == |ds|
  {
    if ds == [] then ([], c)
    else
      var front := NumberDefinitions(ds[..|ds| - 1], c);
      var last := ds[|ds| - 1];
      var body := Number(last.body, front.1);
      (front.0 + [last.(body := body.0)], body.1)
  }

  /** The program after `assign_variable_numbers`: the main expression is
      numbered from 0, then the definition bodies continue the count. */
  function NumberProgram(p: Program): Program
  {
    var main := Number(p.expression, 0);
    Program(NumberDefinitions(p.definitions, main.1).0, main.0)
  }

  /** `d'` is the definition `d` with only its variable numbers changed. */
  predicate Renumbered(d': Definition, d: Definition) {
    d'.name == d.name && d'.params == d.params && Strip(d'.body) == Strip(d.body)
  }

  /** Numbering definitions after a main expression whose ids are
      `0 .. c - 1` extends the range over the definition bodies. */
  lemma {:induction false} NumberDefinitionsRange(main: Expression, ds: seq<Definition>, c: nat)
    requires c == |RandomIds(PreOrder(main))|
    requires IsIdRange(RandomIds(PreOrder(main)), 0)
    ensures NumberDefinitions(ds, c).1 == |RandomIds(PreOrder(main) + DefinitionsPreOrder(NumberDefinitions(ds, c).0))|
    ensures NumberDefinitions(ds, c).1 == c + |RandomIds(DefinitionsPreOrder(ds))|
    ensures IsIdRange(RandomIds(PreOrder(main) + DefinitionsPreOrder(NumberDefinitions(ds, c).0)), 0)
    ensures forall k :: 0 <= k < |ds| ==> Renumbered(NumberDefinitions(ds, c).0[k], ds[k])
  {
    if ds == [] {
      assert PreOrder(main) + DefinitionsPreOrder([]) == PreOrder(main);
    } else {
      var prefix, last := ds[..|ds| - 1], ds[|ds| - 1];
      NumberDefinitionsRange(main, prefix, c);
      var front := NumberDefinitions(prefix, c);
      NumberingIsPreOrderRange(last.body, front.1);
      var body := Number(last.body, front.1);
      SplitLast(ds);
      assert NumberDefinitions(ds, c) == (front.0 + [last.(body := body.0)], body.1);
      DefinitionsStep(main, prefix, last, front.0, last.(body := body.0), c, front.1, body.1);
      RenumberedSnoc(front.0, prefix, last.(body := body.0), last);
    }
  }

  /** One step of the induction above: the count and the range. */
  lemma DefinitionsStep(main: Expression, prefix: seq<Definition>, last: Definition,
                        front: seq<Definition>, d: Definition, c: nat, c1: nat, c2: nat)
    requires c1 == |RandomIds(PreOrder(main) + DefinitionsPreOrder(front))|
    requires c1 == c + |RandomIds(DefinitionsPreOrder(prefix))|
    requires IsIdRange(RandomIds(PreOrder(main) + DefinitionsPreOrder(front)), 0)
    requires c2 == c1 + |RandomIds(PreOrder(last.body))|
    requires |RandomIds(PreOrder(d.body))| == |RandomIds(PreOrder(last.body))|
    requires IsIdRange(RandomIds(PreOrder(d.body)), c1)
    ensures c2 == |RandomIds(PreOrder(main) + DefinitionsPreOrder(front + [d]))|
    ensures c2 == c + |RandomIds(DefinitionsPreOrder(prefix + [last]))|
    ensures IsIdRange(RandomIds(PreOrder(main) + DefinitionsPreOrder(front + [d])), 0)
  {
    var x := PreOrder(main) + DefinitionsPreOrder(front);
    DefinitionsPreOrderSnoc(front, d);
    DefinitionsPreOrderSnoc(prefix, last);
    AppendAssoc(PreOrder(main), DefinitionsPreOrder(front), PreOrder(d.body));
    RandomIdsAppend(x, PreOrder(d.body));
    RandomIdsAppend(DefinitionsPreOrder(prefix), PreOrder(last.body));
    RangesJoin(x, PreOrder(d.body), 0, c1);
  }

  /** One step of the induction above: every definition is renumbered. */
  lemma RenumberedSnoc(front: seq<Definition>, prefix: seq<Definition>, d: Definition, last: Definition)
    requires |front| == |prefix|
    requires forall k :: 0 <= k < |prefix| ==> Renumbered(front[k], prefix[k])
    requires Renumbered(d, last)
    ensures forall k :: 0 <= k < |prefix| + 1 ==> Renumbered((front + [d])[k], (prefix + [last])[k])
  {
  }

  /** Numbering a program gives its random nodes the numbers 0, 1, 2, ...
      in program pre-order and changes nothing else. */
  lemma NumberProgramIsPreOrderRange(p: Program)
    ensures |RandomIds(ProgramPreOrder(NumberProgram(p)))| == |RandomIds(ProgramPreOrder(p))|
    ensures forall k :: 0 <= k < |RandomIds(ProgramPreOrder(NumberProgram(p)))| ==>
      RandomIds(ProgramPreOrder(NumberProgram(p)))[k] == Types.Some(k)
    ensures Strip(NumberProgram(p).expression) == Strip(p.expression)
    ensures |NumberProgram(p).definitions| == |p.definitions|
    ensures forall k :: 0 <= k < |p.definitions| ==> Renumbered(NumberProgram(p).definitions[k], p.definitions[k])
  {
    var main := Number(p.expression, 0);
    NumberingIsPreOrderRange(p.expression, 0);
    NumberDefinitionsRange(main.0, p.definitions, main.1);
    var defs := NumberDefinitions(p.definitions, main.1).0;
    assert ProgramPreOrder(NumberProgram(p)) == PreOrder(main.0) + DefinitionsPreOrder(defs);
    var ids := RandomIds(ProgramPreOrder(NumberProgram(p)));
    RandomIdsAppend(PreOrder(p.expression), DefinitionsPreOrder(p.definitions));
    IdRangeFromZero(ids);
  }

  /** `assign_variable_numbers`: one counter runs over the main expression
      and then over every definition body in order. */
  method AssignVariableNumbers(p: Program) returns (q: Program)
    ensures q == NumberProgram(p)
    ensures |RandomIds(ProgramPreOrder(q))| == |RandomIds(ProgramPreOrder(p))|
    ensures forall k :: 0 <= k < |RandomIds(ProgramPreOrder(q))| ==>
      RandomIds(ProgramPreOrder(q))[k] == Types.Some(k)
    ensures Strip(q.expression) == Strip(p.expression)
    ensures |q.definitions| == |p.definitions|
    ensures forall k :: 0 <= k < |p.definitions| ==> Renumbered(q.definitions[k], p.definitions[k])
  {
    var walked := Number(p.expression, 0);
    var main, start := walked.0, walked.1;
    var defs: seq<Definition> := [];
    var counter := start;
    var i := 0;
    while i < |p.definitions|
      invariant 0 <= i <= |p.definitions|
      invariant (defs, counter) == NumberDefinitions(p.definitions[..i], start)
    {
      var d := p.definitions[i];
      var step := Number(d.body, counter);
      assert p.definitions[..i + 1][..i] == p.definitions[..i];
      defs := defs + [d.(body := step.0)];
      counter := step.1;
      i := i + 1;
    }
    TakeAll(p.definitions);
    q := Program(defs, main);
    NumberProgramIsPreOrderRange(p);
  }
}

/** The FOPPL syntax tree, in the shape the interpreter uses it
    (ppl-impl/src/interpreter.rs): `sample` and `observe` nodes carry an
    optional variable number, `let` and `foreach` bodies are sequences. */
module Ast {
  import Types

  datatype Expression =
    | Variable(name: string)
    | Let(bindings: seq<(string, Expression)>, body: seq<Expression>)
    | Integer(i: int)
    | Float(f: real)
    | Boolean(b: bool)
    | Null
    | Sample(dist: Expression, number: Types.Option<nat>)
    | Observe(dist: Expression, observed: Expression, number: Types.Option<nat>)
    | If(cond: Expression, thn: Expression, els: Expression)
    | FunctionApplication(fnName: string, args: seq<Expression>)
    | Vector(elements: seq<Expression>)
    | ForEach(nIters: nat, bindings: seq<(string, Expression)>, body: seq<Expression>)
    | Loop(nIters: nat, accumulator: Expression, fnName: string, params: seq<Expression>)

  datatype Definition = Definition(name: string, params: seq<string>, body: Expression)

  datatype Program = Program(definitions: seq<Definition>, expression: Expression)

  /** Number of nodes: the measure that every walk over the tree decreases. */
  function Size(e: Expression): (n: nat)
    ensures n >= 1
  {
    match e
    case Let(bs, body) => 1 + SizeBindings(bs) + SizeAll(body)
    case Sample(d, _) => 1 + Size(d)
    case Observe(d, o, _) => 1 + Size(d) + Size(o)
    case If(c, t, f) => 1 + Size(c) + Size(t) + Size(f)
    case FunctionApplication(_, args) => 1 + SizeAll(args)
    case Vector(es) => 1 + SizeAll(es)
    case ForEach(_, bs, body) => 1 + SizeBindings(bs) + SizeAll(body)
    case Loop(_, acc, _, ps) => 1 + Size(acc) + SizeAll(ps)
    case _ => 1
  }

  function SizeAll(es: seq<Expression>): nat
  {
    if es == [] then 0 else SizeAll(es[..|es| - 1]) + Size(es[|es| - 1])
  }

  function SizeBindings(bs: seq<(string, Expression)>): nat
  {
    if bs == [] then 0
    else
      var last := bs[|bs| - 1];
      assert last.1 < last;
      SizeBindings(bs[..|bs| - 1]) + Size(last.1)
  }

  /** The expressions bound by a list of bindings, in order. */
  function BindingExprs(bs: seq<(string, Expression)>): (es: seq<Expression>)
    ensures |es| == |bs|
    ensures forall k :: 0 <= k < |bs| ==> es[k] == bs[k].1
  {
    seq(|bs|, k requires 0 <= k < |bs| => bs[k].1)
  }

  /** The bindings `bs` with their expressions replaced by `es`. */
  function Rebind(bs: seq<(string, Expression)>, es: seq<Expression>): (r: seq<(string, Expression)>)
    requires |es| == |bs|
    ensures |r| == |bs|
    ensures forall k :: 0 <= k < |bs| ==> r[k] == (bs[k].0, es[k])
  {
    seq(|bs|, k requires 0 <= k < |bs| => (bs[k].0, es[k]))
  }

  /** The direct subexpressions of a node in the order the walk visits them:
      binding expressions before the body, the accumulator before the
      parameters; literals and variables have none. */
  function Children(e: Expression): seq<Expression>
  {
    match e
    case Let(bs, body) => BindingExprs(bs) + body
    case Sample(d, _) => [d]
    case Observe(d, o, _) => [d, o]
    case If(c, t, f) => [c, t, f]
    case FunctionApplication(_, args) => args
    case Vector(es) => es
    case ForEach(_, bs, body) => BindingExprs(bs) + body
    case Loop(_, acc, _, ps) => [acc] + ps
    case _ => []
  }

  /** The node `e` with its direct subexpressions replaced by `cs`. */
  function WithChildren(e: Expression, cs: seq<Expression>): Expression
    requires |cs| == |Children(e)|
  {
    match e
    case Let(bs, body) => Let(Rebind(bs, cs[..|bs|]), cs[|bs|..])
    case Sample(_, n) => Sample(cs[0], n)
    case Observe(_, _, n) => Observe(cs[0], cs[1], n)
    case If(_, _, _) => If(cs[0], cs[1], cs[2])
    case FunctionApplication(name, _) => FunctionApplication(name, cs)
    case Vector(_) => Vector(cs)
    case ForEach(n, bs, body) => ForEach(n, Rebind(bs, cs[..|bs|]), cs[|bs|..])
    case Loop(n, _, name, _) => Loop(n, cs[0], name, cs[1..])
    case _ => e
  }

  lemma WithOwnChildren(e: Expression)
    ensures WithChildren(e, Children(e)) == e
  {
    match e
    case Let(bs, body) =>
      assert (BindingExprs(bs) + body)[..|bs|] == BindingExprs(bs);
      assert (BindingExprs(bs) + body)[|bs|..] == body;
      assert Rebind(bs, BindingExprs(bs)) == bs;
    case ForEach(n, bs, body) =>
      assert (BindingExprs(bs) + body)[..|bs|] == BindingExprs(bs);
      assert (BindingExprs(bs) + body)[|bs|..] == body;
      assert Rebind(bs, BindingExprs(bs)) == bs;
    case Loop(n, acc, name, ps) =>
      assert ([acc] + ps)[1..] == ps;
    case _ =>
  }

  lemma BindingExprsOfRebind(bs: seq<(string, Expression)>, es: seq<Expression>)
    requires |es| == |bs|
    ensures BindingExprs(Rebind(bs, es)) == es
  {
  }

  lemma SplitAt<T>(s: seq<T>, n: nat)
    requires n <= |s|
    ensures s[..n] + s[n..] == s
  {
  }

  lemma RebindSplit(bs: seq<(string, Expression)>, cs: seq<Expression>)
    requires |bs| <= |cs|
    ensures BindingExprs(Rebind(bs, cs[..|bs|])) + cs[|bs|..] == cs
  {
    BindingExprsOfRebind(bs, cs[..|bs|]);
    SplitAt(cs, |bs|);
  }

  lemma ChildrenOfWithChildren(e: Expression, cs: seq<Expression>)
    requires |cs| == |Children(e)|
    ensures Children(WithChildren(e, cs)) == cs
  {
    if e.Let? || e.ForEach? {
      RebindSplit(e.bindings, cs);
    } else if e.Loop? {
      SplitAt(cs, 1);
      assert cs[..1] == [cs[0]];
    }
  }

  lemma {:induction false} SizeAllAppend(a: seq<Expression>, b: seq<Expression>)
    ensures SizeAll(a + b) == SizeAll(a) + SizeAll(b)
    decreases |b|
  {
    if b == [] {
      assert a + b == a;
    } else {
      assert (a + b)[..|a + b| - 1] == a + b[..|b| - 1];
      assert (a + b)[|a + b| - 1] == b[|b| - 1];
      SizeAllAppend(a, b[..|b| - 1]);
    }
  }

  lemma {:induction false} SizeBindingExprs(bs: seq<(string, Expression)>)
    ensures SizeAll(BindingExprs(bs)) == SizeBindings(bs)
    decreases |bs|
  {
    if bs != [] {
      SizeBindingExprs(bs[..|bs| - 1]);
      assert BindingExprs(bs) == BindingExprs(bs[..|bs| - 1]) + [bs[|bs| - 1].1];
      SizeAllAppend(BindingExprs(bs[..|bs| - 1]), [bs[|bs| - 1].1]);
      assert [bs[|bs| - 1].1][..0] == [];
    }
  }

  /** Every element is at most as large as the whole list. */
  lemma {:induction false} SizeAllElem(es: seq<Expression>, k: nat)
    requires k < |es|
    ensures Size(es[k]) <= SizeAll(es)
    decreases |es|
  {
    if k < |es| - 1 {
      SizeAllElem(es[..|es| - 1], k);
    }
  }

  lemma {:induction false} SizeBindingsElem(bs: seq<(string, Expression)>, k: nat)
    requires k < |bs|
    ensures Size(bs[k].1) <= SizeBindings(bs)
    decreases |bs|
  {
    if k < |bs| - 1 {
      SizeBindingsElem(bs[..|bs| - 1], k);
    }
  }

  lemma SizeAllOne(a: Expression)
    ensures SizeAll([a]) == Size(a)
  {
    assert [a][..0] == [];
  }

  lemma SizeAllTwo(a: Expression, b: Expression)
    ensures SizeAll([a, b]) == Size(a) + Size(b)
  {
    assert [a, b][..1] == [a];
    SizeAllOne(a);
  }

  lemma SizeAllThree(a: Expression, b: Expression, c: Expression)
    ensures SizeAll([a, b, c]) == Size(a) + Size(b) + Size(c)
  {
    assert [a, b, c][..2] == [a, b];
    SizeAllTwo(a, b);
  }

  lemma SizeOfBindingsAndBody(bs: seq<(string, Expression)>, body: seq<Expression>)
    ensures SizeAll(BindingExprs(bs) + body) == SizeBindings(bs) + SizeAll(body)
  {
    SizeBindingExprs(bs);
    SizeAllAppend(BindingExprs(bs), body);
  }

  /** A node is one larger than its children together. */
  lemma SizeOfChildren(e: Expression)
    ensures SizeAll(Children(e)) == Size(e) - 1
  {
    match e
    case Let(bs, body) => SizeOfBindingsAndBody(bs, body);
    case ForEach(n, bs, body) => SizeOfBindingsAndBody(bs, body);
    case Loop(n, acc, name, ps) =>
      SizeAllAppend([acc], ps);
      SizeAllOne(acc);
    case Sample(d, _) => SizeAllOne(d);
    case Observe(d, o, _) => SizeAllTwo(d, o);
    case If(c, t, f) => SizeAllThree(c, t, f);
    case _ =>
  }

  /** The nodes of a tree in pre-order: the node itself, then the pre-order
      of each of its children in turn. */
  function PreOrder(e: Expression): seq<Expression>
    decreases Size(e), 0
  {
    SizeOfChildren(e);
    [e] + PreOrderAll(Children(e))
  }

  function PreOrderAll(es: seq<Expression>): seq<Expression>
    decreases SizeAll(es), 1
  {
    if es == [] then [] else PreOrderAll(es[..|es| - 1]) + PreOrder(es[|es| - 1])
  }

  /** Pre-order of a whole program: the main expression, then each
      definition body in order. */
  function ProgramPreOrder(p: Program): seq<Expression>
  {
    PreOrder(p.expression) + DefinitionsPreOrder(p.definitions)
  }

  function DefinitionsPreOrder(ds: seq<Definition>): seq<Expression>
  {
    if ds == [] then [] else DefinitionsPreOrder(ds[..|ds| - 1]) + PreOrder(ds[|ds| - 1].body)
  }

  predicate IsRandom(e: Expression) {
    e.Sample? || e.Observe?
  }

  /** The numbers carried by the `sample` and `observe` nodes of a node list, in order. */
  function RandomIds(nodes: seq<Expression>): seq<Types.Option<nat>>
  {
    if nodes == [] then []
    else
      var last := nodes[|nodes| - 1];
      RandomIds(nodes[..|nodes| - 1]) + (if IsRandom(last) then [last.number] else [])
  }

  /** The node with its own variable number erased. */
  function ClearNumber(e: Expression): Expression
  {
    match e
    case Sample(d, _) => Sample(d, Types.None)
    case Observe(d, o, _) => Observe(d, o, Types.None)
    case _ => e
  }

  /** The tree with every variable number erased: what numbering must not change. */
  function Strip(e: Expression): Expression
    decreases Size(e), 0
  {
    SizeOfChildren(e);
    WithChildren(ClearNumber(e), StripAll(Children(e)))
  }

  function StripAll(es: seq<Expression>): (r: seq<Expression>)
    ensures |r| == |es|
    decreases SizeAll(es), 1
  {
    if es == [] then [] else StripAll(es[..|es| - 1]) + [Strip(es[|es| - 1])]
  }

  lemma {:induction false} RandomIdsAppend(a: seq<Expression>, b: seq<Expression>)
    ensures RandomIds(a + b) == RandomIds(a) + RandomIds(b)
    decreases |b|
  {
    if b == [] {
      assert a + b == a;
    } else {
      assert (a + b)[..|a + b| - 1] == a + b[..|b| - 1];
      RandomIdsAppend(a, b[..|b| - 1]);
    }
  }

  /** Replacing children keeps the node's kind and its own number. */
  lemma KindOfWithChildren(x: Expression, cs: seq<Expression>)
    requires |cs| == |Children(x)|
    ensures IsRandom(WithChildren(x, cs)) == IsRandom(x)
    ensures IsRandom(x) ==> WithChildren(x, cs).number == x.number
  {
  }

  /** Replacing children twice is replacing them once, and erasing a node's
      number commutes with replacing its children. */
  lemma ClearOfWithChildren(x: Expression, cs: seq<Expression>, ds: seq<Expression>)
    requires |cs| == |Children(x)| == |ds|
    ensures |Children(ClearNumber(WithChildren(x, cs)))| == |ds|
    ensures |Children(ClearNumber(x))| == |ds|
    ensures WithChildren(ClearNumber(WithChildren(x, cs)), ds) == WithChildren(ClearNumber(x), ds)
  {
    ChildrenOfWithChildren(x, cs);
    match x
    case Let(bs, body) =>
      assert Rebind(Rebind(bs, cs[..|bs|]), ds[..|bs|]) == Rebind(bs, ds[..|bs|]);
    case ForEach(n, bs, body) =>
      assert Rebind(Rebind(bs, cs[..|bs|]), ds[..|bs|]) == Rebind(bs, ds[..|bs|]);
    case _ =>
  }

  lemma AppendAssoc<T>(a: seq<T>, b: seq<T>, c: seq<T>)
    ensures a + (b + c) == a + b + c
  {
  }

  lemma TakeAll<T>(s: seq<T>)
    ensures s[..|s|] == s
  {
  }

  lemma SplitLast<T>(s: seq<T>)
    requires s != []
    ensures s[..|s| - 1] + [s[|s| - 1]] == s
  {
  }

  lemma PreOrderAllSnoc(xs: seq<Expression>, x: Expression)
    ensures PreOrderAll(xs + [x]) == PreOrderAll(xs) + PreOrder(x)
  {
    assert (xs + [x])[..|xs|] == xs;
  }

  lemma StripAllSnoc(xs: seq<Expression>, x: Expression)
    ensures StripAll(xs + [x]) == StripAll(xs) + [Strip(x)]
  {
    assert (xs + [x])[..|xs|] == xs;
  }

  lemma DefinitionsPreOrderSnoc(ds: seq<Definition>, d: Definition)
    ensures DefinitionsPreOrder(ds + [d]) == DefinitionsPreOrder(ds) + PreOrder(d.body)
  {
    assert (ds + [d])[..|ds|] == ds;
  }

  lemma RandomIdsSingle(x: Expression)
    ensures RandomIds([x]) == if IsRandom(x) then [x.number] else []
  {
    assert [x][..0] == [];
  }

  lemma RandomIdsCons(x: Expression, xs: seq<Expression>)
    ensures RandomIds([x] + xs) == (if IsRandom(x) then [x.number] else []) + RandomIds(xs)
  {
    RandomIdsAppend([x], xs);
    assert [x][..0] == [];
  }
}

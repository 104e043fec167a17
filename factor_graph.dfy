/** The factor-graph drawing of thisppl-programs/viz.py (`render_graphs`):
    every vertex of a graphical model gets a box for its factor and a
    circle for itself, observed vertices get the fill colour gray, and every arc
    `a -> b` ends at the factor of `b`. */
module FactorGraph {
  import opened Types

  /** A graphical model as the renderer reads it: the vertices `V`, the
      distribution name of each vertex's factor (`P[v][1][0]`), the arcs `A`
      in dictionary order and the observed vertices (the keys of `Y`). */
  datatype Pgm = Pgm(vertices: seq<string>, distType: map<string, string>,
                     arcs: seq<(string, seq<string>)>, observed: set<string>)

  datatype Shape = Box | Circle

  /** A node statement of the graph description; `fill` is its `fillcolor`
      attribute. */
  datatype NodeStmt = NodeStmt(name: string, caption: Option<string>, shape: Shape, fill: Option<string>)

  datatype Edge = Edge(tail: string, head: string)

  /** The graph description being built: its node and edge statements in
      the order they were added. */
  class Digraph {
    var nodes: seq<NodeStmt>
    var edges: seq<Edge>

    constructor ()
      ensures nodes == [] && edges == []
    {
      nodes := [];
      edges := [];
    }

    method AddNode(n: NodeStmt)
      modifies this
      ensures nodes == old(nodes) + [n] && edges == old(edges)
    {
      nodes := nodes + [n];
    }

    method AddEdge(tail: string, head: string)
      modifies this
      ensures edges == old(edges) + [Edge(tail, head)] && nodes == old(nodes)
    {
      edges := edges + [Edge(tail, head)];
    }
  }

  function FactorName(v: string): string {
    v + "_factor"
  }

  function FactorNode(g: Pgm, v: string): NodeStmt
    requires v in g.distType
  {
    NodeStmt(FactorName(v), Some("(" + g.distType[v] + " ...)"), Box, None)
  }

  function VertexNode(g: Pgm, v: string): NodeStmt {
    NodeStmt(v, None, Circle, Some(if v in g.observed then "gray" else "white"))
  }

  predicate HasFactors(g: Pgm, vs: seq<string>) {
    forall k :: 0 <= k < |vs| ==> vs[k] in g.distType
  }

  /** The node statements of the first loop: a factor box, then the
      vertex's circle, for each vertex in order. */
  function VertexNodes(g: Pgm, vs: seq<string>): (r: seq<NodeStmt>)
    requires HasFactors(g, vs)
    ensures |r| == 2 * |vs|
  {
    if vs == [] then []
    else VertexNodes(g, vs[..|vs| - 1]) + [FactorNode(g, vs[|vs| - 1]), VertexNode(g, vs[|vs| - 1])]
  }

  /** Vertex `k` owns nodes `2k` (its factor) and `2k + 1` (itself). */
  lemma {:induction false} VertexNodesAt(g: Pgm, vs: seq<string>, k: nat)
    requires HasFactors(g, vs) && k < |vs|
    ensures VertexNodes(g, vs)[2 * k] == FactorNode(g, vs[k])
    ensures VertexNodes(g, vs)[2 * k + 1] == VertexNode(g, vs[k])
    decreases |vs|
  {
    var front := vs[..|vs| - 1];
    if k < |vs| - 1 {
      VertexNodesAt(g, front, k);
    }
  }

  /** The edges of the first loop: each factor into its vertex. */
  function FactorEdges(vs: seq<string>): (r: seq<Edge>)
    ensures |r| == |vs|
    ensures forall k :: 0 <= k < |vs| ==> r[k] == Edge(FactorName(vs[k]), vs[k])
  {
    if vs == [] then [] else FactorEdges(vs[..|vs| - 1]) + [Edge(FactorName(vs[|vs| - 1]), vs[|vs| - 1])]
  }

  /** The edges of one arc entry `a -> bs`. */
  function TargetEdges(a: string, bs: seq<string>): (r: seq<Edge>)
    ensures |r| == |bs|
    ensures forall k :: 0 <= k < |bs| ==> r[k] == Edge(a, FactorName(bs[k]))
  {
    if bs == [] then [] else TargetEdges(a, bs[..|bs| - 1]) + [Edge(a, FactorName(bs[|bs| - 1]))]
  }

  /** The edges of the second loop, entry after entry. */
  function ArcEdges(arcs: seq<(string, seq<string>)>): seq<Edge> {
    if arcs == [] then []
    else ArcEdges(arcs[..|arcs| - 1]) + TargetEdges(arcs[|arcs| - 1].0, arcs[|arcs| - 1].1)
  }

  function ArcCount(arcs: seq<(string, seq<string>)>): nat {
    if arcs == [] then 0 else ArcCount(arcs[..|arcs| - 1]) + |arcs[|arcs| - 1].1|
  }

  /** One edge per arc, each from the arc's source into the factor of its
      target. */
  lemma {:induction false} ArcEdgesShape(arcs: seq<(string, seq<string>)>)
    ensures |ArcEdges(arcs)| == ArcCount(arcs)
    ensures forall e :: e in ArcEdges(arcs) ==>
      exists j, k :: 0 <= j < |arcs| && 0 <= k < |arcs[j].1| && e == Edge(arcs[j].0, FactorName(arcs[j].1[k]))
    decreases |arcs|
  {
    if arcs != [] {
      var front := arcs[..|arcs| - 1];
      var last := arcs[|arcs| - 1];
      ArcEdgesShape(front);
      forall e | e in ArcEdges(arcs)
        ensures exists j, k :: 0 <= j < |arcs| && 0 <= k < |arcs[j].1| && e == Edge(arcs[j].0, FactorName(arcs[j].1[k]))
      {
        if e in ArcEdges(front) {
          var j, k :| 0 <= j < |front| && 0 <= k < |front[j].1| && e == Edge(front[j].0, FactorName(front[j].1[k]));
          assert arcs[j] == front[j];
        } else {
          var t := TargetEdges(last.0, last.1);
          assert e in t;
          var k :| 0 <= k < |t| && t[k] == e;
          assert arcs[|arcs| - 1] == last;
        }
      }
    }
  }

  /** `render_graphs` for one model: the description it hands to graphviz. */
  method RenderGraph(g: Pgm) returns (graph: Digraph)
    requires HasFactors(g, g.vertices)
    ensures fresh(graph)
    ensures graph.nodes == VertexNodes(g, g.vertices)
    ensures graph.edges == FactorEdges(g.vertices) + ArcEdges(g.arcs)
  {
    graph := new Digraph();
    AddVertices(graph, g);
    AddArcs(graph, g.arcs);
  }

  /** The first loop: a factor box, a circle and an edge per vertex. */
  method AddVertices(graph: Digraph, g: Pgm)
    requires HasFactors(g, g.vertices)
    modifies graph
    ensures graph.nodes == old(graph.nodes) + VertexNodes(g, g.vertices)
    ensures graph.edges == old(graph.edges) + FactorEdges(g.vertices)
  {
    var vs := g.vertices;
    for i := 0 to |vs|
      invariant HasFactors(g, vs[..i])
      invariant graph.nodes == old(graph.nodes) + VertexNodes(g, vs[..i])
      invariant graph.edges == old(graph.edges) + FactorEdges(vs[..i])
    {
      VerticesSnoc(g, vs, i);
      AddVertex(graph, g, vs[i]);
    }
    assert vs[..|vs|] == vs;
  }

  /** One more vertex adds its two nodes and its edge at the end. */
  lemma VerticesSnoc(g: Pgm, vs: seq<string>, i: nat)
    requires HasFactors(g, vs) && i < |vs|
    ensures HasFactors(g, vs[..i]) && HasFactors(g, vs[..i + 1]) && vs[i] in g.distType
    ensures VertexNodes(g, vs[..i + 1]) == VertexNodes(g, vs[..i]) + [FactorNode(g, vs[i]), VertexNode(g, vs[i])]
    ensures FactorEdges(vs[..i + 1]) == FactorEdges(vs[..i]) + [Edge(FactorName(vs[i]), vs[i])]
  {
    assert vs[..i + 1][..i] == vs[..i];
  }

  /** One vertex: its factor box, its circle, and the edge between them. */
  method AddVertex(graph: Digraph, g: Pgm, node: string)
    requires node in g.distType
    modifies graph
    ensures graph.nodes == old(graph.nodes) + [FactorNode(g, node), VertexNode(g, node)]
    ensures graph.edges == old(graph.edges) + [Edge(FactorName(node), node)]
  {
    graph.AddNode(NodeStmt(node + "_factor", Some("(" + g.distType[node] + " ...)"), Box, None));
    var observed := node in g.observed;
    graph.AddNode(NodeStmt(node, None, Circle, Some(if observed then "gray" else "white")));
    graph.AddEdge(node + "_factor", node);
  }

  /** The second loop: an edge from `a` into the factor of each `b`. */
  method AddArcs(graph: Digraph, arcs: seq<(string, seq<string>)>)
    modifies graph
    ensures graph.nodes == old(graph.nodes)
    ensures graph.edges == old(graph.edges) + ArcEdges(arcs)
  {
    for j := 0 to |arcs|
      invariant graph.nodes == old(graph.nodes)
      invariant graph.edges == old(graph.edges) + ArcEdges(arcs[..j])
    {
      assert arcs[..j + 1][..j] == arcs[..j];
      var (a, bs) := arcs[j];
      ghost var before := graph.edges;
      for k := 0 to |bs|
        invariant graph.nodes == old(graph.nodes)
        invariant graph.edges == before + TargetEdges(a, bs[..k])
      {
        assert bs[..k + 1][..k] == bs[..k];
        graph.AddEdge(a, bs[k] + "_factor");
      }
      assert bs[..|bs|] == bs;
    }
    assert arcs[..|arcs|] == arcs;
  }

  /** Exactly the observed vertices have the `fillcolor` attribute gray. */
  lemma ObservedAreGray(g: Pgm)
    requires HasFactors(g, g.vertices)
    ensures forall k :: 0 <= k < |g.vertices| ==>
      var n := VertexNodes(g, g.vertices)[2 * k + 1];
      n.name == g.vertices[k] && (n.fill == Some("gray") <==> g.vertices[k] in g.observed)
  {
    forall k | 0 <= k < |g.vertices| ensures VertexNodes(g, g.vertices)[2 * k + 1] == VertexNode(g, g.vertices[k]) {
      VertexNodesAt(g, g.vertices, k);
    }
  }

  /** Two vertices and the arc `a -> b`: four nodes, three edges. */
  lemma TwoVertexExample(g: Pgm)
    requires g.vertices == ["a", "b"] && g.arcs == [("a", ["b"])]
    requires "a" in g.distType && "b" in g.distType
    ensures HasFactors(g, g.vertices)
    ensures |VertexNodes(g, g.vertices)| == 4
    ensures FactorEdges(g.vertices) + ArcEdges(g.arcs) ==
      [Edge("a_factor", "a"), Edge("b_factor", "b"), Edge("a", "b_factor")]
  {
    var edges := FactorEdges(g.vertices);
    assert edges[0] == Edge("a_factor", "a") && edges[1] == Edge("b_factor", "b");
    assert g.arcs[..0] == [];
    var t := TargetEdges("a", ["b"]);
    assert t[0] == Edge("a", "b_factor");
    assert ArcEdges(g.arcs) == t;
  }
}

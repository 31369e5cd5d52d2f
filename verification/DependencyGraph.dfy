/** Directed graphs over document names, with a fixed order of the nodes that have outgoing edges. */
module DependencyGraph {

  type Node = string

  datatype Edge = Edge(source: Node, kind: string, target: Node)

  /** An adjacency dictionary: `order` lists the keys in insertion order. */
  datatype Graph = Graph(order: seq<Node>, succ: map<Node, seq<Node>>) {

    /** `graph.get(n, [])` */
    function Next(n: Node): seq<Node> {
      if n in succ then succ[n] else []
    }

    ghost predicate Valid() {
      && (forall n :: n in order <==> n in succ)
      && (forall i, j :: 0 <= i < j < |order| ==> order[i] != order[j])
    }

    ghost function Nodes(): set<Node> {
      succ.Keys + set n, i | n in succ && 0 <= i < |succ[n]| :: succ[n][i]
    }
  }

  /** A walk visits at least one node and follows an edge at every step. */
  ghost predicate IsWalk(g: Graph, w: seq<Node>) {
    |w| > 0 && forall i :: 0 <= i < |w| - 1 ==> w[i + 1] in g.Next(w[i])
  }

  ghost predicate IsClosedWalk(g: Graph, w: seq<Node>) {
    IsWalk(g, w) && |w| >= 2 && w[0] == w[|w| - 1]
  }

  ghost predicate Acyclic(g: Graph) {
    forall w :: !IsClosedWalk(g, w)
  }

  ghost predicate Reaches(g: Graph, a: Node, b: Node) {
    exists w :: IsWalk(g, w) && |w| >= 2 && w[0] == a && w[|w| - 1] == b
  }

  ghost predicate Distinct<T>(s: seq<T>) {
    forall i, j :: 0 <= i < j < |s| ==> s[i] != s[j]
  }

  lemma NextInNodes(g: Graph, n: Node, i: nat)
    requires i < |g.Next(n)|
    ensures g.Next(n)[i] in g.Nodes()
  {
    assert n in g.succ && g.succ[n][i] in g.Nodes();
  }

  // ----- construction of the `depends_on` graph -----

  function Targets(edges: seq<Edge>, kind: string, n: Node): seq<Node> {
    if |edges| == 0 then []
    else
      var e := edges[|edges| - 1];
      Targets(edges[..|edges| - 1], kind, n) + (if e.kind == kind && e.source == n then [e.target] else [])
  }

  /** Sources of the edges of one kind, in the order of their first edge. */
  function Sources(edges: seq<Edge>, kind: string): seq<Node> {
    if |edges| == 0 then []
    else
      var e := edges[|edges| - 1];
      var before := Sources(edges[..|edges| - 1], kind);
      if e.kind == kind && e.source !in before then before + [e.source] else before
  }

  /** The graph of the `depends_on` edges. */
  function DependsOnGraph(edges: seq<Edge>): Graph {
    var sources := Sources(edges, "depends_on");
    Graph(sources, map n | n in sources :: Targets(edges, "depends_on", n))
  }

  method BuildDependsOnGraph(edges: seq<Edge>) returns (g: Graph)
    ensures g.Valid() && g == DependsOnGraph(edges)
    ensures forall n :: g.Next(n) == Targets(edges, "depends_on", n)
  {
    var order: seq<Node> := [];
    var succ: map<Node, seq<Node>> := map[];
    assert edges[..0] == [];
    for k := 0 to |edges|
      invariant Graph(order, succ).Valid()
      invariant order == Sources(edges[..k], "depends_on")
      invariant forall n :: Graph(order, succ).Next(n) == Targets(edges[..k], "depends_on", n)
    {
      var e := edges[k];
      assert edges[..k + 1][..k] == edges[..k];
      if e.kind == "depends_on" {
        if e.source !in succ {
          order := order + [e.source];
          succ := succ[e.source := []];
        }
        succ := succ[e.source := succ[e.source] + [e.target]];
      }
    }
    assert edges[..|edges|] == edges;
    g := Graph(order, succ);
    var expected := DependsOnGraph(edges);
    forall n | n in succ ensures n in expected.succ && succ[n] == expected.succ[n] {
      assert succ[n] == g.Next(n);
    }
    assert succ == expected.succ;
  }

  // ----- the graph in terms of the edges -----

  lemma {:induction false} TargetsAre(edges: seq<Edge>, kind: string, n: Node, m: Node)
    ensures m in Targets(edges, kind, n) <==> Edge(n, kind, m) in edges
  {
    if |edges| > 0 {
      TargetsAre(edges[..|edges| - 1], kind, n, m);
      assert edges == edges[..|edges| - 1] + [edges[|edges| - 1]];
    }
  }

  lemma {:induction false} SourcesAre(edges: seq<Edge>, kind: string, n: Node)
    ensures n in Sources(edges, kind) <==> exists m :: Edge(n, kind, m) in edges
  {
    if |edges| > 0 {
      var init, e := edges[..|edges| - 1], edges[|edges| - 1];
      SourcesAre(init, kind, n);
      assert edges == init + [e];
      if e.kind == kind && e.source == n {
        assert Edge(n, kind, e.target) in edges;
      }
    }
  }

  /** The targets of a source are those of its edges, one for each edge, in their order. */
  lemma {:induction false} TargetsInOrder(edges: seq<Edge>, kind: string, n: Node) returns (at: seq<nat>)
    ensures |at| == |Targets(edges, kind, n)|
    ensures forall j :: 0 <= j < |at| ==> at[j] < |edges| && edges[at[j]] == Edge(n, kind, Targets(edges, kind, n)[j])
    ensures forall j, k :: 0 <= j < k < |at| ==> at[j] < at[k]
    ensures forall i: nat :: i < |edges| && edges[i].kind == kind && edges[i].source == n ==> i in at
  {
    at := [];
    if |edges| > 0 {
      var last := |edges| - 1;
      at := TargetsInOrder(edges[..last], kind, n);
      if edges[last].kind == kind && edges[last].source == n {
        at := at + [last];
      }
    }
  }

  /** Some edge of the kind has this source, and no edge up to there has the other. */
  ghost predicate Earlier(edges: seq<Edge>, kind: string, a: Node, b: Node) {
    exists p :: 0 <= p < |edges| && edges[p].kind == kind && edges[p].source == a
                && forall q :: 0 <= q <= p && edges[q].kind == kind ==> edges[q].source != b
  }

  lemma EarlierMore(edges: seq<Edge>, e: Edge, kind: string, a: Node, b: Node)
    requires Earlier(edges, kind, a, b)
    ensures Earlier(edges + [e], kind, a, b)
  {
    var p :| 0 <= p < |edges| && edges[p].kind == kind && edges[p].source == a
             && forall q :: 0 <= q <= p && edges[q].kind == kind ==> edges[q].source != b;
    var more := edges + [e];
    assert more[p] == edges[p];
  }

  /** The sources come in the order of their first edges. */
  lemma {:induction false} SourcesInOrder(edges: seq<Edge>, kind: string, i: nat, j: nat)
    requires i < j < |Sources(edges, kind)|
    ensures Earlier(edges, kind, Sources(edges, kind)[i], Sources(edges, kind)[j])
  {
    var init, e := edges[..|edges| - 1], edges[|edges| - 1];
    var before := Sources(init, kind);
    assert edges == init + [e];
    if j < |before| {
      SourcesInOrder(init, kind, i, j);
      EarlierMore(init, e, kind, before[i], before[j]);
    } else {
      SourcesAre(init, kind, before[i]);
      var m :| Edge(before[i], kind, m) in init;
      var p :| 0 <= p < |init| && init[p] == Edge(before[i], kind, m);
      assert edges[p] == init[p];
      forall q | 0 <= q <= p && edges[q].kind == kind ensures edges[q].source != e.source {
        SourcesAre(init, kind, e.source);
        assert init[q] == edges[q] && Edge(init[q].source, kind, init[q].target) in init;
      }
    }
  }

  /** The graph has a step exactly where there is a `depends_on` edge. */
  lemma NextIffEdge(edges: seq<Edge>, n: Node, m: Node)
    ensures m in DependsOnGraph(edges).Next(n) <==> Edge(n, "depends_on", m) in edges
  {
    TargetsAre(edges, "depends_on", n, m);
    SourcesAre(edges, "depends_on", n);
  }

  /** Documents each of which depends on the next, back to the first. */
  ghost predicate EdgeLoop(edges: seq<Edge>, w: seq<Node>) {
    |w| >= 2 && w[0] == w[|w| - 1] && forall i :: 0 <= i < |w| - 1 ==> Edge(w[i], "depends_on", w[i + 1]) in edges
  }

  lemma LoopIffClosedWalk(edges: seq<Edge>, w: seq<Node>)
    ensures EdgeLoop(edges, w) <==> IsClosedWalk(DependsOnGraph(edges), w)
  {
    forall i | 0 <= i < |w| - 1
      ensures w[i + 1] in DependsOnGraph(edges).Next(w[i]) <==> Edge(w[i], "depends_on", w[i + 1]) in edges
    {
      NextIffEdge(edges, w[i], w[i + 1]);
    }
  }
}

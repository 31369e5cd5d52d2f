/** generate_relations_analysis: the detector that keeps continuation points on an explicit stack. */
module IterativeCycles {
  import opened DependencyGraph
  import opened CycleDetection
  import opened CycleTheorems

  /** A stack entry: a node, the path that led to it, and the edge position to resume at. */
  datatype Frame = Frame(node: Node, path: seq<Node>, idx: nat)

  predicate Fresh(stack: seq<Frame>) {
    |stack| > 0 && stack[|stack| - 1].idx == 0
  }

  /** The nodes whose exploration has begun and not ended. */
  ghost function Active(stack: seq<Frame>): seq<Node>
    requires |stack| > 0
  {
    var top := stack[|stack| - 1];
    if top.idx == 0 && |top.path| > 0 then top.path[..|top.path| - 1] else top.path
  }

  /** Only the top frame may be new; the frames below hold the prefixes of its path. */
  ghost predicate Layered(g: Graph, stack: seq<Frame>) {
    && (forall j :: 0 <= j < |stack| ==>
          && |stack[j].path| == j + 1
          && stack[j].path[j] == stack[j].node
          && stack[j].node in g.Nodes()
          && stack[j].idx <= |g.Next(stack[j].node)|)
    && (forall j :: 0 <= j < |stack| - 1 ==> 0 < stack[j].idx && stack[j].path == stack[j + 1].path[..j + 1])
  }

  ghost predicate StackInvariant(g: Graph, stack: seq<Frame>, visited: set<Node>, inStack: set<Node>) {
    && Layered(g, stack)
    && visited !! inStack
    && (|stack| == 0 ==> inStack == {})
    && (|stack| > 0 ==>
          && Distinct(stack[|stack| - 1].path)
          && (forall n :: n in inStack <==> n in Active(stack)))
    && (Fresh(stack) ==> stack[|stack| - 1].node !in visited + inStack)
  }

  /** Finishing every suspended frame, innermost first: what the call stack would still do. */
  ghost function Unwind(g: Graph, stack: seq<Frame>, t: Trail): (r: Trail)
    requires Layered(g, stack)
    requires Fresh(stack) ==> stack[|stack| - 1].node !in t.entered
    decreases |stack|
  {
    if |stack| == 0 then t
    else
      var top := stack[|stack| - 1];
      var below := stack[..|stack| - 1];
      var t' := if top.idx == 0
                then Visit(g, top.path[..|top.path| - 1], top.node, t)
                else Explore(g, top.path, top.idx, t);
      Unwind(g, below, t')
  }

  lemma {:induction false} IndexOfAppend(path: seq<Node>, n: Node)
    requires n in path
    ensures n in path + [n] && IndexOf(path + [n], n) == IndexOf(path, n)
  {
    if path[0] != n {
      assert (path + [n])[1..] == path[1..] + [n];
      IndexOfAppend(path[1..], n);
    }
  }

  lemma UnwindSingle(g: Graph, start: Node, t: Trail)
    requires start in g.Nodes() && start !in t.entered
    ensures Unwind(g, [Frame(start, [start], 0)], t) == Visit(g, [], start, t)
  {
    var stack := [Frame(start, [start], 0)];
    assert stack[..0] == [] && [start][..0] == [];
  }

  /** Finishing the top frame leaves the frames below it. */
  lemma UnwindLast(g: Graph, below: seq<Frame>, top: Frame, t: Trail)
    requires Layered(g, below + [top]) && (top.idx == 0 ==> top.node !in t.entered)
    ensures Layered(g, below) && !Fresh(below) && |top.path| > 0 && top.node in g.Nodes() && top.idx <= |g.Next(top.node)|
    ensures top.path[|top.path| - 1] == top.node
    ensures Unwind(g, below + [top], t) ==
            Unwind(g, below, if top.idx == 0 then Visit(g, top.path[..|top.path| - 1], top.node, t)
                             else Explore(g, top.path, top.idx, t))
  {
    var stack := below + [top];
    assert stack[|below|] == top && stack[..|stack| - 1] == below;
    forall j | 0 <= j < |below| ensures below[j] == stack[j] { }
    if |below| > 0 {
      assert stack[|below| - 1].idx > 0;
    }
  }

  /** A suspended frame with a new frame on top: the new node is visited, then the frame resumes. */
  lemma UnwindPushed(g: Graph, below: seq<Frame>, node: Node, path: seq<Node>, idx: nat, neighbor: Node, t: Trail)
    requires neighbor in g.Nodes() && neighbor !in t.entered
    requires |path| > 0 && path[|path| - 1] == node && 0 < idx <= |g.Next(node)|
    requires Layered(g, below + [Frame(node, path, idx), Frame(neighbor, path + [neighbor], 0)])
    ensures Layered(g, below) && !Fresh(below)
    ensures Unwind(g, below + [Frame(node, path, idx), Frame(neighbor, path + [neighbor], 0)], t)
         == Unwind(g, below, Explore(g, path, idx, Visit(g, path, neighbor, t)))
  {
    var suspended, pushed := Frame(node, path, idx), Frame(neighbor, path + [neighbor], 0);
    assert below + [suspended, pushed] == (below + [suspended]) + [pushed];
    assert (path + [neighbor])[..|path|] == path;
    UnwindLast(g, below + [suspended], pushed, t);
    UnwindLast(g, below, suspended, Visit(g, path, neighbor, t));
  }

  lemma TopFrameFacts(g: Graph, stack: seq<Frame>, visited: set<Node>, inStack: set<Node>)
    requires |stack| > 0 && StackInvariant(g, stack, visited, inStack)
    ensures var top := stack[|stack| - 1];
            && |top.path| == |stack| && top.path[|stack| - 1] == top.node
            && top.idx <= |g.Next(top.node)|
            && (top.idx == 0 <==> top.node !in inStack)
            && (forall n :: n in inStack + {top.node} <==> n in top.path)
  {
    var top := stack[|stack| - 1];
    var path := top.path;
    assert forall n :: n in path <==> n in path[..|path| - 1] || n == top.node;
  }

  /** Resuming the top frame is exploring its node, which a new frame enters first. */
  lemma UnwindTop(g: Graph, stack: seq<Frame>, t: Trail, entered: Trail)
    requires |stack| > 0 && Layered(g, stack)
    requires Fresh(stack) ==> stack[|stack| - 1].node !in t.entered
    requires entered == if Fresh(stack) then t.(entered := t.entered + {stack[|stack| - 1].node}) else t
    ensures !Fresh(stack[..|stack| - 1]) && Layered(g, stack[..|stack| - 1])
    ensures var top := stack[|stack| - 1];
            Unwind(g, stack, t) == Unwind(g, stack[..|stack| - 1], Explore(g, top.path, top.idx, entered))
  {
    var top := stack[|stack| - 1];
    assert top.path[..|top.path| - 1] + [top.node] == top.path;
  }

  lemma PushKeepsLayers(g: Graph, stack0: seq<Frame>, idx: nat, neighbor: Node)
    requires |stack0| > 0 && Layered(g, stack0)
    requires neighbor in g.Nodes() && 0 < idx <= |g.Next(stack0[|stack0| - 1].node)|
    ensures var top := stack0[|stack0| - 1];
            Layered(g, stack0[..|stack0| - 1] + [Frame(top.node, top.path, idx), Frame(neighbor, top.path + [neighbor], 0)])
  {
    var top := stack0[|stack0| - 1];
    var stack := stack0[..|stack0| - 1] + [Frame(top.node, top.path, idx), Frame(neighbor, top.path + [neighbor], 0)];
    assert (top.path + [neighbor])[..|top.path|] == top.path;
    forall j | 0 <= j < |stack| - 1 ensures 0 < stack[j].idx && stack[j].path == stack[j + 1].path[..j + 1] {
      if j < |stack| - 2 {
        assert stack[j] == stack0[j] && stack[j + 1].path == stack0[j + 1].path;
      }
    }
  }

  /** The invariant after the top frame was entered (if it was new) and a neighbor was pushed. */
  lemma PushKeepsInvariant(g: Graph, stack0: seq<Frame>, visited: set<Node>, inStack0: set<Node>, idx: nat,
                           neighbor: Node)
    requires |stack0| > 0 && StackInvariant(g, stack0, visited, inStack0)
    requires neighbor in g.Nodes() && neighbor !in visited + inStack0 + {stack0[|stack0| - 1].node}
    requires 0 < idx <= |g.Next(stack0[|stack0| - 1].node)|
    ensures
      var top := stack0[|stack0| - 1];
      var stack := stack0[..|stack0| - 1] + [Frame(top.node, top.path, idx), Frame(neighbor, top.path + [neighbor], 0)];
      StackInvariant(g, stack, visited, inStack0 + {top.node}) && Fresh(stack)
  {
    var top := stack0[|stack0| - 1];
    var path := top.path;
    var stack := stack0[..|stack0| - 1] + [Frame(top.node, path, idx), Frame(neighbor, path + [neighbor], 0)];
    assert forall n :: n in path <==> n in path[..|path| - 1] || n == top.node;
    assert (path + [neighbor])[..|path|] == path;
    PushKeepsLayers(g, stack0, idx, neighbor);
    assert Active(stack) == path;
  }

  /** The invariant after the top frame was finished. */
  lemma PopKeepsInvariant(g: Graph, stack0: seq<Frame>, visited: set<Node>, inStack0: set<Node>)
    requires |stack0| > 0 && StackInvariant(g, stack0, visited, inStack0)
    ensures
      var node := stack0[|stack0| - 1].node;
      var stack := stack0[..|stack0| - 1];
      StackInvariant(g, stack, visited + {node}, inStack0 - {node}) && !Fresh(stack)
  {
    var top := stack0[|stack0| - 1];
    var stack := stack0[..|stack0| - 1];
    var path := top.path;
    assert forall n :: n in path <==> n in path[..|path| - 1] || n == top.node;
    assert top.node !in path[..|path| - 1];
    assert Layered(g, stack);
    if |stack| > 0 {
      assert stack[|stack| - 1] == stack0[|stack0| - 2];
      assert stack[|stack| - 1].path == path[..|path| - 1];
      assert Active(stack) == path[..|path| - 1];
    } else {
      assert path[..|path| - 1] == [];
    }
  }

  /** The whole detector: every report is a loop of documents without repetition, every loop takes an edge that ends a
      report, and for each document the reports are those that its dependencies close with one path to it. */
  method FindCycles(edges: seq<Edge>) returns (cycles: seq<seq<Node>>)
    ensures DependsOnGraph(edges).Valid() && cycles == CyclesOf(DependsOnGraph(edges))
    ensures cycles == [] <==> forall w :: !EdgeLoop(edges, w)
    ensures forall c :: c in cycles ==> EdgeLoop(edges, c) && Distinct(c[..|c| - 1])
    ensures forall w :: EdgeLoop(edges, w) ==> MeetsReport(cycles, w)
    ensures forall a :: Told(DependsOnGraph(edges), cycles, a) || (ReportsOf(cycles, a) == [] && !DependsOnAny(edges, a))
  {
    var graph := BuildDependsOnGraph(edges);
    cycles := SearchGraph(graph);
    ReportsAreLoops(edges);
    forall a ensures Told(graph, cycles, a) || (ReportsOf(cycles, a) == [] && !DependsOnAny(edges, a)) {
      ReportsPerNode(graph, a);
      SourcesAre(edges, "depends_on", a);
    }
  }

  ghost predicate DependsOnAny(edges: seq<Edge>, a: Node) {
    exists b :: Edge(a, "depends_on", b) in edges
  }

  lemma ReportsAreLoops(edges: seq<Edge>)
    requires DependsOnGraph(edges).Valid()
    ensures CyclesOf(DependsOnGraph(edges)) == [] <==> forall w :: !EdgeLoop(edges, w)
    ensures forall c :: c in CyclesOf(DependsOnGraph(edges)) ==> EdgeLoop(edges, c) && Distinct(c[..|c| - 1])
    ensures forall w :: EdgeLoop(edges, w) ==> MeetsReport(CyclesOf(DependsOnGraph(edges)), w)
  {
    var g := DependsOnGraph(edges);
    NoReportIffAcyclic(g);
    EveryLoopMeetsReport(g);
    ReportsAreSimpleCycles(g);
    forall w ensures EdgeLoop(edges, w) <==> IsClosedWalk(g, w) {
      LoopIffClosedWalk(edges, w);
    }
    forall c | c in CyclesOf(g) ensures EdgeLoop(edges, c) && Distinct(c[..|c| - 1]) {
      assert IsSimpleCycle(g, c);
    }
  }

  method SearchGraph(g: Graph) returns (cycles: seq<seq<Node>>)
    requires g.Valid()
    ensures cycles == CyclesOf(g)
  {
    var visited: set<Node>, inStack: set<Node> := {}, {};
    ghost var finished: seq<Node> := [];
    cycles := [];
    assert g.order[..0] == [];
    for k := 0 to |g.order|
      invariant inStack == {}
      invariant Trail(visited, finished, cycles) == Sweep(g, g.order[..k], Trail({}, [], []))
    {
      var start := g.order[k];
      assert g.order[..k + 1][..k] == g.order[..k];
      if start in visited {
        continue;
      }
      ghost var goal := Visit(g, [], start, Trail(visited, finished, cycles));
      var stack := [Frame(start, [start], 0)];
      assert visited + inStack == visited;
      UnwindSingle(g, start, Trail(visited, finished, cycles));
      while |stack| > 0
        invariant StackInvariant(g, stack, visited, inStack)
        invariant Unwind(g, stack, Trail(visited + inStack, finished, cycles)) == goal
        decreases g.Nodes() - (visited + inStack), !Fresh(stack), |stack|
      {
        ghost var entered := visited + inStack;
        visited, inStack, stack, cycles, finished :=
          Step(g, stack, visited, inStack, cycles, finished);
        assert entered <= visited + inStack;
      }
    }
    assert g.order[..|g.order|] == g.order;
  }

  /** The `for i in range(idx, len(neighbors))` loop: reports back edges, stops at the first unvisited neighbor. */
  method Scan(g: Graph, path: seq<Node>, idx: nat, visited: set<Node>, inStack: set<Node>,
              cycles0: seq<seq<Node>>, ghost finished: seq<Node>)
    returns (cycles: seq<seq<Node>>, i: nat, foundNext: bool)
    requires |path| > 0 && idx <= |g.Next(path[|path| - 1])|
    requires forall n :: n in inStack <==> n in path
    ensures var neighbors := g.Next(path[|path| - 1]);
            var entered := visited + inStack;
            && i <= |neighbors|
            && (foundNext ==> i < |neighbors| && neighbors[i] !in entered && neighbors[i] in g.Nodes())
            && Explore(g, path, idx, Trail(entered, finished, cycles0)) ==
               if foundNext
               then Explore(g, path, i + 1, Visit(g, path, neighbors[i], Trail(entered, finished, cycles)))
               else Trail(entered, finished + [path[|path| - 1]], cycles)
  {
    var node := path[|path| - 1];
    var neighbors := g.Next(node);
    ghost var entered := visited + inStack;
    cycles := cycles0;
    i := idx;
    while i < |neighbors|
      invariant idx <= i <= |neighbors|
      invariant Explore(g, path, i, Trail(entered, finished, cycles)) ==
                Explore(g, path, idx, Trail(entered, finished, cycles0))
    {
      var neighbor := neighbors[i];
      NextInNodes(g, node, i);
      if neighbor in inStack {
        var cyclePath := path + [neighbor];
        var cycleStart := IndexOf(cyclePath, neighbor);
        IndexOfAppend(path, neighbor);
        assert cyclePath[cycleStart..] == Loop(path, neighbor);
        cycles := cycles + [cyclePath[cycleStart..]];
      } else if neighbor !in visited {
        return cycles, i, true;
      }
      i := i + 1;
    }
    foundNext := false;
  }

  /** What the top frame still has to do, seen from before (t0) and after (t1) entering its node. */
  ghost predicate Entered(stack: seq<Frame>, t0: Trail, t1: Trail)
    requires |stack| > 0
  {
    t1 == t0.(entered := t0.entered + {stack[|stack| - 1].node})
  }

  /** Pushing: the invariant holds again and the unfinished work is the same. */
  lemma PushStep(g: Graph, stack0: seq<Frame>, stack: seq<Frame>, visited: set<Node>, inStack: set<Node>,
                 idx: nat, neighbor: Node, t0: Trail, t1: Trail, t: Trail)
    requires |stack0| > 0 && StackInvariant(g, stack0, visited, inStack)
    requires neighbor in g.Nodes() && neighbor !in t.entered
    requires t0.entered == visited + inStack && t.entered == t1.entered && Entered(stack0, t0, t1)
    requires var top := stack0[|stack0| - 1];
             && |top.path| > 0 && top.path[|top.path| - 1] == top.node
             && 0 < idx <= |g.Next(top.node)| && top.idx <= |g.Next(top.node)|
             && stack == stack0[..|stack0| - 1] + [Frame(top.node, top.path, idx), Frame(neighbor, top.path + [neighbor], 0)]
             && Explore(g, top.path, top.idx, t1) == Explore(g, top.path, idx, Visit(g, top.path, neighbor, t))
    ensures StackInvariant(g, stack, visited, inStack + {stack0[|stack0| - 1].node}) && Fresh(stack)
    ensures Unwind(g, stack, t) == Unwind(g, stack0, t0)
  {
    var top := stack0[|stack0| - 1];
    TopFrameFacts(g, stack0, visited, inStack);
    PushKeepsInvariant(g, stack0, visited, inStack, idx, neighbor);
    UnwindPushed(g, stack0[..|stack0| - 1], top.node, top.path, idx, neighbor, t);
    assert !Fresh(stack0) ==> t1 == t0;
    UnwindTop(g, stack0, t0, t1);
  }

  /** Finishing the top frame: likewise. */
  lemma PopStep(g: Graph, stack0: seq<Frame>, visited: set<Node>, inStack: set<Node>, t0: Trail, t1: Trail, t: Trail)
    requires |stack0| > 0 && StackInvariant(g, stack0, visited, inStack)
    requires t0.entered == visited + inStack && Entered(stack0, t0, t1)
    requires var top := stack0[|stack0| - 1];
             && |top.path| > 0 && top.path[|top.path| - 1] == top.node && top.idx <= |g.Next(top.node)|
             && Explore(g, top.path, top.idx, t1) == t
    ensures var stack, node := stack0[..|stack0| - 1], stack0[|stack0| - 1].node;
            && StackInvariant(g, stack, visited + {node}, inStack - {node}) && !Fresh(stack)
            && Unwind(g, stack, t) == Unwind(g, stack0, t0)
  {
    TopFrameFacts(g, stack0, visited, inStack);
    PopKeepsInvariant(g, stack0, visited, inStack);
    assert !Fresh(stack0) ==> t1 == t0;
    UnwindTop(g, stack0, t0, t1);
  }

  /** One iteration of the `while stack` loop. */
  method Step(g: Graph, stack0: seq<Frame>, visited0: set<Node>, inStack0: set<Node>,
              cycles0: seq<seq<Node>>, ghost finished0: seq<Node>)
    returns (visited: set<Node>, inStack: set<Node>, stack: seq<Frame>, cycles: seq<seq<Node>>,
             ghost finished: seq<Node>)
    requires |stack0| > 0
    requires StackInvariant(g, stack0, visited0, inStack0)
    ensures StackInvariant(g, stack, visited, inStack)
    ensures Unwind(g, stack, Trail(visited + inStack, finished, cycles))
         == Unwind(g, stack0, Trail(visited0 + inStack0, finished0, cycles0))
    ensures visited + inStack == visited0 + inStack0 + {stack0[|stack0| - 1].node}
    ensures Fresh(stack) || |stack| < |stack0|
    ensures !Fresh(stack0) ==> stack0[|stack0| - 1].node in visited0 + inStack0
  {
    visited, inStack, finished := visited0, inStack0, finished0;
    var Frame(node, path, idx) := stack0[|stack0| - 1];
    TopFrameFacts(g, stack0, visited0, inStack0);
    if idx == 0 {
      // The source tests `node in in_stack` and `node in visited` here; both are always false.
      assert node !in inStack && node !in visited;
      inStack := inStack + {node};
    }
    assert inStack == inStack0 + {node};
    assert visited + inStack == visited0 + inStack0 + {node};
    ghost var t0, t1 := Trail(visited0 + inStack0, finished0, cycles0), Trail(visited + inStack, finished0, cycles0);
    var i, foundNext;
    cycles, i, foundNext := Scan(g, path, idx, visited, inStack, cycles0, finished);
    if foundNext {
      var neighbor := g.Next(node)[i];
      stack := stack0[..|stack0| - 1] + [Frame(node, path, i + 1), Frame(neighbor, path + [neighbor], 0)];
      PushStep(g, stack0, stack, visited0, inStack0, i + 1, neighbor, t0, t1, t1.(cycles := cycles));
    } else {
      stack := stack0[..|stack0| - 1];
      inStack := inStack - {node};
      visited := visited + {node};
      finished := finished + [node];
      assert visited + inStack == t1.entered && inStack == inStack0 - {node};
      PopStep(g, stack0, visited0, inStack0, t0, t1, Trail(t1.entered, finished, cycles));
    }
  }
}

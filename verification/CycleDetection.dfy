/** The two cycle detectors: one with an explicit continuation stack, one recursive. */
module CycleDetection {
  import opened DependencyGraph

  // ----- the search as a mathematical function -----

  /** What a search has done: nodes entered, nodes finished (in that order), cycles reported. */
  datatype Trail = Trail(entered: set<Node>, finished: seq<Node>, cycles: seq<seq<Node>>)

  function IndexOf(s: seq<Node>, x: Node): (i: nat)
    requires x in s
    ensures i < |s| && s[i] == x && x !in s[..i]
  {
    if s[0] == x then 0 else 1 + IndexOf(s[1..], x)
  }

  /** The report for a back edge from the last node of the path to n. */
  function Loop(path: seq<Node>, n: Node): seq<Node>
    requires n in path
  {
    path[IndexOf(path, n)..] + [n]
  }

  ghost function Visit(g: Graph, path: seq<Node>, node: Node, t: Trail): (r: Trail)
    requires node in g.Nodes() && node !in t.entered
    ensures t.entered + {node} <= r.entered && t.cycles <= r.cycles
    decreases g.Nodes() - t.entered, 0, 0
  {
    Explore(g, path + [node], 0, t.(entered := t.entered + {node}))
  }

  /** Follows the edges of the last node of the path from position i on, then finishes it. */
  ghost function Explore(g: Graph, path: seq<Node>, i: nat, t: Trail): (r: Trail)
    requires |path| > 0 && i <= |g.Next(path[|path| - 1])|
    ensures t.entered <= r.entered && t.cycles <= r.cycles
    decreases g.Nodes() - t.entered, 1, |g.Next(path[|path| - 1])| - i
  {
    var node := path[|path| - 1];
    var next := g.Next(node);
    if i == |next| then
      t.(finished := t.finished + [node])
    else
      var n := next[i];
      NextInNodes(g, node, i);
      if n !in t.entered then
        var r := Visit(g, path, n, t);
        assert g.Nodes() - r.entered < g.Nodes() - t.entered by {
          assert n in g.Nodes() - t.entered && n !in g.Nodes() - r.entered;
        }
        Explore(g, path, i + 1, r)
      else
        Explore(g, path, i + 1, if n in path then t.(cycles := t.cycles + [Loop(path, n)]) else t)
  }

  ghost function Sweep(g: Graph, starts: seq<Node>, t: Trail): (r: Trail)
    requires forall n :: n in starts ==> n in g.Nodes()
    ensures t.entered <= r.entered && t.cycles <= r.cycles
  {
    if |starts| == 0 then t
    else
      var before := Sweep(g, starts[..|starts| - 1], t);
      var n := starts[|starts| - 1];
      if n in before.entered then before else Visit(g, [], n, before)
  }

  ghost function Search(g: Graph): Trail
    requires g.Valid()
  {
    Sweep(g, g.order, Trail({}, [], []))
  }

  ghost function CyclesOf(g: Graph): seq<seq<Node>>
    requires g.Valid()
  {
    Search(g).cycles
  }

  // ----- review_impact: the recursive detector -----

  class RecursiveSearch {
    const g: Graph
    var visited: set<Node>
    var recursionStack: seq<Node>
    var cycles: seq<seq<Node>>
    ghost var finished: seq<Node>

    constructor (g: Graph)
      ensures this.g == g
      ensures visited == {} && recursionStack == [] && cycles == [] && finished == []
    {
      this.g := g;
      visited, recursionStack, cycles, finished := {}, [], [], [];
    }

    ghost function State(): Trail
      reads this
    {
      Trail(visited, finished, cycles)
    }

    method Dfs(node: Node)
      requires node in g.Nodes() && node !in visited
      modifies this
      ensures State() == Visit(g, old(recursionStack), node, old(State()))
      ensures recursionStack == old(recursionStack)
      decreases g.Nodes() - visited
    {
      visited := visited + {node};
      recursionStack := recursionStack + [node];
      ghost var path, entry := recursionStack, State();
      var next := g.Next(node);
      for i := 0 to |next|
        invariant recursionStack == path
        invariant node in visited && old(visited) <= visited
        invariant Explore(g, path, i, State()) == Explore(g, path, 0, entry)
      {
        var neighbor := next[i];
        NextInNodes(g, node, i);
        if neighbor !in visited {
          Dfs(neighbor);
        } else if neighbor in recursionStack {
          var idx := IndexOf(recursionStack, neighbor);
          cycles := cycles + [recursionStack[idx..] + [neighbor]];
        }
      }
      finished := finished + [node];
      recursionStack := recursionStack[..|recursionStack| - 1];
    }

    method FindCycles() returns (result: seq<seq<Node>>)
      requires g.Valid()
      requires visited == {} && recursionStack == [] && cycles == [] && finished == []
      modifies this
      ensures result == CyclesOf(g)
    {
      assert g.order[..0] == [];
      for k := 0 to |g.order|
        invariant recursionStack == []
        invariant State() == Sweep(g, g.order[..k], Trail({}, [], []))
      {
        var node := g.order[k];
        assert g.order[..k + 1][..k] == g.order[..k];
        if node !in visited {
          Dfs(node);
        }
      }
      assert g.order[..|g.order|] == g.order;
      result := cycles;
    }
  }
}

/** What the reported cycles mean. */
module CycleTheorems {
  import opened DependencyGraph
  import opened CycleDetection

  // ----- soundness: every report is a simple closed walk -----

  ghost predicate IsSimpleCycle(g: Graph, c: seq<Node>) {
    IsClosedWalk(g, c) && Distinct(c[..|c| - 1])
  }

  ghost predicate AllSimpleCycles(g: Graph, cycles: seq<seq<Node>>) {
    forall c :: c in cycles ==> IsSimpleCycle(g, c)
  }

  /** A search path: a simple walk whose nodes have all been entered. */
  ghost predicate SearchPath(g: Graph, path: seq<Node>, t: Trail) {
    Distinct(path) && (path == [] || IsWalk(g, path)) && (forall n :: n in path ==> n in t.entered)
  }

  lemma LoopIsSimpleCycle(g: Graph, path: seq<Node>, n: Node)
    requires IsWalk(g, path) && Distinct(path)
    requires n in path && n in g.Next(path[|path| - 1])
    ensures IsSimpleCycle(g, Loop(path, n))
  {
    var k := IndexOf(path, n);
    var c := Loop(path, n);
    forall i | 0 <= i < |c| - 1 ensures c[i + 1] in g.Next(c[i]) {
      if i < |c| - 2 {
        assert c[i] == path[k + i] && c[i + 1] == path[k + i + 1];
      }
    }
    assert c[..|c| - 1] == path[k..];
  }

  lemma {:induction false} VisitSound(g: Graph, path: seq<Node>, node: Node, t: Trail)
    requires node in g.Nodes() && node !in t.entered
    requires SearchPath(g, path, t) && (path == [] || node in g.Next(path[|path| - 1]))
    requires AllSimpleCycles(g, t.cycles)
    ensures AllSimpleCycles(g, Visit(g, path, node, t).cycles)
    decreases g.Nodes() - t.entered, 0, 0
  {
    ExploreSound(g, path + [node], 0, t.(entered := t.entered + {node}));
  }

  lemma {:induction false} ExploreSound(g: Graph, path: seq<Node>, i: nat, t: Trail)
    requires |path| > 0 && i <= |g.Next(path[|path| - 1])|
    requires SearchPath(g, path, t) && AllSimpleCycles(g, t.cycles)
    ensures AllSimpleCycles(g, Explore(g, path, i, t).cycles)
    decreases g.Nodes() - t.entered, 1, |g.Next(path[|path| - 1])| - i
  {
    var node := path[|path| - 1];
    var next := g.Next(node);
    if i < |next| {
      var n := next[i];
      NextInNodes(g, node, i);
      if n !in t.entered {
        VisitSound(g, path, n, t);
        var r := Visit(g, path, n, t);
        assert n in g.Nodes() - t.entered && n !in g.Nodes() - r.entered;
        ExploreSound(g, path, i + 1, r);
      } else if n in path {
        LoopIsSimpleCycle(g, path, n);
        ExploreSound(g, path, i + 1, t.(cycles := t.cycles + [Loop(path, n)]));
      } else {
        ExploreSound(g, path, i + 1, t);
      }
    }
  }

  lemma {:induction false} SweepSound(g: Graph, starts: seq<Node>, t: Trail)
    requires forall n :: n in starts ==> n in g.Nodes()
    requires AllSimpleCycles(g, t.cycles)
    ensures AllSimpleCycles(g, Sweep(g, starts, t).cycles)
  {
    if |starts| > 0 {
      SweepSound(g, starts[..|starts| - 1], t);
      var before := Sweep(g, starts[..|starts| - 1], t);
      var n := starts[|starts| - 1];
      if n !in before.entered {
        VisitSound(g, [], n, before);
      }
    }
  }

  /** Every reported list is a real closed walk, simple except that its ends coincide. */
  lemma ReportsAreSimpleCycles(g: Graph)
    requires g.Valid()
    ensures AllSimpleCycles(g, CyclesOf(g))
  {
    SweepSound(g, g.order, Trail({}, [], []));
  }

  // ----- completeness: no report means there is no cycle -----

  /** Every successor of a finished node finished earlier. */
  ghost predicate Topological(g: Graph, finished: seq<Node>) {
    forall k, m :: 0 <= k < |finished| && m in g.Next(finished[k]) ==> m in finished[..k]
  }

  ghost predicate Accounted(path: seq<Node>, t: Trail) {
    forall n :: n in t.entered <==> n in path || n in t.finished
  }

  lemma {:induction false} VisitFinishes(g: Graph, path: seq<Node>, node: Node, t: Trail)
    requires node in g.Nodes() && node !in t.entered
    requires Accounted(path, t) && Topological(g, t.finished)
    requires Visit(g, path, node, t).cycles == []
    ensures var r := Visit(g, path, node, t);
            Accounted(path, r) && Topological(g, r.finished) && t.finished <= r.finished && node in r.finished
    decreases g.Nodes() - t.entered, 0, 0
  {
    var t' := t.(entered := t.entered + {node});
    assert Accounted(path + [node], t');
    ExploreFinishes(g, path + [node], 0, t');
    assert (path + [node])[..|path|] == path;
  }

  lemma {:induction false} ExploreFinishes(g: Graph, path: seq<Node>, i: nat, t: Trail)
    requires |path| > 0 && i <= |g.Next(path[|path| - 1])|
    requires Accounted(path, t) && Topological(g, t.finished)
    requires forall m :: m in g.Next(path[|path| - 1])[..i] ==> m in t.finished
    requires Explore(g, path, i, t).cycles == []
    ensures var r := Explore(g, path, i, t);
            && Accounted(path[..|path| - 1], r) && Topological(g, r.finished)
            && t.finished <= r.finished && path[|path| - 1] in r.finished
    decreases g.Nodes() - t.entered, 1, |g.Next(path[|path| - 1])| - i
  {
    var node := path[|path| - 1];
    var next := g.Next(node);
    if i == |next| {
      var r := t.(finished := t.finished + [node]);
      assert r.finished[..|t.finished|] == t.finished;
      forall k, m | 0 <= k < |r.finished| && m in g.Next(r.finished[k]) ensures m in r.finished[..k] {
        if k < |t.finished| {
          assert r.finished[..k] == t.finished[..k];
        }
      }
      assert path == path[..|path| - 1] + [node];
    } else {
      var n := next[i];
      NextInNodes(g, node, i);
      assert next[..i + 1] == next[..i] + [n];
      if n !in t.entered {
        var r := Visit(g, path, n, t);
        assert r.cycles == [];
        VisitFinishes(g, path, n, t);
        assert n in g.Nodes() - t.entered && n !in g.Nodes() - r.entered;
        forall m | m in next[..i + 1] ensures m in r.finished {
          if m != n {
            assert m in next[..i];
            assert t.finished == r.finished[..|t.finished|];
          }
        }
        ExploreFinishes(g, path, i + 1, r);
      } else {
        assert n !in path;
        ExploreFinishes(g, path, i + 1, t);
      }
    }
  }

  lemma {:induction false} SweepFinishes(g: Graph, starts: seq<Node>)
    requires forall n :: n in starts ==> n in g.Nodes()
    requires Sweep(g, starts, Trail({}, [], [])).cycles == []
    ensures var r := Sweep(g, starts, Trail({}, [], []));
            Accounted([], r) && Topological(g, r.finished) && (forall n :: n in starts ==> n in r.finished)
  {
    if |starts| > 0 {
      var init, n := starts[..|starts| - 1], starts[|starts| - 1];
      var before := Sweep(g, init, Trail({}, [], []));
      assert before.cycles == [];
      SweepFinishes(g, init);
      assert starts == init + [n];
      if n !in before.entered {
        VisitFinishes(g, [], n, before);
      }
    }
  }

  /** Along a walk, the first position in a topological order strictly decreases. */
  lemma {:induction false} WalkDescends(g: Graph, finished: seq<Node>, w: seq<Node>, k: nat)
    requires Topological(g, finished) && IsWalk(g, w)
    requires k < |finished| && w[0] in finished[..k + 1]
    ensures w[|w| - 1] in finished[..k + 1]
    ensures |w| >= 2 ==> w[|w| - 1] in finished[..k]
    decreases |w|
  {
    if |w| >= 2 {
      var j :| 0 <= j <= k && finished[j] == w[0];
      assert w[1] in g.Next(w[0]);
      assert w[1] in finished[..j];
      assert j > 0 && w[1] in finished[..j - 1 + 1];
      forall i | 0 <= i < |w[1..]| - 1 ensures w[1..][i + 1] in g.Next(w[1..][i]) {
        assert w[i + 2] in g.Next(w[i + 1]);
      }
      WalkDescends(g, finished, w[1..], j - 1);
      assert w[|w| - 1] in finished[..j];
    }
  }

  /** The detectors report nothing exactly when the graph has no cycle. */
  lemma NoReportIffAcyclic(g: Graph)
    requires g.Valid()
    ensures CyclesOf(g) == [] <==> Acyclic(g)
  {
    if CyclesOf(g) == [] {
      SweepFinishes(g, g.order);
      var finished := Search(g).finished;
      forall w ensures !IsClosedWalk(g, w) {
        if IsClosedWalk(g, w) {
          assert w[1] in g.Next(w[0]);
          assert w[0] in g.order;
          var k := IndexOf(finished, w[0]);
          WalkDescends(g, finished, w, k);
        }
      }
    } else {
      ReportsAreSimpleCycles(g);
      var c := CyclesOf(g)[0];
      assert c in CyclesOf(g) && IsSimpleCycle(g, c);
      assert IsClosedWalk(g, c);
    }
  }

  // ----- which loops are reported -----

  /** The edge that a report ends with. */
  predicate EndsWith(c: seq<Node>, a: Node, b: Node) {
    |c| >= 2 && c[|c| - 2] == a && c[|c| - 1] == b
  }

  ghost predicate ClosesReport(cycles: seq<seq<Node>>, a: Node, b: Node) {
    exists c :: c in cycles && EndsWith(c, a, b)
  }

  /** Every successor of a finished node finished earlier, or the edge to it ends a report. */
  ghost predicate TopologicalBut(g: Graph, finished: seq<Node>, cycles: seq<seq<Node>>) {
    forall k, m :: 0 <= k < |finished| && m in g.Next(finished[k]) ==>
                     m in finished[..k] || ClosesReport(cycles, finished[k], m)
  }

  lemma StillClosed(cycles: seq<seq<Node>>, cycles': seq<seq<Node>>)
    requires cycles <= cycles'
    ensures forall a, b :: ClosesReport(cycles, a, b) ==> ClosesReport(cycles', a, b)
  {
    forall c | c in cycles ensures c in cycles' {
      var i :| 0 <= i < |cycles| && cycles[i] == c;
      assert cycles'[i] == c;
    }
  }

  lemma LoopEnds(path: seq<Node>, n: Node)
    requires n in path
    ensures EndsWith(Loop(path, n), path[|path| - 1], n)
  { }

  lemma FinishOne(g: Graph, finished: seq<Node>, node: Node, cycles: seq<seq<Node>>)
    requires TopologicalBut(g, finished, cycles)
    requires forall m :: m in g.Next(node) ==> m in finished || ClosesReport(cycles, node, m)
    ensures TopologicalBut(g, finished + [node], cycles)
  {
    var more := finished + [node];
    forall k, m | 0 <= k < |more| && m in g.Next(more[k]) ensures m in more[..k] || ClosesReport(cycles, more[k], m) {
      if k < |finished| {
        assert more[..k] == finished[..k] && more[k] == finished[k];
      } else {
        assert more[..k] == finished;
      }
    }
  }

  lemma StillTopological(g: Graph, finished: seq<Node>, cycles: seq<seq<Node>>, cycles': seq<seq<Node>>)
    requires TopologicalBut(g, finished, cycles) && cycles <= cycles'
    ensures TopologicalBut(g, finished, cycles')
  {
    StillClosed(cycles, cycles');
  }

  lemma {:induction false} VisitCloses(g: Graph, path: seq<Node>, node: Node, t: Trail)
    requires node in g.Nodes() && node !in t.entered
    requires Accounted(path, t) && TopologicalBut(g, t.finished, t.cycles)
    ensures var r := Visit(g, path, node, t);
            Accounted(path, r) && TopologicalBut(g, r.finished, r.cycles) && t.finished <= r.finished && node in r.finished
    decreases g.Nodes() - t.entered, 0, 0
  {
    var t' := t.(entered := t.entered + {node});
    assert Accounted(path + [node], t');
    ExploreCloses(g, path + [node], 0, t');
    assert (path + [node])[..|path|] == path;
  }

  lemma {:induction false} ExploreCloses(g: Graph, path: seq<Node>, i: nat, t: Trail)
    requires |path| > 0 && i <= |g.Next(path[|path| - 1])|
    requires Accounted(path, t) && TopologicalBut(g, t.finished, t.cycles)
    requires forall m :: m in g.Next(path[|path| - 1])[..i] ==>
               m in t.finished || ClosesReport(t.cycles, path[|path| - 1], m)
    ensures var r := Explore(g, path, i, t);
            && Accounted(path[..|path| - 1], r) && TopologicalBut(g, r.finished, r.cycles)
            && t.finished <= r.finished && path[|path| - 1] in r.finished
    decreases g.Nodes() - t.entered, 1, |g.Next(path[|path| - 1])| - i
  {
    var node := path[|path| - 1];
    var next := g.Next(node);
    if i == |next| {
      assert next[..i] == next;
      FinishOne(g, t.finished, node, t.cycles);
      assert path == path[..|path| - 1] + [node];
    } else {
      var n := next[i];
      NextInNodes(g, node, i);
      assert next[..i + 1] == next[..i] + [n];
      if n !in t.entered {
        var r := Visit(g, path, n, t);
        VisitCloses(g, path, n, t);
        assert n in g.Nodes() - t.entered && n !in g.Nodes() - r.entered;
        StillClosed(t.cycles, r.cycles);
        assert forall m :: m in t.finished ==> m in r.finished;
        ExploreCloses(g, path, i + 1, r);
      } else if n in path {
        var r := t.(cycles := t.cycles + [Loop(path, n)]);
        LoopEnds(path, n);
        assert Loop(path, n) in r.cycles;
        StillClosed(t.cycles, r.cycles);
        StillTopological(g, t.finished, t.cycles, r.cycles);
        ExploreCloses(g, path, i + 1, r);
      } else {
        ExploreCloses(g, path, i + 1, t);
      }
    }
  }

  lemma {:induction false} SweepCloses(g: Graph, starts: seq<Node>)
    requires forall n :: n in starts ==> n in g.Nodes()
    ensures var r := Sweep(g, starts, Trail({}, [], []));
            Accounted([], r) && TopologicalBut(g, r.finished, r.cycles) && (forall n :: n in starts ==> n in r.finished)
  {
    if |starts| > 0 {
      var init, n := starts[..|starts| - 1], starts[|starts| - 1];
      var before := Sweep(g, init, Trail({}, [], []));
      SweepCloses(g, init);
      assert starts == init + [n];
      if n !in before.entered {
        VisitCloses(g, [], n, before);
        var r := Visit(g, [], n, before);
        assert forall m :: m in before.finished ==> m in r.finished;
      }
    }
  }

  /** A step of the walk ends a report. */
  ghost predicate MeetsReport(cycles: seq<seq<Node>>, w: seq<Node>) {
    exists i :: 0 <= i < |w| - 1 && ClosesReport(cycles, w[i], w[i + 1])
  }

  /** A walk that meets no report descends in the order of finishing. */
  lemma {:induction false} WalkDescendsBut(g: Graph, finished: seq<Node>, cycles: seq<seq<Node>>, w: seq<Node>, k: nat)
    requires TopologicalBut(g, finished, cycles) && IsWalk(g, w) && !MeetsReport(cycles, w)
    requires k < |finished| && w[0] in finished[..k + 1]
    ensures w[|w| - 1] in finished[..k + 1]
    ensures |w| >= 2 ==> w[|w| - 1] in finished[..k]
    decreases |w|
  {
    if |w| >= 2 {
      var j :| 0 <= j <= k && finished[j] == w[0];
      assert w[0 + 1] in g.Next(w[0]) && !ClosesReport(cycles, w[0], w[0 + 1]);
      assert w[1] in finished[..j];
      assert j > 0 && w[1] in finished[..j - 1 + 1];
      var rest := w[1..];
      forall i | 0 <= i < |rest| - 1 ensures rest[i + 1] in g.Next(rest[i]) && !ClosesReport(cycles, rest[i], rest[i + 1]) {
        assert w[i + 1 + 1] in g.Next(w[i + 1]) && !ClosesReport(cycles, w[i + 1], w[i + 1 + 1]);
      }
      WalkDescendsBut(g, finished, cycles, rest, j - 1);
      assert w[|w| - 1] in finished[..j];
    }
  }

  /** Every closed walk takes an edge that ends a report: without these edges the graph is acyclic. */
  lemma EveryLoopMeetsReport(g: Graph)
    requires g.Valid()
    ensures forall w :: IsClosedWalk(g, w) ==> MeetsReport(CyclesOf(g), w)
  {
    SweepCloses(g, g.order);
    var finished := Search(g).finished;
    forall w | IsClosedWalk(g, w) ensures MeetsReport(CyclesOf(g), w) {
      assert w[0 + 1] in g.Next(w[0]);
      assert w[0] in g.order;
      var k := IndexOf(finished, w[0]);
      if !MeetsReport(CyclesOf(g), w) {
        WalkDescendsBut(g, finished, CyclesOf(g), w, k);
      }
    }
  }

  // ----- the reports of one node -----

  /** The reports whose last edge leaves the node, in order. */
  function ReportsOf(cycles: seq<seq<Node>>, a: Node): seq<seq<Node>> {
    if |cycles| == 0 then []
    else
      var c := cycles[|cycles| - 1];
      ReportsOf(cycles[..|cycles| - 1], a) + if |c| >= 2 && c[|c| - 2] == a then [c] else []
  }

  /** The part of the path from the successor on, closed by the successor, for each that is on the path, in order. */
  function Closings(path: seq<Node>, next: seq<Node>): seq<seq<Node>> {
    if |next| == 0 then []
    else
      var n := next[|next| - 1];
      Closings(path, next[..|next| - 1]) + if n in path then [path[IndexOf(path, n)..] + [n]] else []
  }

  ghost predicate IsPathTo(g: Graph, path: seq<Node>, a: Node) {
    IsWalk(g, path) && Distinct(path) && path[|path| - 1] == a
  }

  /** One simple path leads to the node, and its reports are the loops that its successors on the path close. */
  ghost predicate Told(g: Graph, cycles: seq<seq<Node>>, a: Node) {
    exists path :: IsPathTo(g, path, a) && ReportsOf(cycles, a) == Closings(path, g.Next(a))
  }

  lemma ReportsAppend(cycles: seq<seq<Node>>, c: seq<Node>, a: Node)
    ensures ReportsOf(cycles + [c], a) == ReportsOf(cycles, a) + if |c| >= 2 && c[|c| - 2] == a then [c] else []
  {
    assert (cycles + [c])[..|cycles|] == cycles;
  }

  lemma ClosingsAppend(path: seq<Node>, next: seq<Node>, n: Node)
    ensures Closings(path, next + [n]) == Closings(path, next) + if n in path then [Loop(path, n)] else []
  {
    assert (next + [n])[..|next|] == next;
  }

  /** Between two trails: old nodes other than one keep their reports, new ones are told, the rest have none. */
  ghost predicate Tells(g: Graph, t: Trail, r: Trail, active: set<Node>) {
    && (forall a :: a in t.entered && a !in active ==> ReportsOf(r.cycles, a) == ReportsOf(t.cycles, a))
    && (forall a :: a in r.entered && a !in t.entered ==> Told(g, r.cycles, a))
    && (forall a :: a !in r.entered ==> ReportsOf(r.cycles, a) == [])
  }

  lemma TellsThen(g: Graph, t: Trail, m: Trail, r: Trail, active: set<Node>)
    requires t.entered <= m.entered <= r.entered && active <= t.entered && Tells(g, t, m, {}) && Tells(g, m, r, active)
    ensures Tells(g, t, r, active)
  {
    forall a | a in r.entered && a !in t.entered ensures Told(g, r.cycles, a) {
      if a in m.entered {
        var path :| IsPathTo(g, path, a) && ReportsOf(m.cycles, a) == Closings(path, g.Next(a));
        assert ReportsOf(r.cycles, a) == ReportsOf(m.cycles, a);
      }
    }
  }

  lemma LoopReported(path: seq<Node>, n: Node, cycles: seq<seq<Node>>)
    requires n in path
    ensures forall a :: ReportsOf(cycles + [Loop(path, n)], a) ==
                        ReportsOf(cycles, a) + if a == path[|path| - 1] then [Loop(path, n)] else []
  {
    LoopEnds(path, n);
    forall a ensures ReportsOf(cycles + [Loop(path, n)], a) ==
                     ReportsOf(cycles, a) + if a == path[|path| - 1] then [Loop(path, n)] else []
    {
      ReportsAppend(cycles, Loop(path, n), a);
    }
  }

  lemma TellsAfterLoop(g: Graph, path: seq<Node>, n: Node, t: Trail, r: Trail)
    requires n in path && Tells(g, t.(cycles := t.cycles + [Loop(path, n)]), r, {path[|path| - 1]})
    ensures Tells(g, t, r, {path[|path| - 1]})
  {
    LoopReported(path, n, t.cycles);
  }

  lemma {:induction false} VisitTells(g: Graph, path: seq<Node>, node: Node, t: Trail)
    requires node in g.Nodes() && node !in t.entered
    requires SearchPath(g, path, t) && (path == [] || node in g.Next(path[|path| - 1]))
    requires forall a :: a !in t.entered ==> ReportsOf(t.cycles, a) == []
    ensures Tells(g, t, Visit(g, path, node, t), {})
    decreases g.Nodes() - t.entered, 0, 0
  {
    var t' := t.(entered := t.entered + {node});
    ExploreTells(g, path + [node], 0, t');
    var r := Visit(g, path, node, t);
    assert IsPathTo(g, path + [node], node);
    assert Told(g, r.cycles, node);
  }

  lemma {:induction false} ExploreTells(g: Graph, path: seq<Node>, i: nat, t: Trail)
    requires |path| > 0 && i <= |g.Next(path[|path| - 1])|
    requires SearchPath(g, path, t)
    requires forall a :: a !in t.entered ==> ReportsOf(t.cycles, a) == []
    requires ReportsOf(t.cycles, path[|path| - 1]) == Closings(path, g.Next(path[|path| - 1])[..i])
    ensures var r := Explore(g, path, i, t);
            && Tells(g, t, r, {path[|path| - 1]})
            && ReportsOf(r.cycles, path[|path| - 1]) == Closings(path, g.Next(path[|path| - 1]))
    decreases g.Nodes() - t.entered, 1, |g.Next(path[|path| - 1])| - i
  {
    var node := path[|path| - 1];
    var next := g.Next(node);
    if i == |next| {
      assert next[..i] == next;
    } else {
      var n := next[i];
      NextInNodes(g, node, i);
      assert next[..i + 1] == next[..i] + [n];
      ClosingsAppend(path, next[..i], n);
      if n !in t.entered {
        var m := Visit(g, path, n, t);
        VisitTells(g, path, n, t);
        assert n !in path;
        assert n in g.Nodes() - t.entered && n !in g.Nodes() - m.entered;
        ExploreTells(g, path, i + 1, m);
        TellsThen(g, t, m, Explore(g, path, i + 1, m), {node});
      } else if n in path {
        var m := t.(cycles := t.cycles + [Loop(path, n)]);
        LoopReported(path, n, t.cycles);
        ExploreTells(g, path, i + 1, m);
        TellsAfterLoop(g, path, n, t, Explore(g, path, i + 1, m));
      } else {
        ExploreTells(g, path, i + 1, t);
      }
    }
  }

  lemma {:induction false} SweepTells(g: Graph, starts: seq<Node>)
    requires forall n :: n in starts ==> n in g.Nodes()
    ensures Tells(g, Trail({}, [], []), Sweep(g, starts, Trail({}, [], [])), {})
  {
    if |starts| > 0 {
      var init, n := starts[..|starts| - 1], starts[|starts| - 1];
      var before := Sweep(g, init, Trail({}, [], []));
      SweepTells(g, init);
      if n !in before.entered {
        VisitTells(g, [], n, before);
        TellsThen(g, Trail({}, [], []), before, Visit(g, [], n, before), {});
      }
    }
  }

  /** Exactly which loops are reported, how often and in which order, node by node. */
  lemma ReportsPerNode(g: Graph, a: Node)
    requires g.Valid()
    ensures a in g.order ==> Told(g, CyclesOf(g), a)
    ensures ReportsOf(CyclesOf(g), a) == [] || Told(g, CyclesOf(g), a)
  {
    SweepTells(g, g.order);
    SweepCloses(g, g.order);
    if a in g.order {
      assert a in Search(g).entered;
    }
  }
}

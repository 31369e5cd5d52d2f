/** review_impact: forward and reverse dependency maps, and the transitive impact of a document. */
module ReviewImpact {
  import opened DependencyGraph
  import opened CycleDetection
  import opened CycleTheorems
  import opened Wrappers
  import Text

  /** A canonical document that exists and declares an id. */
  datatype Doc = Doc(id: Node, file: string, deps: seq<Node>)

  /** The last document with the id: later assignments to a dictionary key win. */
  function LastWith(docs: seq<Doc>, id: Node): Option<Doc> {
    if |docs| == 0 then None
    else if docs[|docs| - 1].id == id then Some(docs[|docs| - 1])
    else LastWith(docs[..|docs| - 1], id)
  }

  /** id, once for every occurrence of dep in deps. */
  function Marks(deps: seq<Node>, dep: Node, id: Node): seq<Node> {
    if |deps| == 0 then []
    else Marks(deps[..|deps| - 1], dep, id) + (if deps[|deps| - 1] == dep then [id] else [])
  }

  /** The ids recorded as depending on dep, in processing order. */
  function Dependents(docs: seq<Doc>, dep: Node): seq<Node> {
    if |docs| == 0 then []
    else
      var d := docs[|docs| - 1];
      Dependents(docs[..|docs| - 1], dep) + Marks(d.deps, dep, d.id)
  }

  /** The ids in the order of their first documents: a dictionary key keeps its place when it is assigned again. */
  function Ids(docs: seq<Doc>): seq<Node> {
    if |docs| == 0 then []
    else
      var before, id := Ids(docs[..|docs| - 1]), docs[|docs| - 1].id;
      if id in before then before else before + [id]
  }

  ghost predicate IsForward(docs: seq<Doc>, g: Graph) {
    && g.Valid() && g.order == Ids(docs)
    && (forall id :: id in g.succ <==> LastWith(docs, id).Some?)
    && (forall id :: id in g.succ ==> g.succ[id] == LastWith(docs, id).value.deps)
  }

  ghost predicate IsReverse(docs: seq<Doc>, g: Graph) {
    g.Valid() && forall dep :: g.Next(dep) == Dependents(docs, dep)
  }

  ghost predicate IsFileMap(docs: seq<Doc>, files: map<Node, string>) {
    && (forall id :: id in files <==> LastWith(docs, id).Some?)
    && (forall id :: id in files ==> files[id] == LastWith(docs, id).value.file)
  }

  /** `d[key] = value` */
  method Assign(g: Graph, key: Node, value: seq<Node>) returns (r: Graph)
    requires g.Valid()
    ensures r.Valid() && r.succ == g.succ[key := value]
    ensures r.order == if key in g.order then g.order else g.order + [key]
  {
    r := Graph(if key in g.succ then g.order else g.order + [key], g.succ[key := value]);
  }

  /** `if key not in d: d[key] = []` and `d[key].append(value)` */
  method AppendTo(g: Graph, key: Node, value: Node) returns (r: Graph)
    requires g.Valid()
    ensures r.Valid()
    ensures forall n :: r.Next(n) == g.Next(n) + (if n == key then [value] else [])
  {
    r := Assign(g, key, g.Next(key) + [value]);
  }

  lemma MarksAppend(deps: seq<Node>, last: Node, dep: Node, id: Node)
    ensures Marks(deps + [last], dep, id) == Marks(deps, dep, id) + if last == dep then [id] else []
  {
    assert (deps + [last])[..|deps|] == deps;
  }

  method RecordDependent(reverse: Graph, doc: Doc) returns (r: Graph)
    requires reverse.Valid()
    ensures r.Valid()
    ensures forall dep :: r.Next(dep) == reverse.Next(dep) + Marks(doc.deps, dep, doc.id)
  {
    r := reverse;
    assert doc.deps[..0] == [];
    for j := 0 to |doc.deps|
      invariant r.Valid()
      invariant forall dep :: r.Next(dep) == reverse.Next(dep) + Marks(doc.deps[..j], dep, doc.id)
    {
      ghost var before := r;
      r := AppendTo(r, doc.deps[j], doc.id);
      forall dep ensures r.Next(dep) == reverse.Next(dep) + Marks(doc.deps[..j + 1], dep, doc.id) {
        MarksAppend(doc.deps[..j], doc.deps[j], dep, doc.id);
        assert doc.deps[..j + 1] == doc.deps[..j] + [doc.deps[j]];
        Text.ConcatAssociative(reverse.Next(dep), Marks(doc.deps[..j], dep, doc.id),
                               if doc.deps[j] == dep then [doc.id] else []);
        assert r.Next(dep) == before.Next(dep) + (if dep == doc.deps[j] then [doc.id] else []);
      }
    }
    assert doc.deps[..|doc.deps|] == doc.deps;
  }

  method BuildDependencies(docs: seq<Doc>) returns (forward: Graph, reverse: Graph, idToFile: map<Node, string>)
    ensures IsForward(docs, forward)
    ensures IsReverse(docs, reverse)
    ensures IsFileMap(docs, idToFile)
  {
    forward, reverse, idToFile := Graph([], map[]), Graph([], map[]), map[];
    assert docs[..0] == [];
    for k := 0 to |docs|
      invariant IsForward(docs[..k], forward)
      invariant IsReverse(docs[..k], reverse)
      invariant IsFileMap(docs[..k], idToFile)
    {
      var doc := docs[k];
      assert docs[..k + 1][..k] == docs[..k];
      idToFile := idToFile[doc.id := doc.file];
      forward := Assign(forward, doc.id, doc.deps);
      reverse := RecordDependent(reverse, doc);
    }
    assert docs[..|docs|] == docs;
  }

  // ----- the reverse map against the forward map -----

  lemma {:induction false} MarksMembers(deps: seq<Node>, dep: Node, id: Node)
    ensures forall x :: x in Marks(deps, dep, id) <==> x == id && dep in deps
  {
    if |deps| > 0 {
      MarksMembers(deps[..|deps| - 1], dep, id);
      assert deps == deps[..|deps| - 1] + [deps[|deps| - 1]];
    }
  }

  lemma {:induction false} DependentsMembers(docs: seq<Doc>, dep: Node)
    ensures forall id :: id in Dependents(docs, dep) <==>
                           exists i :: 0 <= i < |docs| && docs[i].id == id && dep in docs[i].deps
  {
    if |docs| > 0 {
      var init, last := docs[..|docs| - 1], docs[|docs| - 1];
      DependentsMembers(init, dep);
      MarksMembers(last.deps, dep, last.id);
      forall id ensures id in Dependents(docs, dep) <==>
                          exists i :: 0 <= i < |docs| && docs[i].id == id && dep in docs[i].deps
      {
        if id in Dependents(init, dep) {
          var i :| 0 <= i < |init| && init[i].id == id && dep in init[i].deps;
          assert docs[i].id == id && dep in docs[i].deps;
        }
        if i :| 0 <= i < |docs| && docs[i].id == id && dep in docs[i].deps {
          if i < |init| {
            assert init[i].id == id && dep in init[i].deps;
          }
        }
      }
    }
  }

  /** One mark for every occurrence. */
  lemma {:induction false} MarksCount(deps: seq<Node>, dep: Node, id: Node)
    ensures |Marks(deps, dep, id)| == multiset(deps)[dep]
    ensures forall i :: 0 <= i < |Marks(deps, dep, id)| ==> Marks(deps, dep, id)[i] == id
  {
    if |deps| > 0 {
      MarksCount(deps[..|deps| - 1], dep, id);
      assert deps == deps[..|deps| - 1] + [deps[|deps| - 1]];
    }
  }

  lemma {:induction false} IdsMembers(docs: seq<Doc>, id: Node)
    ensures id in Ids(docs) <==> exists i :: 0 <= i < |docs| && docs[i].id == id
  {
    if |docs| > 0 {
      var init := docs[..|docs| - 1];
      IdsMembers(init, id);
      if i :| 0 <= i < |init| && init[i].id == id {
        assert docs[i].id == id;
      }
      if i :| 0 <= i < |docs| && docs[i].id == id {
        assert i < |init| ==> init[i].id == id;
      }
    }
  }

  /** Some document has the first id, and no document up to there has the other. */
  ghost predicate DeclaredEarlier(docs: seq<Doc>, a: Node, b: Node) {
    exists p :: 0 <= p < |docs| && docs[p].id == a && forall q :: 0 <= q <= p ==> docs[q].id != b
  }

  /** The ids come in the order of their first documents. */
  lemma {:induction false} IdsInOrder(docs: seq<Doc>, i: nat, j: nat)
    requires i < j < |Ids(docs)|
    ensures DeclaredEarlier(docs, Ids(docs)[i], Ids(docs)[j])
  {
    var init, d := docs[..|docs| - 1], docs[|docs| - 1];
    var before := Ids(init);
    if j < |before| {
      IdsInOrder(init, i, j);
      var p :| 0 <= p < |init| && init[p].id == before[i] && forall q :: 0 <= q <= p ==> init[q].id != before[j];
      assert docs[p] == init[p] && forall q :: 0 <= q <= p ==> docs[q] == init[q];
    } else {
      IdsMembers(init, before[i]);
      var p :| 0 <= p < |init| && init[p].id == before[i];
      forall q | 0 <= q <= p ensures docs[q].id != d.id {
        IdsMembers(init, d.id);
        assert init[q] == docs[q];
      }
      assert docs[p] == init[p];
    }
  }

  lemma {:induction false} LastWithIsLast(docs: seq<Doc>, id: Node)
    ensures match LastWith(docs, id)
            case None => forall i :: 0 <= i < |docs| ==> docs[i].id != id
            case Some(d) => exists i :: 0 <= i < |docs| && docs[i] == d && d.id == id
                                        && forall j :: i < j < |docs| ==> docs[j].id != id
  {
    if |docs| > 0 && docs[|docs| - 1].id != id {
      var init := docs[..|docs| - 1];
      LastWithIsLast(init, id);
      match LastWith(init, id) {
        case None =>
          forall i | 0 <= i < |docs| ensures docs[i].id != id {
            assert i < |init| ==> init[i].id != id;
          }
        case Some(d) =>
          var i :| 0 <= i < |init| && init[i] == d && d.id == id && forall j :: i < j < |init| ==> init[j].id != id;
          assert docs[i] == d;
          forall j | i < j < |docs| ensures docs[j].id != id {
            assert j < |init| ==> init[j].id != id;
          }
      }
    }
  }

  ghost predicate Transposes(forward: Graph, reverse: Graph) {
    forall a, b :: b in reverse.Next(a) <==> a in forward.Next(b)
  }

  /** No dependency of an earlier document is lost when a later one takes its id. */
  ghost predicate NoLostDependency(docs: seq<Doc>) {
    forall i, dep :: 0 <= i < |docs| && dep in docs[i].deps ==>
                       forall j :: i < j < |docs| && docs[j].id == docs[i].id
                                   && (forall l :: j < l < |docs| ==> docs[l].id != docs[j].id)
                                   ==> dep in docs[j].deps
  }

  ghost predicate DistinctIds(docs: seq<Doc>) {
    forall i, j :: 0 <= i < j < |docs| ==> docs[i].id != docs[j].id
  }

  /** The reverse map is the transpose of the forward map exactly when overwriting an id loses no dependency. */
  lemma TransposeIffNothingLost(docs: seq<Doc>, forward: Graph, reverse: Graph)
    requires IsForward(docs, forward) && IsReverse(docs, reverse)
    ensures Transposes(forward, reverse) <==> NoLostDependency(docs)
  {
    if NoLostDependency(docs) {
      forall a, b ensures b in reverse.Next(a) <==> a in forward.Next(b) {
        DependentsMembers(docs, a);
        LastWithIsLast(docs, b);
        if b in reverse.Next(a) {
          var i :| 0 <= i < |docs| && docs[i].id == b && a in docs[i].deps;
          var d := LastWith(docs, b).value;
          var j :| 0 <= j < |docs| && docs[j] == d && d.id == b && forall l :: j < l < |docs| ==> docs[l].id != b;
          assert i <= j;
        }
      }
    }
    if Transposes(forward, reverse) {
      forall i, dep, j | 0 <= i < |docs| && dep in docs[i].deps && i < j < |docs| && docs[j].id == docs[i].id
                         && (forall l :: j < l < |docs| ==> docs[l].id != docs[j].id)
        ensures dep in docs[j].deps
      {
        var id := docs[i].id;
        DependentsMembers(docs, dep);
        assert id in reverse.Next(dep);
        LastWithIsLast(docs, id);
        var d := LastWith(docs, id).value;
        var k :| 0 <= k < |docs| && docs[k] == d && d.id == id && forall l :: k < l < |docs| ==> docs[l].id != id;
        assert docs[k].id == docs[j].id;
        assert k == j;
        assert dep in forward.Next(id);
      }
    }
  }

  lemma DistinctIdsTranspose(docs: seq<Doc>, forward: Graph, reverse: Graph)
    requires IsForward(docs, forward) && IsReverse(docs, reverse) && DistinctIds(docs)
    ensures Transposes(forward, reverse)
  {
    TransposeIffNothingLost(docs, forward, reverse);
  }

  // ----- transitive impact -----

  lemma WalkExtend(g: Graph, w: seq<Node>, n: Node)
    requires IsWalk(g, w) && n in g.Next(w[|w| - 1])
    ensures IsWalk(g, w + [n])
  {
    var v := w + [n];
    forall i | 0 <= i < |v| - 1 ensures v[i + 1] in g.Next(v[i]) {
      assert v[i] == w[i];
    }
  }

  lemma ReachStep(g: Graph, a: Node, b: Node, c: Node)
    requires a == b || Reaches(g, a, b)
    requires c in g.Next(b)
    ensures Reaches(g, a, c)
  {
    if Reaches(g, a, b) {
      var w :| IsWalk(g, w) && |w| >= 2 && w[0] == a && w[|w| - 1] == b;
      WalkExtend(g, w, c);
      assert (w + [c])[0] == a && (w + [c])[|w + [c]| - 1] == c;
    } else {
      var w := [a];
      WalkExtend(g, w, c);
      assert (w + [c])[0] == a && (w + [c])[|w + [c]| - 1] == c;
    }
  }

  /** A set that holds the successors of the start and of its own members holds the end of every walk. */
  lemma {:induction false} ClosedUnderWalk(g: Graph, s: set<Node>, w: seq<Node>)
    requires IsWalk(g, w) && |w| >= 2
    requires forall n :: n in s || n == w[0] ==> forall m :: m in g.Next(n) ==> m in s
    ensures w[|w| - 1] in s
    decreases |w|
  {
    var init := w[..|w| - 1];
    forall i | 0 <= i < |init| - 1 ensures init[i + 1] in g.Next(init[i]) {
      assert w[i + 1] in g.Next(w[i]);
    }
    if |init| >= 2 {
      ClosedUnderWalk(g, s, init);
    }
    assert w[|w| - 2 + 1] in g.Next(w[|w| - 2]);
  }

  method EnqueueDependents(dependents: seq<Node>, queue0: seq<Node>, impacted0: set<Node>)
    returns (queue: seq<Node>, impactedIds: set<Node>)
    ensures queue == queue0 + dependents
    ensures impactedIds == impacted0 + set n | n in dependents
  {
    queue, impactedIds := queue0, impacted0;
    for i := 0 to |dependents|
      invariant queue == queue0 + dependents[..i]
      invariant impactedIds == impacted0 + set n | n in dependents[..i]
    {
      assert dependents[..i + 1] == dependents[..i] + [dependents[i]];
      impactedIds := impactedIds + {dependents[i]};
      queue := queue + [dependents[i]];
    }
    assert dependents[..|dependents|] == dependents;
  }

  /** Everything found is impacted; everything found or started from is visited or still queued. */
  ghost predicate WorklistInvariant(g: Graph, start: Node, visited: set<Node>, queue: seq<Node>, impacted: set<Node>) {
    && (forall n :: n in queue ==> n == start || n in impacted)
    && visited <= impacted + {start}
    && (forall n :: n in impacted ==> Reaches(g, start, n))
    && (forall n :: n in impacted || n == start ==> n in visited || n in queue)
    && (forall n, m :: n in visited && m in g.Next(n) ==> m in impacted)
  }

  lemma WorklistStep(g: Graph, start: Node, visited: set<Node>, queue: seq<Node>, impacted: set<Node>, current: Node)
    requires |queue| > 0 && queue[0] == current && current !in visited
    requires WorklistInvariant(g, start, visited, queue, impacted)
    ensures WorklistInvariant(g, start, visited + {current}, queue[1..] + g.Next(current),
                              impacted + set n | n in g.Next(current))
  {
    assert queue == [current] + queue[1..];
    var found := set n | n in g.Next(current);
    forall n | n in impacted + found ensures Reaches(g, start, n) {
      if n in found {
        ReachStep(g, start, current, n);
      }
    }
  }

  /** The worklist of `main`: nodes may be queued repeatedly and are skipped once visited. */
  method TransitiveImpact(reverse: Graph, docId: Node) returns (impactedIds: set<Node>)
    ensures forall n :: n in impactedIds <==> Reaches(reverse, docId, n)
  {
    var visited: set<Node> := {};
    var queue := [docId];
    impactedIds := {};
    ghost var universe := reverse.Nodes() + {docId};
    while |queue| > 0
      invariant WorklistInvariant(reverse, docId, visited, queue, impactedIds)
      invariant forall n :: n in queue ==> n in universe
      decreases universe - visited, |queue|
    {
      var current := queue[0];
      assert queue == [current] + queue[1..];
      if current in visited {
        queue := queue[1..];
        continue;
      }
      WorklistStep(reverse, docId, visited, queue, impactedIds, current);
      forall n | n in reverse.Next(current) ensures n in universe {
        var i :| 0 <= i < |reverse.Next(current)| && reverse.Next(current)[i] == n;
        NextInNodes(reverse, current, i);
      }
      visited := visited + {current};
      queue, impactedIds := EnqueueDependents(reverse.Next(current), queue[1..], impactedIds);
    }
    forall n | Reaches(reverse, docId, n) ensures n in impactedIds {
      var w :| IsWalk(reverse, w) && |w| >= 2 && w[0] == docId && w[|w| - 1] == n;
      ClosedUnderWalk(reverse, impactedIds, w);
    }
  }

  // ----- impact and cycles -----

  /** Some document with the id declares the dependency. */
  ghost predicate Declares(docs: seq<Doc>, id: Node, dep: Node) {
    exists i :: 0 <= i < |docs| && docs[i].id == id && dep in docs[i].deps
  }

  /** The last document with the id declares it, so that the forward map has it. */
  ghost predicate Keeps(docs: seq<Doc>, id: Node, dep: Node) {
    match LastWith(docs, id)
    case None => false
    case Some(d) => dep in d.deps
  }

  /** A closed walk along the dependencies of all documents. */
  ghost predicate DependencyLoop(docs: seq<Doc>, w: seq<Node>) {
    |w| >= 2 && w[0] == w[|w| - 1] && forall i :: 0 <= i < |w| - 1 ==> Declares(docs, w[i], w[i + 1])
  }

  ghost predicate AllKept(docs: seq<Doc>, w: seq<Node>) {
    forall i :: 0 <= i < |w| - 1 ==> Keeps(docs, w[i], w[i + 1])
  }

  /** The dependencies run in a loop, but every loop uses one that a later document with the same id lacks. */
  ghost predicate LoopsOnlyByLost(docs: seq<Doc>) {
    (exists w :: DependencyLoop(docs, w)) && forall w :: DependencyLoop(docs, w) ==> !AllKept(docs, w)
  }

  ghost predicate ImpactsItself(docs: seq<Doc>, reverse: Graph) {
    exists i :: 0 <= i < |docs| && Reaches(reverse, docs[i].id, docs[i].id)
  }

  lemma KeepsDeclares(docs: seq<Doc>, id: Node, dep: Node)
    requires Keeps(docs, id, dep)
    ensures Declares(docs, id, dep)
  {
    LastWithIsLast(docs, id);
  }

  /** Read backwards, a walk is a walk of any graph that has its steps reversed. */
  lemma Reversed(g: Graph, w: seq<Node>) returns (v: seq<Node>)
    requires |w| > 0 && forall i :: 0 <= i < |w| - 1 ==> w[i] in g.Next(w[i + 1])
    ensures IsWalk(g, v) && |v| == |w| && v[0] == w[|w| - 1] && v[|v| - 1] == w[0]
    ensures forall i :: 0 <= i < |w| ==> v[i] == w[|w| - 1 - i]
  {
    v := seq(|w|, i requires 0 <= i < |w| => w[|w| - 1 - i]);
    forall i | 0 <= i < |v| - 1 ensures v[i + 1] in g.Next(v[i]) {
      assert w[|w| - 2 - i] in g.Next(w[|w| - 2 - i + 1]);
    }
  }

  ghost predicate Records(docs: seq<Doc>, reverse: Graph) {
    forall a, b :: b in reverse.Next(a) <==> Declares(docs, b, a)
  }

  lemma ReverseRecords(docs: seq<Doc>, reverse: Graph)
    requires IsReverse(docs, reverse)
    ensures Records(docs, reverse)
  {
    forall a, b ensures b in reverse.Next(a) <==> Declares(docs, b, a) {
      DependentsMembers(docs, a);
    }
  }

  lemma LoopImpacts(docs: seq<Doc>, reverse: Graph, w: seq<Node>)
    requires Records(docs, reverse) && DependencyLoop(docs, w)
    ensures ImpactsItself(docs, reverse)
  {
    forall i | 0 <= i < |w| - 1 ensures w[i] in reverse.Next(w[i + 1]) {
      assert Declares(docs, w[i], w[i + 1]);
    }
    var v := Reversed(reverse, w);
    assert Reaches(reverse, w[0], w[0]);
    LoopEnds(docs, w);
  }

  lemma ImpactLoops(docs: seq<Doc>, reverse: Graph, id: Node) returns (v: seq<Node>)
    requires Records(docs, reverse) && Reaches(reverse, id, id)
    ensures DependencyLoop(docs, v)
  {
    var w :| IsWalk(reverse, w) && |w| >= 2 && w[0] == id && w[|w| - 1] == id;
    v := seq(|w|, i requires 0 <= i < |w| => w[|w| - 1 - i]);
    forall j | 0 <= j < |v| - 1 ensures Declares(docs, v[j], v[j + 1]) {
      assert w[|w| - 2 - j + 1] in reverse.Next(w[|w| - 2 - j]);
    }
  }

  /** A document impacts itself exactly when the dependencies of all documents run in a loop. */
  lemma ImpactIffLoop(docs: seq<Doc>, reverse: Graph)
    requires IsReverse(docs, reverse)
    ensures ImpactsItself(docs, reverse) <==> exists w :: DependencyLoop(docs, w)
  {
    ReverseRecords(docs, reverse);
    if w :| DependencyLoop(docs, w) {
      LoopImpacts(docs, reverse, w);
    }
    if i :| 0 <= i < |docs| && Reaches(reverse, docs[i].id, docs[i].id) {
      var v := ImpactLoops(docs, reverse, docs[i].id);
    }
  }

  /** A cycle is reported exactly when the dependencies of the last documents run in a loop. */
  lemma ReportIffKeptLoop(docs: seq<Doc>, forward: Graph)
    requires IsForward(docs, forward)
    ensures CyclesOf(forward) != [] <==> exists w :: DependencyLoop(docs, w) && AllKept(docs, w)
  {
    NoReportIffAcyclic(forward);
    if w :| IsClosedWalk(forward, w) {
      forall i | 0 <= i < |w| - 1 ensures Keeps(docs, w[i], w[i + 1]) && Declares(docs, w[i], w[i + 1]) {
        assert w[i + 1] in forward.Next(w[i]);
        KeepsDeclares(docs, w[i], w[i + 1]);
      }
      assert DependencyLoop(docs, w) && AllKept(docs, w);
    }
    if w :| DependencyLoop(docs, w) && AllKept(docs, w) {
      forall i | 0 <= i < |w| - 1 ensures w[i + 1] in forward.Next(w[i]) {
        assert Keeps(docs, w[i], w[i + 1]);
      }
      assert IsClosedWalk(forward, w);
    }
  }

  /** Whatever ids the documents share, every id on a reported cycle is in its own impact set. */
  lemma ReportedCycleImpactsItself(docs: seq<Doc>, forward: Graph, reverse: Graph, cycle: seq<Node>, k: nat)
    requires IsForward(docs, forward) && IsReverse(docs, reverse)
    requires cycle in CyclesOf(forward) && k < |cycle|
    ensures Reaches(reverse, cycle[k], cycle[k]) && LastWith(docs, cycle[k]).Some?
  {
    ReportsAreSimpleCycles(forward);
    assert IsSimpleCycle(forward, cycle);
    forall j | 0 <= j < |cycle| - 1
      ensures cycle[j] in reverse.Next(cycle[j + 1]) && LastWith(docs, cycle[j]).Some?
    {
      assert cycle[j + 1] in forward.Next(cycle[j]);
      KeepsDeclares(docs, cycle[j], cycle[j + 1]);
      DependentsMembers(docs, cycle[j + 1]);
    }
    var at := if k == |cycle| - 1 then 0 else k;
    TurnsBack(reverse, cycle, at);
  }

  /** Around a closed list read backwards, from any of its positions. */
  lemma TurnsBack(g: Graph, cycle: seq<Node>, k: nat)
    requires k < |cycle| - 1 && cycle[0] == cycle[|cycle| - 1]
    requires forall j :: 0 <= j < |cycle| - 1 ==> cycle[j] in g.Next(cycle[j + 1])
    ensures Reaches(g, cycle[k], cycle[k])
  {
    var n := |cycle| - 1;
    var turned := seq(n + 1, i requires 0 <= i <= n => cycle[if k + i < n then k + i else k + i - n]);
    forall i | 0 <= i < n ensures turned[i] in g.Next(turned[i + 1]) {
      var j := if k + i < n then k + i else k + i - n;
      assert cycle[j] in g.Next(cycle[j + 1]);
      assert turned[i + 1] == cycle[j + 1];
    }
    var v := Reversed(g, turned);
  }

  /** No cycle reported and no document impacting itself are the same thing exactly when the documents do not run in
      loops by lost dependencies alone. */
  lemma NoCyclesIffNoSelfImpact(docs: seq<Doc>, forward: Graph, reverse: Graph)
    requires IsForward(docs, forward) && IsReverse(docs, reverse)
    ensures (CyclesOf(forward) == [] <==> !ImpactsItself(docs, reverse)) <==> !LoopsOnlyByLost(docs)
    ensures CyclesOf(forward) != [] ==> ImpactsItself(docs, reverse)
  {
    ImpactIffLoop(docs, reverse);
    ReportIffKeptLoop(docs, forward);
  }

  /** The same cycle search decides it, once on the forward map and once with the dependencies of all documents. */
  lemma DecidedByTwoSearches(docs: seq<Doc>, forward: Graph, merged: Graph)
    requires IsForward(docs, forward)
    requires merged.Valid() && forall id, dep :: dep in merged.Next(id) <==> Declares(docs, id, dep)
    ensures LoopsOnlyByLost(docs) <==> CyclesOf(merged) != [] && CyclesOf(forward) == []
  {
    NoReportIffAcyclic(merged);
    ReportIffKeptLoop(docs, forward);
    forall w ensures IsClosedWalk(merged, w) <==> DependencyLoop(docs, w) {
      forall i | 0 <= i < |w| - 1 ensures w[i + 1] in merged.Next(w[i]) <==> Declares(docs, w[i], w[i + 1]) { }
    }
  }

  lemma DeclaredIsKept(docs: seq<Doc>, id: Node, dep: Node)
    requires NoLostDependency(docs) && Declares(docs, id, dep)
    ensures Keeps(docs, id, dep)
  {
    var k :| 0 <= k < |docs| && docs[k].id == id && dep in docs[k].deps;
    LastWithIsLast(docs, id);
    var d := LastWith(docs, id).value;
    var j :| 0 <= j < |docs| && docs[j] == d && d.id == id && forall l :: j < l < |docs| ==> docs[l].id != id;
    assert k <= j;
  }

  /** When overwriting an id loses no dependency, there is no such loop. */
  lemma NothingLostNoHiddenLoop(docs: seq<Doc>)
    requires NoLostDependency(docs)
    ensures !LoopsOnlyByLost(docs)
  {
    forall w | DependencyLoop(docs, w) ensures AllKept(docs, w) {
      forall i | 0 <= i < |w| - 1 ensures Keeps(docs, w[i], w[i + 1]) {
        DeclaredIsKept(docs, w[i], w[i + 1]);
      }
    }
  }

  /** A document that shares its id with a later one can impact itself although no cycle is reported. */
  lemma SharedIdHidesCycle()
    ensures var docs := [Doc("a", "one.md", ["a"]), Doc("a", "two.md", [])];
            LoopsOnlyByLost(docs) &&
            forall forward, reverse :: IsForward(docs, forward) && IsReverse(docs, reverse) ==>
              CyclesOf(forward) == [] && Reaches(reverse, "a", "a")
  {
    var docs := [Doc("a", "one.md", ["a"]), Doc("a", "two.md", [])];
    assert docs[0].id == "a" && "a" in docs[0].deps;
    assert DependencyLoop(docs, ["a", "a"]);
    forall w | DependencyLoop(docs, w) ensures !AllKept(docs, w) {
      LastWithIsLast(docs, w[0]);
      assert !Keeps(docs, w[0], w[0 + 1]);
    }
    forall forward, reverse | IsForward(docs, forward) && IsReverse(docs, reverse)
      ensures CyclesOf(forward) == [] && Reaches(reverse, "a", "a")
    {
      ReportIffKeptLoop(docs, forward);
      DependentsMembers(docs, "a");
      assert "a" in reverse.Next("a");
      ReachStep(reverse, "a", "a", "a");
    }
  }

  /** Losing a dependency that is on no loop does no harm. */
  lemma HarmlessLoss()
    ensures var docs := [Doc("a", "one.md", ["x"]), Doc("a", "two.md", [])];
            !NoLostDependency(docs) && !LoopsOnlyByLost(docs)
  {
    var docs := [Doc("a", "one.md", ["x"]), Doc("a", "two.md", [])];
    assert "x" in docs[0].deps && docs[1].id == docs[0].id && "x" !in docs[1].deps;
    forall w ensures !DependencyLoop(docs, w) {
      if DependencyLoop(docs, w) {
        LoopEnds(docs, w);
      }
    }
  }

  lemma LoopEnds(docs: seq<Doc>, w: seq<Node>)
    requires DependencyLoop(docs, w)
    ensures Declares(docs, w[0], w[1]) && Declares(docs, w[|w| - 2], w[|w| - 1])
  {
    assert Declares(docs, w[0], w[0 + 1]) && Declares(docs, w[|w| - 2], w[|w| - 2 + 1]);
  }
}

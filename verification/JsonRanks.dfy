/** json_contract: validation terminates where no chain of `$ref` and `allOf` returns to its start. */
module JsonRanks {
  import opened JsonSchema
  import opened JsonContract
  import opened JsonTheorems

  /** The schemas that a supported node hands its own instance to. */
  function SameNext(c: Context, s: Json): set<Json> {
    if !Supported(c, s) then {}
    else
      (if Get(s, "$ref").Str? && Pointer(c.root, Get(s, "$ref").s).Some?
       then {Pointer(c.root, Get(s, "$ref").s).value} else {}) +
      (set t | t in Items(Get(s, "allOf")))
  }

  /** A list of schemas in which each hands its instance to the next. */
  ghost predicate Chain(c: Context, w: seq<Json>) {
    |w| >= 1 && forall i :: 0 <= i < |w| - 1 ==> Hands(c, w[i], w[i + 1])
  }

  ghost predicate Hands(c: Context, s: Json, t: Json) {
    t in SameNext(c, s)
  }

  /** A chain that returns to its start. */
  ghost predicate SameLoop(c: Context, w: seq<Json>) {
    Chain(c, w) && |w| >= 2 && w[0] == w[|w| - 1]
  }

  ghost predicate Loopless(c: Context, nodes: set<Json>) {
    forall w :: SameLoop(c, w) ==> w[0] !in nodes
  }

  /** Every schema that a supported node of the set applies is in the set. */
  ghost predicate Complete(c: Context, nodes: set<Json>) {
    forall s :: s in nodes ==>
      && SameNext(c, s) <= nodes
      && (Supported(c, s) && Get(s, "properties").Obj? ==>
            forall k :: k in Get(s, "properties").fields ==> Get(s, "properties").fields[k] in nodes)
      && (Supported(c, s) && Get(s, "items").Obj? ==> Get(s, "items") in nodes)
      && (Supported(c, s) ==> forall t :: t in Items(Get(s, "items")) ==> t in nodes)
  }

  // ----- a node without successors in a set -----

  /** A chain inside the set without repetition. */
  ghost predicate Inner(c: Context, rest: set<Json>, w: seq<Json>) {
    && Chain(c, w)
    && (forall i, j :: 0 <= i < j < |w| ==> w[i] != w[j])
    && (forall x :: x in w ==> x in rest)
  }

  lemma LoopIn(c: Context, w: seq<Json>, k: nat)
    requires Chain(c, w) && k < |w| && Hands(c, w[|w| - 1], w[k])
    ensures SameLoop(c, w[k..] + [w[k]]) && (w[k..] + [w[k]])[0] == w[k]
  {
    var loop := w[k..] + [w[k]];
    forall i | 0 <= i < |loop| - 1 ensures Hands(c, loop[i], loop[i + 1]) {
      assert Hands(c, w[k + i], if i + 1 < |loop| - 1 then w[k + i + 1] else w[k]);
    }
  }

  lemma LinkedLonger<T>(linked: (T, T) -> bool, w: seq<T>, n: T)
    requires |w| >= 1 && (forall i :: 0 <= i < |w| - 1 ==> linked(w[i], w[i + 1])) && linked(w[|w| - 1], n)
    ensures forall i :: 0 <= i < |w| ==> linked((w + [n])[i], (w + [n])[i + 1])
  { }

  lemma ChainLonger(c: Context, w: seq<Json>, n: Json)
    requires Chain(c, w) && Hands(c, w[|w| - 1], n)
    ensures Chain(c, w + [n])
  {
    LinkedLonger((s, t) => Hands(c, s, t), w, n);
  }

  lemma FewerLeft(rest: set<Json>, w: seq<Json>, n: Json)
    requires n in rest && n !in w
    ensures rest - (set x | x in w + [n]) < rest - (set x | x in w)
  {
    var left, fewer := rest - (set x | x in w), rest - (set x | x in w + [n]);
    assert n in left && n !in fewer;
    forall x | x in fewer ensures x in left {
      assert x in w ==> x in w + [n];
    }
  }

  lemma Longer(c: Context, rest: set<Json>, w: seq<Json>, n: Json)
    requires Inner(c, rest, w) && Hands(c, w[|w| - 1], n) && n in rest && n !in w
    ensures Inner(c, rest, w + [n])
  {
    ChainLonger(c, w, n);
  }

  /** Following successors inside a finite loopless set ends at a node without any. */
  lemma {:induction false} ChainEnds(c: Context, rest: set<Json>, w: seq<Json>) returns (m: Json)
    requires Inner(c, rest, w) && Loopless(c, rest)
    ensures m in rest && forall n :: n in rest ==> !Hands(c, m, n)
    decreases rest - set x | x in w
  {
    m := w[|w| - 1];
    if n :| n in rest && Hands(c, m, n) {
      if n in w {
        var k :| 0 <= k < |w| && w[k] == n;
        LoopIn(c, w, k);
      } else {
        Longer(c, rest, w, n);
        FewerLeft(rest, w, n);
        m := ChainEnds(c, rest, w + [n]);
      }
    }
  }

  // ----- the rank table -----

  /** Ranks below n that fall along every chain. */
  ghost predicate Ranked(c: Context, rank: map<Json, nat>, n: nat) {
    forall s :: s in rank ==>
      rank[s] < n && forall t :: t in SameNext(c, s) ==> t in rank && rank[t] < rank[s]
  }

  lemma {:induction false} RankRest(c: Context, rest: set<Json>, done: map<Json, nat>,
                                    n: nat) returns (rank: map<Json, nat>)
    requires Loopless(c, rest) && Ranked(c, done, n) && rest !! done.Keys
    requires forall s :: s in rest ==> SameNext(c, s) <= rest + done.Keys
    ensures rank.Keys == rest + done.Keys && exists m :: Ranked(c, rank, m)
    decreases rest
  {
    if rest == {} {
      rank := done;
    } else {
      var s :| s in rest;
      var m := ChainEnds(c, rest, [s]);
      var more := done[m := n];
      assert forall t :: t in SameNext(c, m) ==> Hands(c, m, t);
      assert Ranked(c, more, n + 1);
      rank := RankRest(c, rest - {m}, more, n + 1);
    }
  }

  lemma RankedCovers(c: Context, nodes: set<Json>, rank: map<Json, nat>, n: nat)
    requires rank.Keys == nodes && Ranked(c, rank, n) && Complete(c, nodes)
    ensures Covered(c, rank)
  {
    forall s | s in rank ensures NodeCovered(c, rank, s) {
      assert s in nodes && SameNext(c, s) <= nodes;
      assert forall t :: t in SameNext(c, s) ==> rank[t] < rank[s];
    }
  }

  /** Along a chain the rank falls. */
  lemma {:induction false} RankFalls(c: Context, rank: map<Json, nat>, w: seq<Json>, k: nat)
    requires Covered(c, rank) && 1 <= k < |w| && w[0] in rank
    requires Chain(c, w)
    ensures w[k] in rank && rank[w[k]] < rank[w[0]]
  {
    if k > 1 {
      RankFalls(c, rank, w, k - 1);
    }
    assert NodeCovered(c, rank, w[k - 1]);
    assert Hands(c, w[k - 1], w[k - 1 + 1]);
  }

  /** A rank table for a complete set of schemas exists exactly when no chain in it returns to its start. */
  lemma RankIffLoopless(c: Context, nodes: set<Json>)
    requires Complete(c, nodes)
    ensures (exists rank: map<Json, nat> :: rank.Keys == nodes && Covered(c, rank)) <==> Loopless(c, nodes)
  {
    if Loopless(c, nodes) {
      var rank := RankRest(c, nodes, map[], 0);
      var n :| Ranked(c, rank, n);
      RankedCovers(c, nodes, rank, n);
    }
    if rank: map<Json, nat> :| rank.Keys == nodes && Covered(c, rank) {
      forall w | SameLoop(c, w) ensures w[0] !in nodes {
        if w[0] in nodes {
          RankFalls(c, rank, w, |w| - 1);
        }
      }
    }
  }

  // ----- the tree of a root -----

  /** The schema nodes of the tree under s, with s. */
  ghost function Nodes(s: Json): set<Json>
    decreases s
  {
    {s} + set u, t | u in Inside(s) && u < s && t in Nodes(u) :: t
  }

  lemma {:induction false} NodesAre(s: Json, t: Json)
    ensures t in Nodes(s) <==> IsNode(s, t)
    decreases s
  {
    forall u | u in Inside(s) && u < s ensures t in Nodes(u) <==> IsNode(u, t) {
      NodesAre(u, t);
    }
  }

  lemma TreeComplete(c: Context)
    requires Supported(c, c.root) && Closed(c.root)
    ensures Complete(c, Nodes(c.root))
  {
    var nodes := Nodes(c.root);
    forall s | s in nodes ensures Inside(s) <= nodes && SameNext(c, s) <= nodes {
      NodesAre(c.root, s);
      forall t | t in Inside(s) ensures t in nodes {
        NodesTransitive(c.root, s, t);
        NodesAre(c.root, t);
      }
      if Get(s, "$ref").Str? {
        NodesAre(c.root, Pointer(c.root, Get(s, "$ref").s).value);
      }
    }
    InsideComplete(c, nodes);
  }

  lemma InsideComplete(c: Context, nodes: set<Json>)
    requires forall s :: s in nodes ==> Inside(s) <= nodes && SameNext(c, s) <= nodes
    ensures Complete(c, nodes)
  {
    forall s | s in nodes
      ensures Get(s, "properties").Obj? ==>
                forall k :: k in Get(s, "properties").fields ==> Get(s, "properties").fields[k] in nodes
      ensures Get(s, "items").Obj? ==> Get(s, "items") in nodes
      ensures forall t :: t in Items(Get(s, "items")) ==> t in nodes
    {
      assert Inside(s) <= nodes;
    }
  }

  /** Under a supported root whose references stay inside its tree, whose chains do not return to their start, there is
      a rank table, and validation against any schema of the tree never raises. */
  lemma LooplessRootNeverRaises(c: Context, v: Json)
    requires Supported(c, c.root) && Closed(c.root) && Loopless(c, Nodes(c.root))
    ensures exists rank: map<Json, nat> ::
              && rank.Keys == Nodes(c.root) && Covered(c, rank)
              && forall s :: s in rank ==> !Raises(c, rank, s, v)
  {
    TreeComplete(c);
    RankIffLoopless(c, Nodes(c.root));
    var rank: map<Json, nat> :| rank.Keys == Nodes(c.root) && Covered(c, rank);
    forall s | s in rank ensures !Raises(c, rank, s, v) {
      NodesAre(c.root, s);
      SupportedRootNeverRaises(c, rank, s, v);
    }
  }
}

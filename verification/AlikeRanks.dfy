/** json_contract: reordering `allOf` lists keeps termination. */
module AlikeRanks {
  import opened Wrappers
  import Text
  import opened JsonSchema
  import opened JsonContract
  import opened JsonTheorems
  import opened JsonRanks
  import opened AllOfOrder

  // ----- the values inside a value -----

  ghost function Parts(j: Json): set<Json>
    decreases j
  {
    {j} + match j
          case Obj(fields) => set k, t | k in fields && t in Parts(fields[k]) :: t
          case Arr(items) => set i, t | 0 <= i < |items| && t in Parts(items[i]) :: t
          case _ => {}
  }

  /** The value itself, or directly in it. */
  predicate ValueIn(x: Json, u: Json) {
    u == x || (x.Arr? && u in x.items) || (x.Obj? && u in x.fields.Values)
  }

  lemma ValueInParts(x: Json, u: Json)
    requires ValueIn(x, u)
    ensures u in Parts(x)
  {
    if u != x && x.Arr? {
      var i :| 0 <= i < |x.items| && x.items[i] == u;
      assert u in Parts(x.items[i]);
    } else if u != x {
      var k :| k in x.fields && x.fields[k] == u;
      assert u in Parts(x.fields[k]);
    }
  }

  /** Every schema directly inside a node is the value of a key, or in the value of one. */
  lemma InsideFields(j: Json, u: Json) returns (k: string)
    requires u in Inside(j)
    ensures j.Obj? && k in j.fields && ValueIn(j.fields[k], u)
  {
    if Get(j, "properties").Obj? && u in Get(j, "properties").fields.Values {
      k := "properties";
    } else if Get(j, "definitions").Obj? && u in Get(j, "definitions").fields.Values {
      k := "definitions";
    } else if u in Items(Get(j, "allOf")) {
      k := "allOf";
    } else {
      k := "items";
    }
  }

  lemma PartsInside(j: Json, u: Json)
    requires u in Inside(j)
    ensures u in Parts(j)
  {
    var k := InsideFields(j, u);
    ValueInParts(j.fields[k], u);
  }

  lemma {:induction false} PartsTransitive(j: Json, t: Json, u: Json)
    requires t in Parts(j) && u in Parts(t)
    ensures u in Parts(j)
    decreases j
  {
    if t != j {
      match j {
        case Obj(fields) =>
          var k :| k in fields && t in Parts(fields[k]);
          PartsTransitive(fields[k], t, u);
        case Arr(items) =>
          var i :| 0 <= i < |items| && t in Parts(items[i]);
          PartsTransitive(items[i], t, u);
        case _ =>
      }
    }
  }

  lemma {:induction false} WalkInParts(j: Json, tokens: seq<string>)
    requires Walk(j, tokens).Some?
    ensures Walk(j, tokens).value in Parts(j)
    decreases |tokens|
  {
    if |tokens| > 0 {
      WalkInParts(j.fields[tokens[0]], tokens[1..]);
    }
  }

  lemma PointerInParts(root: Json, ref: string)
    requires Pointer(root, ref).Some?
    ensures Pointer(root, ref).value in Parts(root)
  {
    var tokens := Text.Split(ref[2..], '/');
    WalkInParts(root, seq(|tokens|, i requires 0 <= i < |tokens| => DecodeToken(tokens[i])));
  }

  // ----- a rank table for reordered schemas -----

  ghost predicate Matches(rank: map<Json, nat>, t: Json, t': Json) {
    t in rank && Alike(t, t')
  }

  ghost predicate Lowest(rank: map<Json, nat>, t: Json, t': Json) {
    Matches(rank, t, t') && forall u :: Matches(rank, u, t') ==> rank[t] <= rank[u]
  }

  lemma {:induction false} LowestExists(rank: map<Json, nat>, t: Json, t': Json)
    requires Matches(rank, t, t')
    ensures exists m :: Lowest(rank, m, t')
    decreases rank[t]
  {
    if u :| Matches(rank, u, t') && rank[u] < rank[t] {
      LowestExists(rank, u, t');
    } else {
      assert Lowest(rank, t, t');
    }
  }

  /** The ranked schema of smallest rank that this one reorders. */
  ghost function Model(rank: map<Json, nat>, t': Json): (m: Json)
    requires exists t :: Matches(rank, t, t')
    ensures Lowest(rank, m, t')
  {
    var t :| Matches(rank, t, t');
    LowestExists(rank, t, t');
    var m :| Lowest(rank, m, t');
    m
  }

  /** What stands in the reordered schema or root and reorders a ranked schema. */
  ghost function Reordered(rank: map<Json, nat>, root': Json, s': Json): set<Json> {
    set t' | t' in Parts(root') + Parts(s') && exists t :: Matches(rank, t, t')
  }

  ghost function RankOf(rank: map<Json, nat>, root': Json, s': Json): map<Json, nat> {
    map t' | t' in Reordered(rank, root', s') :: rank[Model(rank, t')]
  }

  lemma RankedBelow(rank: map<Json, nat>, root': Json, s': Json, u: Json, u': Json)
    requires Matches(rank, u, u') && u' in Parts(root') + Parts(s')
    ensures u' in RankOf(rank, root', s') && RankOf(rank, root', s')[u'] <= rank[u]
  { }

  lemma InsideStays(root': Json, s': Json, t': Json, u': Json)
    requires t' in Parts(root') + Parts(s') && u' in Inside(t')
    ensures u' in Parts(root') + Parts(s')
  {
    PartsInside(t', u');
    if t' in Parts(root') {
      PartsTransitive(root', t', u');
    } else {
      PartsTransitive(s', t', u');
    }
  }

  /** The reordered contexts and the schemas in question. */
  ghost predicate Setting(c: Context, rank: map<Json, nat>, c': Context, t: Json, t': Json) {
    && c' == c.(root := c'.root) && Alike(c.root, c'.root) && Covered(c, rank)
    && Matches(rank, t, t') && Supported(c, t) && Supported(c', t')
  }

  lemma RefRanked(c: Context, rank: map<Json, nat>, c': Context, s': Json, t: Json, t': Json)
    requires Setting(c, rank, c', t, t') && Get(t', "$ref").Str? && Pointer(c'.root, Get(t', "$ref").s).Some?
    ensures var u' := Pointer(c'.root, Get(t', "$ref").s).value;
            u' in RankOf(rank, c'.root, s') && RankOf(rank, c'.root, s')[u'] < rank[t]
  {
    GetAlike(t, t', "$ref");
    PointerAlike(c.root, c'.root, Get(t, "$ref").s);
    PointerInParts(c'.root, Get(t, "$ref").s);
    assert NodeCovered(c, rank, t);
    RankedBelow(rank, c'.root, s', Pointer(c.root, Get(t, "$ref").s).value, Pointer(c'.root, Get(t, "$ref").s).value);
  }

  lemma ChildRanked(c: Context, rank: map<Json, nat>, c': Context, s': Json, t: Json, t': Json, u': Json)
    requires Setting(c, rank, c', t, t') && t' in Parts(c'.root) + Parts(s') && u' in Items(Get(t', "allOf"))
    ensures u' in RankOf(rank, c'.root, s') && RankOf(rank, c'.root, s')[u'] < rank[t]
  {
    AlikeSymmetric(t, t');
    var u := ChildPaired(t', t, u');
    AlikeSymmetric(u', u);
    assert NodeCovered(c, rank, t);
    InsideStays(c'.root, s', t', u');
    RankedBelow(rank, c'.root, s', u, u');
  }

  lemma PropertyRanked(c: Context, rank: map<Json, nat>, c': Context, s': Json, t: Json, t': Json, k: string)
    requires Setting(c, rank, c', t, t') && t' in Parts(c'.root) + Parts(s') && IsProperty(t', k)
    ensures Get(t', "properties").fields[k] in RankOf(rank, c'.root, s')
  {
    AlikeSameKeywords(t, t');
    assert IsProperty(t, k);
    FieldAlike(c, t, t', "properties", k);
    assert NodeCovered(c, rank, t);
    var u' := Get(t', "properties").fields[k];
    assert u' in Inside(t');
    InsideStays(c'.root, s', t', u');
    RankedBelow(rank, c'.root, s', Get(t, "properties").fields[k], u');
  }

  lemma ItemsRanked(c: Context, rank: map<Json, nat>, c': Context, s': Json, t: Json, t': Json)
    requires Setting(c, rank, c', t, t') && t' in Parts(c'.root) + Parts(s')
    ensures Get(t', "items").Obj? ==> Get(t', "items") in RankOf(rank, c'.root, s')
    ensures forall u' :: u' in Items(Get(t', "items")) ==> u' in RankOf(rank, c'.root, s')
  {
    ListAlike(t, t', "items");
    assert NodeCovered(c, rank, t);
    if Get(t', "items").Obj? {
      InsideStays(c'.root, s', t', Get(t', "items"));
      RankedBelow(rank, c'.root, s', Get(t, "items"), Get(t', "items"));
    }
    forall u' | u' in Items(Get(t', "items")) ensures u' in RankOf(rank, c'.root, s') {
      var i :| 0 <= i < |Items(Get(t', "items"))| && Items(Get(t', "items"))[i] == u';
      assert Items(Get(t, "items"))[i] in Items(Get(t, "items"));
      InsideStays(c'.root, s', t', u');
      RankedBelow(rank, c'.root, s', Items(Get(t, "items"))[i], u');
    }
  }

  lemma ReorderedNode(c: Context, rank: map<Json, nat>, c': Context, s': Json, t': Json)
    requires c' == c.(root := c'.root) && Alike(c.root, c'.root) && Covered(c, rank)
    requires t' in RankOf(rank, c'.root, s')
    ensures NodeCovered(c', RankOf(rank, c'.root, s'), t')
  {
    var t := Model(rank, t');
    SupportedIff(c, c', t, t');
    if Supported(c', t') {
      if Get(t', "$ref").Str? && Pointer(c'.root, Get(t', "$ref").s).Some? {
        RefRanked(c, rank, c', s', t, t');
      }
      forall u' | u' in Items(Get(t', "allOf"))
        ensures u' in RankOf(rank, c'.root, s') && RankOf(rank, c'.root, s')[u'] < rank[t]
      {
        ChildRanked(c, rank, c', s', t, t', u');
      }
      forall k | IsProperty(t', k) ensures Get(t', "properties").fields[k] in RankOf(rank, c'.root, s') {
        PropertyRanked(c, rank, c', s', t, t', k);
      }
      ItemsRanked(c, rank, c', s', t, t');
    }
  }

  /** Where a schema has a rank table, so has every reordering of it under every reordering of the root. */
  lemma ReorderedRanks(c: Context, rank: map<Json, nat>, c': Context, s: Json, s': Json) returns (rank': map<Json, nat>)
    requires c' == c.(root := c'.root) && Alike(c.root, c'.root) && Covered(c, rank) && s in rank && Alike(s, s')
    ensures Covered(c', rank') && s' in rank'
  {
    rank' := RankOf(rank, c'.root, s');
    forall t' | t' in rank' ensures NodeCovered(c', rank', t') {
      ReorderedNode(c, rank, c', s', t');
    }
    RankedBelow(rank, c'.root, s', s, s');
  }

  /** No chain that returns to its start begins at a reordering of a node, if none begins at the nodes. */
  lemma LooplessReordered(c: Context, c': Context, nodes: set<Json>, nodes': set<Json>)
    requires c' == c.(root := c'.root) && Alike(c.root, c'.root) && Complete(c, nodes) && Loopless(c, nodes)
    requires forall t' :: t' in nodes' ==> exists t :: t in nodes && Alike(t, t')
    ensures Loopless(c', nodes')
  {
    RankIffLoopless(c, nodes);
    var rank: map<Json, nat> :| rank.Keys == nodes && Covered(c, rank);
    forall w | SameLoop(c', w) ensures w[0] !in nodes' {
      if w[0] in nodes' {
        var t :| t in nodes && Alike(t, w[0]);
        var rank' := ReorderedRanks(c, rank, c', t, w[0]);
        RankFalls(c', rank', w, |w| - 1);
      }
    }
  }

  // ----- calls from outside -----

  /** A call whose schema is also the root, with `allOf` lists reordered anywhere in it: it terminates too, and has the
      same outcome. */
  lemma ReorderedRoot(c: Context, rank: map<Json, nat>, root': Json, w: Wording, v: Json, path: string)
    requires Alike(c.root, root') && Covered(c, rank) && c.root in rank
    ensures exists rank' :: Covered(c.(root := root'), rank') && root' in rank'
    ensures forall rank' :: Covered(c.(root := root'), rank') && root' in rank' ==>
              && (Raises(c.(root := root'), rank', root', v) <==> Raises(c, rank, c.root, v))
              && Violations(c.(root := root'), rank', w, root', v, path) == Violations(c, rank, w, c.root, v, path)
  {
    var c' := c.(root := root');
    var table := ReorderedRanks(c, rank, c', c.root, root');
    forall rank' | Covered(c', rank') && root' in rank'
      ensures Raises(c', rank', root', v) <==> Raises(c, rank, c.root, v)
      ensures Violations(c', rank', w, root', v, path) == Violations(c, rank, w, c.root, v, path)
    {
      AllOfOrderIrrelevant(c, rank, c', rank', w, c.root, root', v, path);
    }
  }

  /** Where a supported, closed and loopless root makes no call raise, neither does a reordering of it. */
  lemma ReorderedNeverRaises(c: Context, root': Json, v: Json)
    requires Supported(c, c.root) && Closed(c.root) && Loopless(c, Nodes(c.root)) && Alike(c.root, root')
    ensures exists rank' ::
              && Covered(c.(root := root'), rank') && root' in rank'
              && !Raises(c.(root := root'), rank', root', v)
  {
    LooplessRootNeverRaises(c, v);
    var rank: map<Json, nat> :|
      rank.Keys == Nodes(c.root) && Covered(c, rank) && forall s :: s in rank ==> !Raises(c, rank, s, v);
    NodesAre(c.root, c.root);
    assert c.root in rank;
    ReorderedRoot(c, rank, root', _ => "", v, "");
  }

  // ----- what reordering need not keep -----

  lemma LeafNode(s: Json, t: Json)
    requires Inside(s) == {}
    ensures IsNode(s, t) <==> t == s
  { }

  /** A reference to an annotation's value that also stands among the schemas of the tree; it no longer does when the
      list in the annotation alone is reordered. Validation is the same all the same. */
  lemma ClosedNeedNotStay(x: Json, y: Json, a: Json, a': Json, root: Json, root': Json)
    requires x == Obj(map[]) && y == Obj(map["title" := Null])
    requires a == Obj(map["allOf" := Arr([x, y])]) && a' == Obj(map["allOf" := Arr([y, x])])
    requires root == Obj(map["$id" := a, "items" := a, "$ref" := Str("#/$id")])
    requires root' == Obj(map["$id" := a', "items" := a, "$ref" := Str("#/$id")])
    ensures Alike(root, root') && Closed(root) && !Closed(root')
  {
    Differ(x, y, a, a', root, root');
    IsClosed(x, y, a, root);
    RefersToId(root');
    TreeOf(x, y, a, root', a');
    assert IsNode(root', root') && Get(root', "$ref") == Str("#/$id");
  }

  lemma IsClosed(x: Json, y: Json, a: Json, root: Json)
    requires x == Obj(map[]) && y == Obj(map["title" := Null]) && a == Obj(map["allOf" := Arr([x, y])])
    requires root == Obj(map["$id" := a, "items" := a, "$ref" := Str("#/$id")])
    ensures Closed(root)
  {
    RefersToId(root);
    TreeOf(x, y, a, root, a);
    forall t | IsNode(root, t) ensures NodeClosed(root, t) {
      TreeOf(x, y, a, root, t);
      if t != root {
        assert !Has(t, "$ref");
      }
    }
  }

  lemma Differ(x: Json, y: Json, a: Json, a': Json, root: Json, root': Json)
    requires x == Obj(map[]) && y == Obj(map["title" := Null])
    requires a == Obj(map["allOf" := Arr([x, y])]) && a' == Obj(map["allOf" := Arr([y, x])])
    requires root == Obj(map["$id" := a, "items" := a, "$ref" := Str("#/$id")])
    requires root' == Obj(map["$id" := a', "items" := a, "$ref" := Str("#/$id")])
    ensures Alike(root, root') && a' !in {root', a, x, y}
  {
    assert "title" in y.fields && "title" !in x.fields;
    assert Get(a, "allOf").items[0] == x && Get(a', "allOf").items[0] == y && x != y;
    assert a' == WithAllOf(a, [y, x]);
    ReorderedAlike(a, [y, x]);
    AlikeReflexive(a);
    AlikeReflexive(Str("#/$id"));
    forall k | k in root.fields ensures AlikeUnder(k, root.fields[k], root'.fields[k]) {
      assert k == "$id" || k == "items" || k == "$ref";
    }
    assert "$id" in root'.fields && "$id" !in a'.fields && "allOf" in a'.fields && "allOf" !in y.fields;
  }

  lemma RefersToId(root: Json)
    requires root.Obj? && "$id" in root.fields && root.fields["$id"].Obj?
    ensures Pointer(root, "#/$id") == Some(root.fields["$id"])
  {
    EscapedPathResolves(root, ["$id"]);
    assert EncodeToken("$id") == "$id";
    assert EncodeAll(["$id"]) == ["$id"];
  }

  lemma TreeOf(x: Json, y: Json, a: Json, root: Json, t: Json)
    requires x == Obj(map[]) && y == Obj(map["title" := Null]) && a == Obj(map["allOf" := Arr([x, y])])
    requires root.Obj? && root.fields.Keys == {"$id", "items", "$ref"} && root.fields["items"] == a
    ensures IsNode(root, t) <==> t == root || t == a || t == x || t == y
  {
    LeafNode(x, t);
    LeafNode(y, t);
    assert Items(Get(a, "allOf")) == [x, y];
    assert Inside(a) == {x, y};
    assert Inside(root) == {a};
    InsideSmaller(a, x);
    InsideSmaller(a, y);
    InsideSmaller(root, a);
  }
}

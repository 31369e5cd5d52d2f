/** json_contract: no findings means the instance satisfies the schema, and what holds of every finding. */
module JsonTheorems {
  import opened Wrappers
  import opened JsonSchema
  import opened JsonContract

  // ----- what satisfying a schema comes to, keyword by keyword -----

  ghost predicate AllSatisfied(c: Context, rank: map<Json, nat>, checks: set<Check>)
    requires Covered(c, rank)
  {
    forall k :: k in checks ==> k.schema in rank && Satisfies(c, rank, k.schema, k.value)
  }

  ghost predicate Holds(c: Context, rank: map<Json, nat>, s: Json, v: Json)
    requires Covered(c, rank)
  {
    s in rank && Satisfies(c, rank, s, v)
  }

  lemma SameChecksMean(c: Context, rank: map<Json, nat>, s: Json, v: Json)
    requires Covered(c, rank)
    ensures AllSatisfied(c, rank, SameChecks(c, s, v)) <==>
            && (Get(s, "$ref").Str? && Pointer(c.root, Get(s, "$ref").s).Some? ==>
                  Holds(c, rank, Pointer(c.root, Get(s, "$ref").s).value, v))
            && (forall t :: t in Items(Get(s, "allOf")) ==> Holds(c, rank, t, v))
  {
    var checks := SameChecks(c, s, v);
    assert Get(s, "$ref").Str? && Pointer(c.root, Get(s, "$ref").s).Some? ==>
        Check(Pointer(c.root, Get(s, "$ref").s).value, v, "") in checks;
    assert forall t :: t in Items(Get(s, "allOf")) ==> Check(t, v, "") in checks;
  }

  lemma PropertyChecksMean(c: Context, rank: map<Json, nat>, s: Json, v: Json)
    requires Covered(c, rank) && v.Obj?
    ensures AllSatisfied(c, rank, PropertyChecks(s, v)) <==>
            forall k :: k in v.fields && IsProperty(s, k) ==> Holds(c, rank, Get(s, "properties").fields[k], v.fields[k])
  {
    assert forall k :: k in v.fields && IsProperty(s, k) ==>
        Check(Get(s, "properties").fields[k], v.fields[k], FieldStep(k)) in PropertyChecks(s, v);
  }

  lemma ItemChecksMean(c: Context, rank: map<Json, nat>, s: Json, v: Json)
    requires Covered(c, rank) && v.Arr?
    ensures AllSatisfied(c, rank, ItemChecks(s, v)) <==>
            && (Get(s, "items").Obj? ==> forall i :: 0 <= i < |v.items| ==> Holds(c, rank, Get(s, "items"), v.items[i]))
            && (Get(s, "items").Arr? ==> forall i :: 0 <= i < |v.items| && i < |Get(s, "items").items| ==>
                  Holds(c, rank, Get(s, "items").items[i], v.items[i]))
  {
    assert forall i :: 0 <= i < |v.items| && ItemSchema(s, i).Some? ==>
        Check(ItemSchema(s, i).value, v.items[i], ItemStep(i)) in ItemChecks(s, v);
  }

  lemma SatisfiesSplits(c: Context, rank: map<Json, nat>, s: Json, v: Json)
    requires Covered(c, rank) && s in rank && Supported(c, s)
    ensures Satisfies(c, rank, s, v) <==> OwnOk(c, s, v) && AllSatisfied(c, rank, Checks(c, s, v))
  {
    ChecksDescend(c, rank, s, v);
  }

  lemma AllSatisfiedUnion(c: Context, rank: map<Json, nat>, one: set<Check>, other: set<Check>)
    requires Covered(c, rank)
    ensures AllSatisfied(c, rank, one + other) <==> AllSatisfied(c, rank, one) && AllSatisfied(c, rank, other)
  { }

  lemma ChecksSplit(c: Context, rank: map<Json, nat>, s: Json, v: Json)
    requires Covered(c, rank) && TypeOk(s, v)
    ensures AllSatisfied(c, rank, Checks(c, s, v)) <==>
            && AllSatisfied(c, rank, SameChecks(c, s, v))
            && AllSatisfied(c, rank, PropertyChecks(s, v))
            && AllSatisfied(c, rank, ItemChecks(s, v))
  {
    AllSatisfiedUnion(c, rank, PropertyChecks(s, v), ItemChecks(s, v));
    AllSatisfiedUnion(c, rank, SameChecks(c, s, v), PropertyChecks(s, v) + ItemChecks(s, v));
  }

  /** Satisfying a supported schema, spelled out for the keywords that apply further schemas. */
  lemma SatisfiesMeans(c: Context, rank: map<Json, nat>, s: Json, v: Json)
    requires Covered(c, rank) && s in rank && Supported(c, s)
    ensures Satisfies(c, rank, s, v) <==>
            && OwnOk(c, s, v)
            && (Get(s, "$ref").Str? && Pointer(c.root, Get(s, "$ref").s).Some? ==>
                  Holds(c, rank, Pointer(c.root, Get(s, "$ref").s).value, v))
            && (forall t :: t in Items(Get(s, "allOf")) ==> Holds(c, rank, t, v))
            && (v.Obj? ==> forall k :: k in v.fields && IsProperty(s, k) ==>
                  Holds(c, rank, Get(s, "properties").fields[k], v.fields[k]))
            && (v.Arr? && Get(s, "items").Obj? ==> forall i :: 0 <= i < |v.items| ==>
                  Holds(c, rank, Get(s, "items"), v.items[i]))
            && (v.Arr? && Get(s, "items").Arr? ==> forall i :: 0 <= i < |v.items| && i < |Get(s, "items").items| ==>
                  Holds(c, rank, Get(s, "items").items[i], v.items[i]))
  {
    SatisfiesSplits(c, rank, s, v);
    if TypeOk(s, v) {
      ChecksSplit(c, rank, s, v);
    }
    SameChecksMean(c, rank, s, v);
    if v.Obj? {
      PropertyChecksMean(c, rank, s, v);
    }
    if v.Arr? {
      ItemChecksMean(c, rank, s, v);
    }
  }

  // ----- no findings exactly when satisfied -----

  lemma ObjectSound(w: Wording, s: Json, fields: map<string, Json>, path: string)
    ensures ObjectFindings(w, s, fields, path) == {} <==> ObjectOk(s, fields)
  {
    var all := ObjectFindings(w, s, fields, path);
    if !RequiredOk(s, fields) {
      var i :| 0 <= i < |Items(Get(s, "required"))| && Items(Get(s, "required"))[i].Str?
               && Items(Get(s, "required"))[i].s !in fields;
      assert Finding(path + FieldStep(Items(Get(s, "required"))[i].s), w(MissingField)) in all;
    }
    if !AdditionalOk(s, fields) {
      var k :| k in fields && !IsProperty(s, k);
      assert Finding(path + FieldStep(k), w(UnexpectedField)) in all;
    }
  }

  lemma ArraySound(w: Wording, s: Json, items: seq<Json>, path: string)
    ensures ArrayFindings(w, s, items, path) == {} <==> ArrayOk(s, items)
  {
    var all := ArrayFindings(w, s, items, path);
    if !UniqueOk(s, items) {
      var i, j :| 0 <= i < j < |items| && items[i] == items[j];
      assert items[..j][i] == items[j];
      assert Finding(path + ItemStep(j), w(DuplicateItem)) in DuplicateFindings(w, items, |items|, path);
    }
  }

  lemma OwnSound(c: Context, w: Wording, s: Json, v: Json, path: string)
    requires TypeOk(s, v)
    ensures OwnFindings(c, w, s, v, path) == {} <==> OwnOk(c, s, v)
  {
    if v.Obj? {
      ObjectSound(w, s, v.fields, path);
    }
    if v.Arr? {
      ArraySound(w, s, v.items, path);
    }
  }

  lemma EmptyIffPartsEmpty(c: Context, rank: map<Json, nat>, w: Wording, s: Json, v: Json, path: string)
    requires Covered(c, rank) && s in rank && Supported(c, s) && TypeOk(s, v)
    requires forall k :: k in Checks(c, s, v) ==> k.schema in rank
    ensures Violations(c, rank, w, s, v, path) == {} <==>
            && OwnFindings(c, w, s, v, path) == {}
            && forall k :: k in Checks(c, s, v) ==> Violations(c, rank, w, k.schema, k.value, path + k.step) == {}
  {
    var all := Violations(c, rank, w, s, v, path);
    forall k | k in Checks(c, s, v) ensures Violations(c, rank, w, k.schema, k.value, path + k.step) <= all { }
  }

  /** One node, given the same for its checks. */
  lemma NoFindingsStep(c: Context, rank: map<Json, nat>, w: Wording, s: Json, v: Json, path: string)
    requires Covered(c, rank) && s in rank && Supported(c, s)
    requires forall k :: k in Checks(c, s, v) ==>
               && k.schema in rank
               && (TypeOk(s, v) ==>
                     (Violations(c, rank, w, k.schema, k.value, path + k.step) == {} <==>
                        Satisfies(c, rank, k.schema, k.value)))
    ensures Violations(c, rank, w, s, v, path) == {} <==> Satisfies(c, rank, s, v)
  {
    SatisfiesSplits(c, rank, s, v);
    if TypeOk(s, v) {
      OwnSound(c, w, s, v, path);
      EmptyIffPartsEmpty(c, rank, w, s, v, path);
    }
  }

  /** Where a call does not raise, no call inside it does. */
  lemma InnerNeverRaises(c: Context, rank: map<Json, nat>, s: Json, v: Json)
    requires Covered(c, rank) && s in rank && !Raises(c, rank, s, v)
    ensures Supported(c, s)
    ensures forall k :: k in Checks(c, s, v) ==> Descends(rank, s, v, k) && !Raises(c, rank, k.schema, k.value)
  {
    ChecksDescend(c, rank, s, v);
  }

  /** Where validation does not raise, it reports nothing exactly when the instance satisfies the schema. */
  lemma {:induction false} NoFindingsIffSatisfied(c: Context, rank: map<Json, nat>, w: Wording, s: Json, v: Json,
                                                  path: string)
    requires Covered(c, rank) && s in rank && !Raises(c, rank, s, v)
    ensures Violations(c, rank, w, s, v, path) == {} <==> Satisfies(c, rank, s, v)
    decreases v, rank[s]
  {
    InnerNeverRaises(c, rank, s, v);
    forall k | k in Checks(c, s, v)
      ensures Violations(c, rank, w, k.schema, k.value, path + k.step) == {} <==> Satisfies(c, rank, k.schema, k.value)
    {
      NoFindingsIffSatisfied(c, rank, w, k.schema, k.value, path + k.step);
    }
    NoFindingsStep(c, rank, w, s, v, path);
  }

  // ----- every finding lies below the starting path -----

  lemma OwnBelow(c: Context, w: Wording, s: Json, v: Json, path: string, f: Finding)
    requires f in OwnFindings(c, w, s, v, path)
    ensures path <= f.path
  { }

  /** Each reported path extends the path validation started from. */
  lemma {:induction false} FindingBelow(c: Context, rank: map<Json, nat>, w: Wording, s: Json, v: Json, path: string,
                                        f: Finding)
    requires Covered(c, rank) && s in rank && f in Violations(c, rank, w, s, v, path)
    ensures path <= f.path
    decreases v, rank[s]
  {
    if TypeOk(s, v) {
      ChecksDescend(c, rank, s, v);
      if f in OwnFindings(c, w, s, v, path) {
        OwnBelow(c, w, s, v, path, f);
      } else {
        var k :| k in Checks(c, s, v) && f in Violations(c, rank, w, k.schema, k.value, path + k.step);
        FindingBelow(c, rank, w, k.schema, k.value, path + k.step, f);
      }
    }
  }

  // ----- a supported root -----

  /** The schemas directly inside a schema node. */
  function Inside(s: Json): set<Json> {
    (if Get(s, "properties").Obj? then set k | k in Get(s, "properties").fields :: Get(s, "properties").fields[k] else {}) +
    (if Get(s, "definitions").Obj? then set k | k in Get(s, "definitions").fields :: Get(s, "definitions").fields[k] else {}) +
    (if Get(s, "items").Obj? then {Get(s, "items")} else {}) +
    (set t | t in Items(Get(s, "items"))) +
    (set t | t in Items(Get(s, "allOf")))
  }

  /** The schema nodes of the tree under s, with s. */
  ghost predicate IsNode(s: Json, t: Json)
    decreases s
  {
    t == s || exists u :: u in Inside(s) && u < s && IsNode(u, t)
  }

  lemma InsideSmaller(s: Json, u: Json)
    requires u in Inside(s)
    ensures u < s
  { }

  lemma InsideSupported(c: Context, s: Json, u: Json)
    requires Supported(c, s) && u in Inside(s)
    ensures Supported(c, u)
  { }

  lemma {:induction false} NodesSupported(c: Context, s: Json, t: Json)
    requires Supported(c, s) && IsNode(s, t)
    ensures Supported(c, t)
    decreases s
  {
    if t != s {
      var u :| u in Inside(s) && u < s && IsNode(u, t);
      InsideSupported(c, s, u);
      NodesSupported(c, u, t);
    }
  }

  lemma {:induction false} NodesTransitive(s: Json, t: Json, u: Json)
    requires IsNode(s, t) && u in Inside(t)
    ensures IsNode(s, u)
    decreases s
  {
    InsideSmaller(t, u);
    if t == s {
      assert IsNode(u, u);
    } else {
      var x :| x in Inside(s) && x < s && IsNode(x, t);
      NodesTransitive(x, t, u);
    }
  }

  /** The node's reference names a node of the tree, and no keyword that is iterated is an explicit null. */
  ghost predicate NodeClosed(root: Json, t: Json) {
    && (Get(t, "$ref").Str? ==>
          Pointer(root, Get(t, "$ref").s).Some? && IsNode(root, Pointer(root, Get(t, "$ref").s).value))
    && (Has(t, "allOf") ==> !Get(t, "allOf").Null?)
    && (Has(t, "required") ==> !Get(t, "required").Null?)
    && (Has(t, "properties") ==> !Get(t, "properties").Null?)
  }

  ghost predicate Closed(root: Json) {
    forall t :: IsNode(root, t) ==> NodeClosed(root, t)
  }

  lemma ChecksStayInTree(c: Context, s: Json, v: Json, k: Check)
    requires Closed(c.root) && IsNode(c.root, s) && k in Checks(c, s, v)
    ensures IsNode(c.root, k.schema)
  {
    ChecksInside(c, s, v, k);
    if k.schema in Inside(s) {
      NodesTransitive(c.root, s, k.schema);
    }
  }

  /** Every schema that a check applies stands inside the node, except the target of its reference. */
  lemma ChecksInside(c: Context, s: Json, v: Json, k: Check)
    requires k in Checks(c, s, v)
    ensures k.schema in Inside(s) || (Get(s, "$ref").Str? && Pointer(c.root, Get(s, "$ref").s) == Some(k.schema))
  {
    if k in PropertyChecks(s, v) {
      var name :| name in v.fields && IsProperty(s, name) && k.schema == Get(s, "properties").fields[name];
    } else if k in ItemChecks(s, v) {
      var i :| 0 <= i < |v.items| && ItemSchema(s, i).Some? && k.schema == ItemSchema(s, i).value;
    }
  }

  lemma ClosedNode(c: Context, s: Json, v: Json)
    requires Closed(c.root) && IsNode(c.root, s)
    ensures !OwnRaises(c, s, v)
  { }

  /** With a supported root whose references stay inside its tree, no call below the first one raises. */
  lemma {:induction false} SupportedRootNeverRaises(c: Context, rank: map<Json, nat>, s: Json, v: Json)
    requires Covered(c, rank) && s in rank
    requires Supported(c, c.root) && Closed(c.root) && IsNode(c.root, s)
    ensures !Raises(c, rank, s, v)
    decreases v, rank[s]
  {
    NodesSupported(c, c.root, s);
    ChecksDescend(c, rank, s, v);
    ClosedNode(c, s, v);
    forall k | k in Checks(c, s, v) ensures !Raises(c, rank, k.schema, k.value) {
      ChecksStayInTree(c, s, v, k);
      SupportedRootNeverRaises(c, rank, k.schema, k.value);
    }
  }

  // ----- Python's equality -----

  ghost predicate NumberFree(v: Json) {
    match v
    case Int(_) => false
    case Arr(items) => forall i :: 0 <= i < |items| ==> NumberFree(items[i])
    case Obj(fields) => forall k :: k in fields ==> NumberFree(fields[k])
    case _ => true
  }

  /** Without numbers, `in` compares JSON values as JSON Schema does. */
  lemma {:induction false} NumberFreeEquality(a: Json, b: Json)
    requires NumberFree(a) && NumberFree(b)
    ensures PyEq(a, b) <==> a == b
    decreases a
  {
    match a {
      case Arr(xs) =>
        if b.Arr? && |xs| == |b.items| {
          forall i | 0 <= i < |xs| ensures PyEq(xs[i], b.items[i]) <==> xs[i] == b.items[i] {
            NumberFreeEquality(xs[i], b.items[i]);
          }
          assert xs == b.items <==> forall i :: 0 <= i < |xs| ==> xs[i] == b.items[i];
        }
      case Obj(fs) =>
        if b.Obj? && fs.Keys == b.fields.Keys {
          forall k | k in fs ensures PyEq(fs[k], b.fields[k]) <==> fs[k] == b.fields[k] {
            NumberFreeEquality(fs[k], b.fields[k]);
          }
          assert fs == b.fields <==> forall k :: k in fs ==> fs[k] == b.fields[k];
        }
      case _ =>
    }
  }
}

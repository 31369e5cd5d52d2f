/** json_contract: keywords beside `$ref`, applied by the code, ignored by section 8.3 of draft-handrews-json-schema-01. */
module RefReading {
  import opened Wrappers
  import opened JsonSchema
  import opened JsonContract
  import JsonMeaning
  import JsonTheorems

  predicate IsRef(s: Json) {
    Get(s, "$ref").Str?
  }

  /** The schemas applied when everything beside `$ref` is ignored. */
  function RefChecks(c: Context, s: Json, v: Json): set<Check> {
    if !IsRef(s) then Checks(c, s, v)
    else if Pointer(c.root, Get(s, "$ref").s).Some? then {Check(Pointer(c.root, Get(s, "$ref").s).value, v, "")}
    else {}
  }

  lemma RefChecksApplied(c: Context, s: Json, v: Json)
    ensures RefChecks(c, s, v) <= Checks(c, s, v)
  { }

  /** What satisfying a schema means in that reading. */
  ghost predicate SatisfiesRef(c: Context, rank: map<Json, nat>, s: Json, v: Json)
    requires Covered(c, rank) && s in rank
    decreases v, rank[s]
  {
    && Supported(c, s)
    && (IsRef(s) || OwnOk(c, s, v))
    && (ChecksDescend(c, rank, s, v);
        RefChecksApplied(c, s, v);
        forall k :: k in RefChecks(c, s, v) ==> SatisfiesRef(c, rank, k.schema, k.value))
  }

  /** The code's reading is the stricter one. */
  lemma {:induction false} SatisfiedInBoth(c: Context, rank: map<Json, nat>, s: Json, v: Json)
    requires Covered(c, rank) && s in rank && Satisfies(c, rank, s, v)
    ensures SatisfiesRef(c, rank, s, v)
    decreases v, rank[s]
  {
    ChecksDescend(c, rank, s, v);
    RefChecksApplied(c, s, v);
    forall k | k in RefChecks(c, s, v) ensures SatisfiesRef(c, rank, k.schema, k.value) {
      SatisfiedInBoth(c, rank, k.schema, k.value);
    }
  }

  /** Beside a reference stand only annotations and definitions. */
  predicate AloneRef(s: Json) {
    IsRef(s) ==> s.Obj? && forall k :: k in s.fields ==> k == "$ref" || k == "definitions" || IsAnnotation(k)
  }

  ghost predicate AloneRefs(rank: map<Json, nat>) {
    forall s :: s in rank ==> AloneRef(s)
  }

  lemma AbsentKeyword(s: Json, k: string)
    requires IsRef(s) && AloneRef(s) && k != "$ref" && k != "definitions" && !IsAnnotation(k)
    ensures !Has(s, k) && Get(s, k) == Null
  { }

  lemma AloneOwn(c: Context, s: Json, v: Json)
    requires IsRef(s) && AloneRef(s)
    ensures OwnOk(c, s, v)
  {
    AbsentKeyword(s, "type");
    AbsentKeyword(s, "enum");
    match v {
      case Obj(fields) =>
        AbsentKeyword(s, "required");
        AbsentKeyword(s, "additionalProperties");
      case Arr(items) =>
        AbsentKeyword(s, "minItems");
        AbsentKeyword(s, "maxItems");
        AbsentKeyword(s, "uniqueItems");
        AbsentKeyword(s, "items");
      case Str(text) =>
        AbsentKeyword(s, "minLength");
        AbsentKeyword(s, "maxLength");
        AbsentKeyword(s, "pattern");
      case _ =>
    }
  }

  lemma AloneChecks(c: Context, s: Json, v: Json)
    requires IsRef(s) && AloneRef(s)
    ensures Checks(c, s, v) == RefChecks(c, s, v)
  {
    AbsentKeyword(s, "allOf");
    AbsentKeyword(s, "properties");
    AbsentKeyword(s, "items");
    assert PropertyChecks(s, v) == {} && ItemChecks(s, v) == {};
  }

  /** The readings agree on every instance where no applied keyword stands beside a reference. */
  lemma {:induction false} ReadingsAgree(c: Context, rank: map<Json, nat>, s: Json, v: Json)
    requires Covered(c, rank) && s in rank && AloneRefs(rank)
    ensures Satisfies(c, rank, s, v) <==> SatisfiesRef(c, rank, s, v)
    decreases v, rank[s]
  {
    if Supported(c, s) {
      ChecksDescend(c, rank, s, v);
      if IsRef(s) {
        AloneOwn(c, s, v);
        AloneChecks(c, s, v);
      }
      forall k | k in Checks(c, s, v)
        ensures Satisfies(c, rank, k.schema, k.value) <==> SatisfiesRef(c, rank, k.schema, k.value)
      {
        ReadingsAgree(c, rank, k.schema, k.value);
      }
    }
  }

  // ----- where they differ -----

  /** A definition that allows anything, and a root that refers to it and also asks for a string. */
  ghost predicate TypeBesideRef(root: Json, ref: string, any: Json) {
    && any == Obj(map[]) && ref == "#/definitions/any"
    && root.Obj? && root.fields.Keys == {"$ref", "type", "definitions"}
    && root.fields["$ref"] == Str(ref) && root.fields["type"] == Str("string")
    && root.fields["definitions"] == Obj(map["any" := any])
  }

  /** The code rejects null, the other reading accepts it. */
  lemma ReadingsDiffer(c: Context, rank: map<Json, nat>, ref: string, any: Json)
    requires TypeBesideRef(c.root, ref, any) && rank == map[any := 0, c.root := 1]
    ensures Covered(c, rank) && !Satisfies(c, rank, c.root, Null) && SatisfiesRef(c, rank, c.root, Null)
  {
    RefersToAny(c.root, ref, any);
    SupportedLeaf(c, any);
    RootSupported(c, c.root, ref, any);
    RankCovers(c, rank, ref, any);
    assert !TypeOk(c.root, Null);
    OnlyRefCheck(c, ref, any);
    LeafSatisfied(c, rank, any);
  }

  lemma OnlyRefCheck(c: Context, ref: string, any: Json)
    requires Get(c.root, "$ref") == Str(ref) && Pointer(c.root, ref) == Some(any)
    ensures RefChecks(c, c.root, Null) == {Check(any, Null, "")}
  { }

  lemma LeafSatisfied(c: Context, rank: map<Json, nat>, any: Json)
    requires Covered(c, rank) && any in rank && any == Obj(map[]) && Supported(c, any)
    ensures SatisfiesRef(c, rank, any, Null)
  {
    assert RefChecks(c, any, Null) == {};
  }

  lemma RankCovers(c: Context, rank: map<Json, nat>, ref: string, any: Json)
    requires TypeBesideRef(c.root, ref, any) && rank == map[any := 0, c.root := 1]
    requires Pointer(c.root, ref) == Some(any)
    ensures Covered(c, rank) && any in rank && c.root in rank && any != c.root
  {
    assert "type" in c.root.fields && "type" !in any.fields;
    assert Get(c.root, "items") == Null && Get(c.root, "allOf") == Null && Get(c.root, "properties") == Null;
    assert NodeCovered(c, rank, any);
    OnlyRefCovered(c, rank, ref, any);
  }

  lemma OnlyRefCovered(c: Context, rank: map<Json, nat>, ref: string, any: Json)
    requires c.root in rank && any in rank && rank[any] < rank[c.root]
    requires Get(c.root, "$ref") == Str(ref) && Pointer(c.root, ref) == Some(any)
    requires Get(c.root, "items") == Null && Get(c.root, "allOf") == Null && Get(c.root, "properties") == Null
    ensures NodeCovered(c, rank, c.root)
  { }

  lemma {:induction false} PlainToken(token: string)
    requires '~' !in token && '/' !in token
    ensures EncodeToken(token) == token
  {
    if |token| > 0 {
      PlainToken(token[1..]);
    }
  }

  lemma RefText(one: string, other: string)
    requires one == "definitions" && other == "any"
    ensures "#/" + (one + ['/'] + other) == "#/definitions/any"
    ensures '~' !in one && '/' !in one && '~' !in other && '/' !in other
  { }

  lemma RefersToAny(root: Json, ref: string, any: Json)
    requires TypeBesideRef(root, ref, any)
    ensures Pointer(root, ref) == Some(any)
  {
    var one: string :| one == "definitions";
    var other: string :| other == "any";
    RefText(one, other);
    PathTo(root, one, other);
  }

  lemma PathTo(root: Json, one: string, other: string)
    requires Has(root, one) && Has(root.fields[one], other) && root.fields[one].fields[other].Obj?
    requires '~' !in one && '/' !in one && '~' !in other && '/' !in other
    ensures Pointer(root, "#/" + (one + ['/'] + other)) == Some(root.fields[one].fields[other])
  {
    var tokens := [one, other];
    PlainToken(one);
    PlainToken(other);
    EscapedPathResolves(root, tokens);
    assert EncodeAll(tokens) == tokens;
    assert tokens[1..] == [other];
    assert Walk(root, tokens) == Walk(root.fields[one], tokens[1..]);
    assert Walk(root.fields[one], [other]) == Walk(root.fields[one].fields[other], [other][1..]);
  }

  lemma SupportedLeaf(c: Context, any: Json)
    requires any == Obj(map[])
    ensures Supported(c, any)
  { }

  lemma RootSupported(c: Context, root: Json, ref: string, any: Json)
    requires TypeBesideRef(root, ref, any) && Supported(c, any)
    ensures Supported(c, root)
  {
    RootKeys(root, ref, any);
    RootAssertions(c, root, ref, any);
    RootInside(root, ref, any);
    JsonMeaning.InsideGives(c, root);
  }

  lemma RootInside(root: Json, ref: string, any: Json)
    requires TypeBesideRef(root, ref, any)
    ensures forall u :: u in JsonTheorems.Inside(root) ==> u == any
  {
    assert Get(root, "items") == Null && Get(root, "allOf") == Null && Get(root, "properties") == Null;
    assert root.fields["definitions"].fields.Keys == {"any"} && root.fields["definitions"].fields["any"] == any;
  }

  lemma RootKeys(root: Json, ref: string, any: Json)
    requires TypeBesideRef(root, ref, any)
    ensures KeysKnown(root) && ApplicatorsSupported(root)
  { }

  lemma RootAssertions(c: Context, root: Json, ref: string, any: Json)
    requires TypeBesideRef(root, ref, any)
    ensures AssertionsSupported(c, root)
  { }
}

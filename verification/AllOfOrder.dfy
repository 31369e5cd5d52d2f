/** json_contract: the order of `allOf` lists, anywhere in a schema, has no effect. */
module AllOfOrder {
  import opened Wrappers
  import Text
  import opened JsonSchema
  import opened JsonContract
  import opened JsonTheorems

  // ----- schemas that differ in the order of `allOf` lists only -----

  /** Equal up to the order and the repetitions of `allOf` lists at any depth. */
  ghost predicate Alike(a: Json, b: Json)
    decreases a, 0
  {
    match a
    case Obj(fields) =>
      b.Obj? && fields.Keys == b.fields.Keys && forall k :: k in fields ==> AlikeUnder(k, fields[k], b.fields[k])
    case Arr(items) =>
      b.Arr? && |items| == |b.items| && forall i :: 0 <= i < |items| ==> Alike(items[i], b.items[i])
    case _ => a == b
  }

  /** What may stand under the same key: the lists of `allOf` as sets, those of `enum` as they are. */
  ghost predicate AlikeUnder(key: string, a: Json, b: Json)
    decreases a, 1
  {
    if key == "allOf" && a.Arr? then
      && b.Arr?
      && (forall i :: 0 <= i < |a.items| ==> LikeSome(a.items[i], b.items))
      && (forall j :: 0 <= j < |b.items| ==> SomeLike(a, b.items[j]))
    else if key == "enum" && a.Arr? then a == b
    else Alike(a, b)
  }

  ghost predicate LikeSome(x: Json, ys: seq<Json>)
    decreases x, 1
  {
    exists j :: 0 <= j < |ys| && Alike(x, ys[j])
  }

  ghost predicate SomeLike(a: Json, y: Json)
    requires a.Arr?
    decreases a, 0
  {
    exists i :: 0 <= i < |a.items| && Alike(a.items[i], y)
  }

  lemma {:induction false} AlikeReflexive(a: Json)
    ensures Alike(a, a)
    decreases a, 0
  {
    match a {
      case Obj(fields) =>
        forall k | k in fields ensures AlikeUnder(k, fields[k], fields[k]) {
          UnderReflexive(k, fields[k]);
        }
      case Arr(items) =>
        forall i | 0 <= i < |items| ensures Alike(items[i], items[i]) {
          AlikeReflexive(items[i]);
        }
      case _ =>
    }
  }

  lemma {:induction false} UnderReflexive(key: string, a: Json)
    ensures AlikeUnder(key, a, a)
    decreases a, 1
  {
    AlikeReflexive(a);
    if a.Arr? {
      forall i | 0 <= i < |a.items| ensures LikeSome(a.items[i], a.items) && SomeLike(a, a.items[i]) {
        assert Alike(a.items[i], a.items[i]);
      }
    }
  }

  lemma {:induction false} AlikeSymmetric(a: Json, b: Json)
    requires Alike(a, b)
    ensures Alike(b, a)
    decreases a, 0
  {
    match a {
      case Obj(fields) =>
        forall k | k in fields ensures AlikeUnder(k, b.fields[k], fields[k]) {
          UnderSymmetric(k, fields[k], b.fields[k]);
        }
      case Arr(items) =>
        forall i | 0 <= i < |items| ensures Alike(b.items[i], items[i]) {
          AlikeSymmetric(items[i], b.items[i]);
        }
      case _ =>
    }
  }

  lemma {:induction false} UnderSymmetric(key: string, a: Json, b: Json)
    requires AlikeUnder(key, a, b)
    ensures AlikeUnder(key, b, a)
    decreases a, 1
  {
    if key == "allOf" && a.Arr? {
      forall i, j | 0 <= i < |a.items| && 0 <= j < |b.items| && Alike(a.items[i], b.items[j])
        ensures Alike(b.items[j], a.items[i])
      {
        AlikeSymmetric(a.items[i], b.items[j]);
      }
      SetsSymmetric(a, b);
    } else if !(key == "enum" && a.Arr?) {
      AlikeSymmetric(a, b);
    }
  }

  lemma SetsSymmetric(a: Json, b: Json)
    requires a.Arr? && AlikeUnder("allOf", a, b)
    requires forall i, j :: 0 <= i < |a.items| && 0 <= j < |b.items| && Alike(a.items[i], b.items[j]) ==>
               Alike(b.items[j], a.items[i])
    ensures AlikeUnder("allOf", b, a)
  {
    forall i | 0 <= i < |a.items| ensures SomeLike(b, a.items[i]) {
      assert LikeSome(a.items[i], b.items);
    }
    forall j | 0 <= j < |b.items| ensures LikeSome(b.items[j], a.items) {
      assert SomeLike(a, b.items[j]);
    }
  }

  /** The schema with its `allOf` list replaced. */
  function WithAllOf(s: Json, children: seq<Json>): Json
    requires s.Obj?
  {
    Obj(s.fields["allOf" := Arr(children)])
  }

  /** Reordering and repeating the children of one list gives such a schema. */
  lemma ReorderedAlike(s: Json, children: seq<Json>)
    requires s.Obj? && Get(s, "allOf").Arr? && forall t :: t in children <==> t in Get(s, "allOf").items
    ensures Alike(s, WithAllOf(s, children))
  {
    var s' := WithAllOf(s, children);
    var items := Get(s, "allOf").items;
    forall k | k in s.fields ensures AlikeUnder(k, s.fields[k], s'.fields[k]) {
      if k == "allOf" {
        SameMembersAlike(items, children);
      } else {
        UnderReflexive(k, s.fields[k]);
      }
    }
  }

  lemma SameMembersAlike(xs: seq<Json>, ys: seq<Json>)
    requires forall t :: t in ys <==> t in xs
    ensures AlikeUnder("allOf", Arr(xs), Arr(ys))
  {
    var a := Arr(xs);
    forall i | 0 <= i < |xs| ensures LikeSome(xs[i], ys) {
      assert xs[i] in ys;
      AlikeReflexive(xs[i]);
    }
    forall j | 0 <= j < |ys| ensures SomeLike(a, ys[j]) {
      assert ys[j] in a.items;
      AlikeReflexive(ys[j]);
    }
  }

  // ----- keywords and references of such schemas -----

  /** Every keyword but `allOf` and `enum` has alike values. */
  lemma GetAlike(s: Json, s': Json, key: string)
    requires Alike(s, s')
    ensures AlikeUnder(key, Get(s, key), Get(s', key)) && (Has(s, key) <==> Has(s', key))
  {
    if s.Obj? && key in s.fields {
      assert AlikeUnder(key, s.fields[key], s'.fields[key]);
    } else {
      AlikeReflexive(Null);
    }
  }

  /** Walking the same keys leads to alike nodes. */
  lemma {:induction false} WalkAlike(a: Json, b: Json, tokens: seq<string>)
    requires Alike(a, b)
    ensures Walk(a, tokens).Some? && Walk(a, tokens).value.Obj? <==> Walk(b, tokens).Some? && Walk(b, tokens).value.Obj?
    ensures Walk(a, tokens).Some? && Walk(a, tokens).value.Obj? ==> Alike(Walk(a, tokens).value, Walk(b, tokens).value)
    decreases |tokens|
  {
    if |tokens| > 0 && a.Obj? && tokens[0] in a.fields {
      var x, y := a.fields[tokens[0]], b.fields[tokens[0]];
      assert AlikeUnder(tokens[0], x, y);
      if x.Arr? {
        assert y.Arr?;
      } else {
        WalkAlike(x, y, tokens[1..]);
      }
    }
  }

  lemma PointerAlike(root: Json, root': Json, ref: string)
    requires Alike(root, root')
    ensures match Pointer(root, ref)
            case None => Pointer(root', ref) == None
            case Some(t) => Pointer(root', ref).Some? && Alike(t, Pointer(root', ref).value)
  {
    if "#/" <= ref {
      var tokens := Text.Split(ref[2..], '/');
      WalkAlike(root, root', seq(|tokens|, i requires 0 <= i < |tokens| => DecodeToken(tokens[i])));
    }
  }

  // ----- what such schemas share -----

  predicate SameKind(x: Json, y: Json) {
    (x.Obj? <==> y.Obj?) && (x.Arr? <==> y.Arr?) && (!x.Obj? && !x.Arr? ==> x == y)
  }

  predicate SameKinds(xs: seq<Json>, ys: seq<Json>) {
    |xs| == |ys| && forall i :: 0 <= i < |xs| ==> SameKind(xs[i], ys[i])
  }

  /** The same for all keywords that do not apply further schemas. */
  ghost predicate SameKeywords(s: Json, s': Json) {
    && (s.Obj? <==> s'.Obj?)
    && (forall k :: (Has(s, k) <==> Has(s', k)) && SameKind(Get(s, k), Get(s', k)))
    && (Get(s, "enum").Arr? ==> Get(s', "enum") == Get(s, "enum"))
    && SameKinds(Items(Get(s, "required")), Items(Get(s', "required")))
    && |Items(Get(s, "items"))| == |Items(Get(s', "items"))|
    && (forall k :: IsProperty(s, k) <==> IsProperty(s', k))
  }

  lemma KindAlike(key: string, x: Json, y: Json)
    requires AlikeUnder(key, x, y)
    ensures SameKind(x, y)
    ensures x.Obj? ==> x.fields.Keys == y.fields.Keys
    ensures key == "enum" && x.Arr? ==> x == y
    ensures x.Arr? && key != "allOf" && key != "enum" ==> Alike(x, y)
  { }

  lemma KindsAlike(x: Json, y: Json)
    requires Alike(x, y)
    ensures SameKinds(Items(x), Items(y))
  {
    if x.Arr? {
      forall i | 0 <= i < |x.items| ensures SameKind(x.items[i], y.items[i]) {
        assert Alike(x.items[i], y.items[i]);
      }
    }
  }

  lemma AlikeSameKeywords(s: Json, s': Json)
    requires Alike(s, s')
    ensures SameKeywords(s, s')
  {
    forall k ensures (Has(s, k) <==> Has(s', k)) && SameKind(Get(s, k), Get(s', k)) {
      GetAlike(s, s', k);
      KindAlike(k, Get(s, k), Get(s', k));
    }
    GetAlike(s, s', "enum");
    KindAlike("enum", Get(s, "enum"), Get(s', "enum"));
    ListAlike(s, s', "required");
    ListAlike(s, s', "items");
    GetAlike(s, s', "properties");
    KindAlike("properties", Get(s, "properties"), Get(s', "properties"));
  }

  lemma ListAlike(s: Json, s': Json, key: string)
    requires Alike(s, s') && key != "allOf" && key != "enum"
    ensures Alike(Get(s, key), Get(s', key)) && SameKinds(Items(Get(s, key)), Items(Get(s', key)))
  {
    GetAlike(s, s', key);
    KindsAlike(Get(s, key), Get(s', key));
  }

  lemma KeysAlike(s: Json, s': Json)
    requires s.Obj? && s'.Obj? && KeysKnown(s) && forall k :: Has(s, k) <==> Has(s', k)
    ensures KeysKnown(s')
  {
    forall k | k in s'.fields ensures IsAnnotation(k) || IsAssertion(k) {
      assert Has(s', k);
    }
  }

  lemma AssertionsAlike(c: Context, c': Context, s: Json, s': Json)
    requires AssertionsSupported(c, s) && c' == c.(root := c'.root)
    requires SameKind(Get(s, "type"), Get(s', "type")) && SameKind(Get(s, "required"), Get(s', "required"))
    requires SameKinds(Items(Get(s, "required")), Items(Get(s', "required"))) && SameKind(Get(s, "enum"), Get(s', "enum"))
    requires SameKind(Get(s, "minLength"), Get(s', "minLength")) && SameKind(Get(s, "maxLength"), Get(s', "maxLength"))
    requires SameKind(Get(s, "minItems"), Get(s', "minItems")) && SameKind(Get(s, "maxItems"), Get(s', "maxItems"))
    requires SameKind(Get(s, "pattern"), Get(s', "pattern")) && SameKind(Get(s, "uniqueItems"), Get(s', "uniqueItems"))
    ensures AssertionsSupported(c', s')
  { }

  lemma ApplicatorsAlike(s: Json, s': Json)
    requires ApplicatorsSupported(s)
    requires SameKind(Get(s, "$ref"), Get(s', "$ref")) && SameKind(Get(s, "allOf"), Get(s', "allOf"))
    requires SameKind(Get(s, "additionalProperties"), Get(s', "additionalProperties"))
    requires SameKind(Get(s, "additionalItems"), Get(s', "additionalItems")) && SameKind(Get(s, "items"), Get(s', "items"))
    requires SameKind(Get(s, "properties"), Get(s', "properties"))
    requires SameKind(Get(s, "definitions"), Get(s', "definitions"))
    ensures ApplicatorsSupported(s')
  { }

  lemma KeywordsAlike(c: Context, c': Context, s: Json, s': Json)
    requires s.Obj? && SameKeywords(s, s') && c' == c.(root := c'.root) && KeywordsSupported(c, s)
    ensures s'.Obj? && KeywordsSupported(c', s')
  {
    KeysAlike(s, s');
    AssertionsAlike(c, c', s, s');
    ApplicatorsAlike(s, s');
  }

  /** The schemas directly inside s stay supported when they are reordered. */
  ghost predicate InsideKept(c': Context, s: Json) {
    forall u, u' :: u in Inside(s) && Alike(u, u') ==> Supported(c', u')
  }

  lemma FieldAlike(c: Context, s: Json, s': Json, key: string, k: string)
    requires Alike(s, s') && Supported(c, s) && key in {"properties", "definitions"}
    requires Get(s, key).Obj? && k in Get(s, key).fields
    ensures Get(s', key).Obj? && k in Get(s', key).fields && Alike(Get(s, key).fields[k], Get(s', key).fields[k])
    ensures Get(s, key).fields[k] in Inside(s)
  {
    ListAlike(s, s', key);
    var u := Get(s, key).fields[k];
    InsideSupported(c, s, u);
    assert AlikeUnder(k, u, Get(s', key).fields[k]);
  }

  lemma FieldsSupported(c: Context, c': Context, s: Json, s': Json, key: string)
    requires Alike(s, s') && Supported(c, s) && InsideKept(c', s) && key in {"properties", "definitions"}
    ensures Has(s', key) && s'.fields[key].Obj? ==>
              forall k :: k in s'.fields[key].fields ==> Supported(c', s'.fields[key].fields[k])
  {
    ListAlike(s, s', key);
    if Get(s', key).Obj? {
      forall k | k in Get(s', key).fields ensures Supported(c', Get(s', key).fields[k]) {
        FieldAlike(c, s, s', key, k);
      }
    }
  }

  lemma ItemsSupported(c: Context, c': Context, s: Json, s': Json)
    requires Alike(s, s') && Supported(c, s) && InsideKept(c', s)
    ensures Has(s', "items") && s'.fields["items"].Obj? ==> Supported(c', s'.fields["items"])
    ensures Has(s', "items") && s'.fields["items"].Arr? ==>
              forall i :: 0 <= i < |s'.fields["items"].items| ==> Supported(c', s'.fields["items"].items[i])
  {
    ListAlike(s, s', "items");
    var xs, ys := Items(Get(s, "items")), Items(Get(s', "items"));
    forall i | 0 <= i < |ys| ensures Supported(c', ys[i]) {
      assert xs[i] in Inside(s) && Alike(xs[i], ys[i]);
    }
  }

  lemma ChildrenSupported(c: Context, c': Context, s: Json, s': Json)
    requires Alike(s, s') && Supported(c, s) && InsideKept(c', s)
    ensures Has(s', "allOf") && s'.fields["allOf"].Arr? ==>
              forall j :: 0 <= j < |s'.fields["allOf"].items| ==> Supported(c', s'.fields["allOf"].items[j])
  {
    GetAlike(s, s', "allOf");
    var a, ys := Get(s, "allOf"), Items(Get(s', "allOf"));
    forall j | 0 <= j < |ys| ensures Supported(c', ys[j]) {
      assert SomeLike(a, ys[j]);
      var i :| 0 <= i < |a.items| && Alike(a.items[i], ys[j]);
      assert a.items[i] in Inside(s);
    }
  }

  lemma SupportedParts(c: Context, s: Json)
    requires s.Obj? && KeywordsSupported(c, s)
    requires "properties" in s.fields && s.fields["properties"].Obj? ==>
               forall k :: k in s.fields["properties"].fields ==> Supported(c, s.fields["properties"].fields[k])
    requires "definitions" in s.fields && s.fields["definitions"].Obj? ==>
               forall k :: k in s.fields["definitions"].fields ==> Supported(c, s.fields["definitions"].fields[k])
    requires "items" in s.fields && s.fields["items"].Obj? ==> Supported(c, s.fields["items"])
    requires "items" in s.fields && s.fields["items"].Arr? ==>
               forall i :: 0 <= i < |s.fields["items"].items| ==> Supported(c, s.fields["items"].items[i])
    requires "allOf" in s.fields && s.fields["allOf"].Arr? ==>
               forall i :: 0 <= i < |s.fields["allOf"].items| ==> Supported(c, s.fields["allOf"].items[i])
    ensures Supported(c, s)
  { }

  lemma PartsSupported(c: Context, c': Context, s: Json, s': Json)
    requires Alike(s, s') && Supported(c, s) && InsideKept(c', s) && s'.Obj? && KeywordsSupported(c', s')
    ensures Supported(c', s')
  {
    FieldsSupported(c, c', s, s', "properties");
    FieldsSupported(c, c', s, s', "definitions");
    ItemsSupported(c, c', s, s');
    ChildrenSupported(c, c', s, s');
    SupportedParts(c', s');
  }

  /** A schema is supported whatever the order of its lists. */
  lemma {:induction false} SupportedAlike(c: Context, c': Context, s: Json, s': Json)
    requires Alike(s, s') && c' == c.(root := c'.root) && Supported(c, s)
    ensures Supported(c', s')
    decreases s
  {
    AlikeSameKeywords(s, s');
    KeywordsAlike(c, c', s, s');
    forall u, u' | u in Inside(s) && Alike(u, u') ensures Supported(c', u') {
      InsideSmaller(s, u);
      InsideSupported(c, s, u);
      SupportedAlike(c, c', u, u');
    }
    PartsSupported(c, c', s, s');
  }

  // ----- the node itself -----

  lemma OwnRaisesAlike(c: Context, c': Context, s: Json, s': Json, v: Json)
    requires Alike(s, s') && Alike(c.root, c'.root)
    ensures OwnRaises(c, s, v) <==> OwnRaises(c', s', v)
  {
    AlikeSameKeywords(s, s');
    if Get(s, "$ref").Str? {
      PointerAlike(c.root, c'.root, Get(s, "$ref").s);
    }
    assert SameKind(Get(s, "$ref"), Get(s', "$ref")) && SameKind(Get(s, "type"), Get(s', "type"));
    assert SameKind(Get(s, "allOf"), Get(s', "allOf")) && SameKind(Get(s, "properties"), Get(s', "properties"));
    assert SameKind(Get(s, "required"), Get(s', "required"));
    assert (Has(s, "allOf") <==> Has(s', "allOf")) && (Has(s, "properties") <==> Has(s', "properties"));
    assert Has(s, "required") <==> Has(s', "required");
  }

  lemma ObjectFindingsAlike(w: Wording, s: Json, s': Json, fields: map<string, Json>, path: string)
    requires SameKeywords(s, s')
    ensures ObjectFindings(w, s', fields, path) == ObjectFindings(w, s, fields, path)
  {
    var xs, ys := Items(Get(s, "required")), Items(Get(s', "required"));
    assert forall i :: 0 <= i < |xs| ==> SameKind(xs[i], ys[i]);
    assert MissingFindings(w, s', fields, path) == MissingFindings(w, s, fields, path);
    assert SameKind(Get(s, "additionalProperties"), Get(s', "additionalProperties"));
    assert Has(s, "additionalProperties") <==> Has(s', "additionalProperties");
    assert UnexpectedFindings(w, s', fields.Keys, path) == UnexpectedFindings(w, s, fields.Keys, path);
  }

  lemma ArrayFindingsAlike(w: Wording, s: Json, s': Json, items: seq<Json>, path: string)
    requires SameKeywords(s, s')
    ensures ArrayFindings(w, s', items, path) == ArrayFindings(w, s, items, path)
  {
    assert SameKind(Get(s, "minItems"), Get(s', "minItems")) && SameKind(Get(s, "maxItems"), Get(s', "maxItems"));
    assert SameKind(Get(s, "uniqueItems"), Get(s', "uniqueItems")) && SameKind(Get(s, "items"), Get(s', "items"));
    assert SameKind(Get(s, "additionalItems"), Get(s', "additionalItems"));
  }

  lemma StringFindingsAlike(c: Context, c': Context, w: Wording, s: Json, s': Json, text: string, path: string)
    requires SameKeywords(s, s') && c' == c.(root := c'.root)
    ensures StringFindings(c', w, s', text, path) == StringFindings(c, w, s, text, path)
  {
    assert SameKind(Get(s, "minLength"), Get(s', "minLength")) && SameKind(Get(s, "maxLength"), Get(s', "maxLength"));
    assert SameKind(Get(s, "pattern"), Get(s', "pattern"));
  }

  lemma KindFindingsAlike(c: Context, c': Context, w: Wording, s: Json, s': Json, v: Json, path: string)
    requires SameKeywords(s, s') && c' == c.(root := c'.root)
    ensures KindFindings(c', w, s', v, path) == KindFindings(c, w, s, v, path)
  {
    match v {
      case Obj(fields) => ObjectFindingsAlike(w, s, s', fields, path);
      case Arr(items) => ArrayFindingsAlike(w, s, s', items, path);
      case Str(text) => StringFindingsAlike(c, c', w, s, s', text, path);
      case _ =>
    }
  }

  lemma TypeAlike(s: Json, s': Json, v: Json)
    requires SameKind(Get(s, "type"), Get(s', "type"))
    ensures (TypeOk(s, v) <==> TypeOk(s', v)) && (!TypeOk(s, v) ==> Get(s, "type") == Get(s', "type"))
  { }

  lemma EnumAlike(w: Wording, s: Json, s': Json, v: Json, path: string)
    requires SameKind(Get(s, "enum"), Get(s', "enum")) && (Get(s, "enum").Arr? ==> Get(s', "enum") == Get(s, "enum"))
    ensures EnumFindings(w, s', v, path) == EnumFindings(w, s, v, path)
  { }

  lemma OwnFindingsAlike(c: Context, c': Context, w: Wording, s: Json, s': Json, v: Json, path: string)
    requires SameKeywords(s, s') && c' == c.(root := c'.root)
    ensures (TypeOk(s, v) <==> TypeOk(s', v)) && (!TypeOk(s, v) ==> Get(s, "type") == Get(s', "type"))
    ensures OwnFindings(c', w, s', v, path) == OwnFindings(c, w, s, v, path)
  {
    TypeAlike(s, s', v);
    EnumAlike(w, s, s', v, path);
    KindFindingsAlike(c, c', w, s, s', v, path);
  }

  // ----- the checks -----

  /** The same check, up to the order of the lists in its schema. */
  ghost predicate Paired(k: Check, k': Check) {
    k'.value == k.value && k'.step == k.step && Alike(k.schema, k'.schema)
  }

  lemma ChildPaired(s: Json, s': Json, t: Json) returns (t': Json)
    requires Alike(s, s') && t in Items(Get(s, "allOf"))
    ensures t' in Items(Get(s', "allOf")) && Alike(t, t')
  {
    GetAlike(s, s', "allOf");
    var xs, ys := Items(Get(s, "allOf")), Items(Get(s', "allOf"));
    var i :| 0 <= i < |xs| && xs[i] == t;
    assert LikeSome(xs[i], ys);
    var j :| 0 <= j < |ys| && Alike(xs[i], ys[j]);
    t' := ys[j];
  }

  lemma SameChecksPaired(c: Context, c': Context, s: Json, s': Json, v: Json, k: Check) returns (k': Check)
    requires Alike(c.root, c'.root) && Alike(s, s') && k in SameChecks(c, s, v)
    ensures k' in SameChecks(c', s', v) && Paired(k, k')
  {
    if k.schema in Items(Get(s, "allOf")) {
      var t' := ChildPaired(s, s', k.schema);
      k' := Check(t', v, "");
    } else {
      PointerAlike(c.root, c'.root, Get(s, "$ref").s);
      GetAlike(s, s', "$ref");
      k' := Check(Pointer(c'.root, Get(s', "$ref").s).value, v, "");
    }
  }

  lemma PropertyChecksPaired(c: Context, s: Json, s': Json, v: Json, k: Check) returns (k': Check)
    requires Alike(s, s') && Supported(c, s) && k in PropertyChecks(s, v)
    ensures k' in PropertyChecks(s', v) && Paired(k, k')
  {
    var name :| name in v.fields && IsProperty(s, name)
                && k == Check(Get(s, "properties").fields[name], v.fields[name], FieldStep(name));
    FieldAlike(c, s, s', "properties", name);
    k' := Check(Get(s', "properties").fields[name], v.fields[name], FieldStep(name));
  }

  lemma ItemSchemaAlike(s: Json, s': Json, i: nat)
    requires Alike(s, s') && ItemSchema(s, i).Some?
    ensures ItemSchema(s', i).Some? && Alike(ItemSchema(s, i).value, ItemSchema(s', i).value)
  {
    ListAlike(s, s', "items");
  }

  lemma ItemChecksPaired(s: Json, s': Json, v: Json, k: Check) returns (k': Check)
    requires Alike(s, s') && k in ItemChecks(s, v)
    ensures k' in ItemChecks(s', v) && Paired(k, k')
  {
    var i: nat :| i < |v.items| && ItemSchema(s, i).Some? && k == Check(ItemSchema(s, i).value, v.items[i], ItemStep(i));
    ItemSchemaAlike(s, s', i);
    k' := Check(ItemSchema(s', i).value, v.items[i], ItemStep(i));
  }

  lemma ChecksPaired(c: Context, c': Context, s: Json, s': Json, v: Json, k: Check) returns (k': Check)
    requires Alike(c.root, c'.root) && Alike(s, s') && Supported(c, s) && k in Checks(c, s, v)
    requires TypeOk(s, v) <==> TypeOk(s', v)
    ensures k' in Checks(c', s', v) && Paired(k, k')
  {
    if k in SameChecks(c, s, v) {
      k' := SameChecksPaired(c, c', s, s', v, k);
    } else if k in PropertyChecks(s, v) {
      k' := PropertyChecksPaired(c, s, s', v, k);
    } else {
      k' := ItemChecksPaired(s, s', v, k);
    }
  }

  // ----- the result -----

  /** Two contexts whose roots differ in the order of lists only, each with its rank table. */
  ghost predicate AlikeContexts(c: Context, rank: map<Json, nat>, c': Context, rank': map<Json, nat>) {
    c' == c.(root := c'.root) && Alike(c.root, c'.root) && Covered(c, rank) && Covered(c', rank')
  }

  /** The two checks come to the same. */
  ghost predicate Agree(c: Context, rank: map<Json, nat>, c': Context, rank': map<Json, nat>, w: Wording, path: string,
                        k: Check, k': Check)
    requires AlikeContexts(c, rank, c', rank')
  {
    && k.schema in rank && k'.schema in rank'
    && (Raises(c, rank, k.schema, k.value) <==> Raises(c', rank', k'.schema, k'.value))
    && Violations(c, rank, w, k.schema, k.value, path + k.step) ==
       Violations(c', rank', w, k'.schema, k'.value, path + k'.step)
  }

  ghost predicate AllAgree(c: Context, rank: map<Json, nat>, c': Context, rank': map<Json, nat>, w: Wording,
                           path: string,
                           checks: set<Check>, checks': set<Check>)
    requires AlikeContexts(c, rank, c', rank')
  {
    && (forall k :: k in checks ==> exists k' :: k' in checks' && Agree(c, rank, c', rank', w, path, k, k'))
    && (forall k' :: k' in checks' ==> exists k :: k in checks && Agree(c, rank, c', rank', w, path, k, k'))
  }

  lemma RaisesAgree(c: Context, rank: map<Json, nat>, c': Context, rank': map<Json, nat>, w: Wording, path: string,
                    s: Json, s': Json, v: Json)
    requires AlikeContexts(c, rank, c', rank') && s in rank && s' in rank' && Supported(c, s) && Supported(c', s')
    requires OwnRaises(c, s, v) <==> OwnRaises(c', s', v)
    requires AllAgree(c, rank, c', rank', w, path, Checks(c, s, v), Checks(c', s', v))
    ensures Raises(c, rank, s, v) <==> Raises(c', rank', s', v)
  {
    ChecksDescend(c, rank, s, v);
    ChecksDescend(c', rank', s', v);
  }

  lemma ViolationsAgree(c: Context, rank: map<Json, nat>, c': Context, rank': map<Json, nat>, w: Wording, path: string,
                        s: Json, s': Json, v: Json)
    requires AlikeContexts(c, rank, c', rank') && s in rank && s' in rank' && Supported(c, s) && Supported(c', s')
    requires TypeOk(s, v) && TypeOk(s', v) && OwnFindings(c', w, s', v, path) == OwnFindings(c, w, s, v, path)
    requires AllAgree(c, rank, c', rank', w, path, Checks(c, s, v), Checks(c', s', v))
    ensures Violations(c, rank, w, s, v, path) == Violations(c', rank', w, s', v, path)
  {
    ChecksDescend(c, rank, s, v);
    ChecksDescend(c', rank', s', v);
  }

  /** Reordering and repeating the children of `allOf` lists, anywhere in the schema and in the root that references are
      resolved in, changes neither whether validation raises nor what it reports. */
  lemma {:induction false} AllOfOrderIrrelevant(c: Context, rank: map<Json, nat>, c': Context, rank': map<Json, nat>,
                                                w: Wording, s: Json, s': Json, v: Json, path: string)
    requires AlikeContexts(c, rank, c', rank') && s in rank && s' in rank' && Alike(s, s')
    ensures Raises(c', rank', s', v) <==> Raises(c, rank, s, v)
    ensures Violations(c', rank', w, s', v, path) == Violations(c, rank, w, s, v, path)
    decreases v, rank[s]
  {
    SupportedIff(c, c', s, s');
    if Supported(c, s) {
      AlikeSameKeywords(s, s');
      OwnFindingsAlike(c, c', w, s, s', v, path);
      OwnRaisesAlike(c, c', s, s', v);
      ChecksDescend(c, rank, s, v);
      ChecksDescend(c', rank', s', v);
      forall k, k' | k in Checks(c, s, v) && k' in Checks(c', s', v) && Paired(k, k')
        ensures Agree(c, rank, c', rank', w, path, k, k')
      {
        AllOfOrderIrrelevant(c, rank, c', rank', w, k.schema, k'.schema, k.value, path + k.step);
      }
      ChecksAgree(c, rank, c', rank', w, path, s, s', v);
      RaisesAgree(c, rank, c', rank', w, path, s, s', v);
      if TypeOk(s, v) {
        ViolationsAgree(c, rank, c', rank', w, path, s, s', v);
      }
    }
  }

  lemma SupportedIff(c: Context, c': Context, s: Json, s': Json)
    requires Alike(s, s') && c' == c.(root := c'.root)
    ensures Supported(c, s) <==> Supported(c', s')
  {
    AlikeSymmetric(s, s');
    if Supported(c, s) {
      SupportedAlike(c, c', s, s');
    } else if Supported(c', s') {
      SupportedAlike(c', c, s', s);
    }
  }

  lemma ChecksAgree(c: Context, rank: map<Json, nat>, c': Context, rank': map<Json, nat>, w: Wording, path: string,
                    s: Json, s': Json, v: Json)
    requires AlikeContexts(c, rank, c', rank') && Alike(s, s') && Supported(c, s) && Supported(c', s')
    requires TypeOk(s, v) <==> TypeOk(s', v)
    requires forall k, k' :: k in Checks(c, s, v) && k' in Checks(c', s', v) && Paired(k, k') ==>
               Agree(c, rank, c', rank', w, path, k, k')
    ensures AllAgree(c, rank, c', rank', w, path, Checks(c, s, v), Checks(c', s', v))
  {
    forall k | k in Checks(c, s, v)
      ensures exists k' :: k' in Checks(c', s', v) && Agree(c, rank, c', rank', w, path, k, k')
    {
      var k' := ChecksPaired(c, c', s, s', v, k);
    }
    AlikeSymmetric(s, s');
    AlikeSymmetric(c.root, c'.root);
    forall k' | k' in Checks(c', s', v)
      ensures exists k :: k in Checks(c, s, v) && Agree(c, rank, c', rank', w, path, k, k')
    {
      var k := ChecksPaired(c', c, s', s, v, k');
      AlikeSymmetric(k'.schema, k.schema);
      assert Paired(k, k');
    }
  }
}

/** json_contract: every keyword in its own terms: when it holds, what is reported if not, and what is supported. */
module JsonMeaning {
  import opened Wrappers
  import opened Text
  import opened JsonSchema
  import opened JsonContract
  import opened JsonTheorems

  // ----- types -----

  /** A schema that only names a type. */
  predicate TypeOnly(s: Json, kind: string) {
    s.Obj? && s.fields.Keys == {"type"} && s.fields["type"] == Str(kind)
  }

  lemma TypeOnlySupported(c: Context, s: Json, kind: string)
    requires TypeOnly(s, kind)
    ensures Supported(c, s) <==>
              kind == "object" || kind == "array" || kind == "string" || kind == "boolean" || kind == "null"
  {
    assert KeysKnown(s) && ApplicatorsSupported(s);
    assert Get(s, "required") == Null && Get(s, "enum") == Null && Get(s, "pattern") == Null;
  }

  lemma TypeOnlyChecks(c: Context, s: Json, kind: string, v: Json)
    requires TypeOnly(s, kind)
    ensures Checks(c, s, v) == {} && !OwnRaises(c, s, v)
  {
    assert Get(s, "$ref") == Null && Get(s, "allOf") == Null && Get(s, "properties") == Null && Get(s, "items") == Null;
    assert PropertyChecks(s, v) == {} && ItemChecks(s, v) == {};
  }

  lemma TypeOnlyOwn(c: Context, w: Wording, s: Json, kind: string, v: Json, path: string)
    requires TypeOnly(s, kind) && TypeOk(s, v)
    ensures OwnFindings(c, w, s, v, path) == {}
  {
    assert Get(s, "enum") == Null && Get(s, "required") == Null && !Has(s, "additionalProperties");
    assert Get(s, "minItems") == Null && Get(s, "maxItems") == Null && Get(s, "uniqueItems") == Null;
    assert Get(s, "items") == Null && Get(s, "minLength") == Null && Get(s, "maxLength") == Null;
    assert Get(s, "pattern") == Null;
  }

  /** The five types: what they accept, and the one finding for everything else. */
  lemma TypeMeans(c: Context, rank: map<Json, nat>, w: Wording, s: Json, kind: string, v: Json, path: string)
    requires Covered(c, rank) && s in rank && TypeOnly(s, kind)
    requires kind == "object" || kind == "array" || kind == "string" || kind == "boolean" || kind == "null"
    ensures !Raises(c, rank, s, v)
    ensures var fits := (kind == "object" && v.Obj?) || (kind == "array" && v.Arr?) || (kind == "string" && v.Str?)
                        || (kind == "boolean" && v.Bool?) || (kind == "null" && v.Null?);
            && (Satisfies(c, rank, s, v) <==> fits)
            && Violations(c, rank, w, s, v, path) == if fits then {} else {Finding(path, w(Expected(kind)))}
  {
    TypeOnlySupported(c, s, kind);
    TypeOnlyChecks(c, s, kind, v);
    assert Get(s, "type") == Str(kind);
    if TypeOk(s, v) {
      TypeOnlyOwn(c, w, s, kind, v, path);
      OwnSound(c, w, s, v, path);
    }
  }

  /** The type of any schema: without a name, or with one that fits. */
  lemma TypeOkMeans(s: Json, v: Json)
    requires s.Obj?
    ensures TypeOk(s, v) <==>
            forall kind :: Under(s, "type", Str(kind)) ==>
              || (kind == "object" && v.Obj?) || (kind == "array" && v.Arr?) || (kind == "string" && v.Str?)
              || (kind == "boolean" && v.Bool?) || (kind == "null" && v.Null?)
  {
    if Get(s, "type").Str? {
      assert Under(s, "type", Str(Get(s, "type").s));
    }
  }

  // ----- the other keywords of a node -----

  /** Under the key of a schema. */
  predicate Under(s: Json, key: string, value: Json) {
    s.Obj? && key in s.fields && s.fields[key] == value
  }

  /** The name is listed as required. */
  predicate Requires(s: Json, name: string) {
    s.Obj? && "required" in s.fields && s.fields["required"].Arr? && Str(name) in s.fields["required"].items
  }

  /** A property with this name is declared. */
  predicate Declares(s: Json, name: string) {
    s.Obj? && "properties" in s.fields && s.fields["properties"].Obj? && name in s.fields["properties"].fields
  }

  /** Anything but true forbids undeclared properties, absence does not. */
  predicate Closes(s: Json) {
    s.Obj? && "additionalProperties" in s.fields && s.fields["additionalProperties"] != Bool(true)
  }

  lemma ObjectMeans(s: Json, fields: map<string, Json>)
    requires s.Obj?
    ensures ObjectOk(s, fields) <==>
            && (forall name :: Requires(s, name) ==> name in fields)
            && (Closes(s) ==> forall k :: k in fields ==> Declares(s, k))
  {
    forall k ensures IsProperty(s, k) <==> Declares(s, k) { }
    if RequiredOk(s, fields) {
      forall name | Requires(s, name) ensures name in fields {
        var i :| 0 <= i < |Items(Get(s, "required"))| && Items(Get(s, "required"))[i] == Str(name);
      }
    } else {
      var i :| 0 <= i < |Items(Get(s, "required"))| && Items(Get(s, "required"))[i].Str?
               && Items(Get(s, "required"))[i].s !in fields;
      assert Requires(s, Items(Get(s, "required"))[i].s);
    }
  }

  lemma ArrayMeans(s: Json, items: seq<Json>)
    requires s.Obj?
    ensures ArrayOk(s, items) <==>
            && (forall n :: Under(s, "minItems", Int(n)) ==> |items| >= n)
            && (forall n :: Under(s, "maxItems", Int(n)) ==> |items| <= n)
            && (Under(s, "uniqueItems", Bool(true)) ==> forall i, j :: 0 <= i < j < |items| ==> items[i] != items[j])
            && (forall schemas :: Under(s, "items", Arr(schemas)) && Under(s, "additionalItems", Bool(false)) ==>
                  |items| <= |schemas|)
  {
    if Get(s, "minItems").Int? {
      assert Under(s, "minItems", Int(Get(s, "minItems").n));
    }
    if Get(s, "maxItems").Int? {
      assert Under(s, "maxItems", Int(Get(s, "maxItems").n));
    }
    if Get(s, "items").Arr? {
      assert Under(s, "items", Arr(Get(s, "items").items));
    }
  }

  lemma StringMeans(c: Context, s: Json, text: string)
    requires s.Obj?
    ensures StringOk(c, s, text) <==>
            && (forall n :: Under(s, "minLength", Int(n)) ==> |text| >= n)
            && (forall n :: Under(s, "maxLength", Int(n)) ==> |text| <= n)
            && (forall p :: Under(s, "pattern", Str(p)) ==> c.matches(p, text))
  {
    if Get(s, "minLength").Int? {
      assert Under(s, "minLength", Int(Get(s, "minLength").n));
    }
    if Get(s, "maxLength").Int? {
      assert Under(s, "maxLength", Int(Get(s, "maxLength").n));
    }
    if Get(s, "pattern").Str? {
      assert Under(s, "pattern", Str(Get(s, "pattern").s));
    }
  }

  lemma EnumMeans(s: Json, v: Json)
    requires s.Obj? && (Get(s, "enum").Null? || Get(s, "enum").Arr?)
    ensures EnumOk(s, v) <==>
            forall values :: Under(s, "enum", Arr(values)) ==> exists i :: 0 <= i < |values| && PyEq(v, values[i])
  {
    var listed := Items(Get(s, "enum"));
    if Get(s, "enum").Arr? {
      assert Under(s, "enum", Arr(listed));
      forall values | Under(s, "enum", Arr(values)) ensures values == listed { }
      if i :| 0 <= i < |listed| && PyEq(v, listed[i]) { }
    }
  }

  // ----- Python's equality, for all values -----

  /** The value with 1 for true and 0 for false. */
  function Numeric(v: Json): Json
    decreases v
  {
    match v
    case Bool(b) => Int(if b then 1 else 0)
    case Arr(items) => Arr(seq(|items|, i requires 0 <= i < |items| => Numeric(items[i])))
    case Obj(fields) => Obj(map k | k in fields :: Numeric(fields[k]))
    case _ => v
  }

  /** `==` does not tell booleans from the numbers 0 and 1, and nothing else apart from JSON equality. */
  lemma {:induction false} PyEqMeans(a: Json, b: Json)
    ensures PyEq(a, b) <==> Numeric(a) == Numeric(b)
    decreases a
  {
    match a {
      case Arr(xs) =>
        if b.Arr? && |xs| == |b.items| {
          forall i | 0 <= i < |xs| ensures PyEq(xs[i], b.items[i]) <==> Numeric(xs[i]) == Numeric(b.items[i]) {
            PyEqMeans(xs[i], b.items[i]);
          }
        }
        ArraysEqual(a, b);
      case Obj(fs) =>
        if b.Obj? && fs.Keys == b.fields.Keys {
          forall k | k in fs ensures PyEq(fs[k], b.fields[k]) <==> Numeric(fs[k]) == Numeric(b.fields[k]) {
            PyEqMeans(fs[k], b.fields[k]);
          }
        }
        ObjectsEqual(a, b);
      case _ =>
    }
  }

  lemma ArraysEqual(a: Json, b: Json)
    requires a.Arr?
    requires b.Arr? && |a.items| == |b.items| ==>
               forall i :: 0 <= i < |a.items| ==> (PyEq(a.items[i], b.items[i]) <==> Numeric(a.items[i]) == Numeric(b.items[i]))
    ensures PyEq(a, b) <==> Numeric(a) == Numeric(b)
  {
    if b.Arr? {
      var xs, ys := Numeric(a).items, Numeric(b).items;
      assert |xs| == |a.items| && |ys| == |b.items|;
      if |xs| == |ys| {
        forall i | 0 <= i < |xs| ensures xs[i] == Numeric(a.items[i]) && ys[i] == Numeric(b.items[i]) { }
        SameItems(xs, ys);
      }
    }
  }

  lemma ObjectsEqual(a: Json, b: Json)
    requires a.Obj?
    requires b.Obj? && a.fields.Keys == b.fields.Keys ==>
               forall k :: k in a.fields ==> (PyEq(a.fields[k], b.fields[k]) <==> Numeric(a.fields[k]) == Numeric(b.fields[k]))
    ensures PyEq(a, b) <==> Numeric(a) == Numeric(b)
  {
    if b.Obj? {
      var f, g := Numeric(a).fields, Numeric(b).fields;
      assert f.Keys == a.fields.Keys && g.Keys == b.fields.Keys;
      if f.Keys == g.Keys {
        forall k | k in f ensures f[k] == Numeric(a.fields[k]) && g[k] == Numeric(b.fields[k]) { }
        SameFields(f, g);
      }
    }
  }

  lemma SameItems(xs: seq<Json>, ys: seq<Json>)
    requires |xs| == |ys|
    ensures xs == ys <==> forall i :: 0 <= i < |xs| ==> xs[i] == ys[i]
  { }

  lemma SameFields(f: map<string, Json>, g: map<string, Json>)
    requires f.Keys == g.Keys
    ensures f == g <==> forall k :: k in f ==> f[k] == g[k]
  { }

  // ----- what is reported -----

  ghost predicate TellsApart(w: Wording) {
    forall m, m' :: w(m) == w(m') ==> m == m'
  }

  /** Each message of a node, with the place it is about and the fault it names. */
  lemma ObjectFindingsMean(w: Wording, s: Json, fields: map<string, Json>, path: string, m: Message, p: string)
    requires TellsApart(w) && s.Obj?
    ensures Finding(p, w(m)) in ObjectFindings(w, s, fields, path) <==>
            match m
            case MissingField =>
              exists name :: Requires(s, name) && name !in fields && p == path + ("." + name)
            case UnexpectedField => exists k :: k in fields && !Declares(s, k) && Closes(s) && p == path + ("." + k)
            case _ => false
  {
    forall k ensures IsProperty(s, k) <==> Declares(s, k) { }
    match m {
      case MissingField => MissingMean(w, s, fields, path, p);
      case UnexpectedField =>
        assert Finding(p, w(m)) in ObjectFindings(w, s, fields, path) <==>
            Finding(p, w(m)) in UnexpectedFindings(w, s, fields.Keys, path);
      case _ =>
    }
  }

  lemma MissingMean(w: Wording, s: Json, fields: map<string, Json>, path: string, p: string)
    requires TellsApart(w) && s.Obj?
    ensures Finding(p, w(MissingField)) in ObjectFindings(w, s, fields, path) <==>
              exists name :: Requires(s, name) && name !in fields && p == path + ("." + name)
  {
    var f := Finding(p, w(MissingField));
    if f in ObjectFindings(w, s, fields, path) {
      assert f in MissingFindings(w, s, fields, path);
      var i :| 0 <= i < |Items(Get(s, "required"))| && Items(Get(s, "required"))[i].Str?
               && Items(Get(s, "required"))[i].s !in fields && f.path == path + FieldStep(Items(Get(s, "required"))[i].s);
      assert Requires(s, Items(Get(s, "required"))[i].s);
    }
    if name :| Requires(s, name) && name !in fields && p == path + ("." + name) {
      var i :| 0 <= i < |Items(Get(s, "required"))| && Items(Get(s, "required"))[i] == Str(name);
      assert f == Finding(path + FieldStep(Items(Get(s, "required"))[i].s), w(MissingField));
      assert f in MissingFindings(w, s, fields, path);
    }
  }

  lemma TooFewMean(w: Wording, s: Json, items: seq<Json>, path: string, n: int, p: string)
    requires TellsApart(w) && s.Obj?
    ensures Finding(p, w(AtLeastItems(n))) in ArrayFindings(w, s, items, path) <==>
              Under(s, "minItems", Int(n)) && |items| < n && p == path
  { }

  lemma TooManyMean(w: Wording, s: Json, items: seq<Json>, path: string, n: int, p: string)
    requires TellsApart(w) && s.Obj?
    ensures Finding(p, w(AtMostItems(n))) in ArrayFindings(w, s, items, path) <==>
              Under(s, "maxItems", Int(n)) && |items| > n && p == path
  { }

  lemma DuplicatesMean(w: Wording, s: Json, items: seq<Json>, path: string, p: string)
    requires TellsApart(w) && s.Obj?
    ensures Finding(p, w(DuplicateItem)) in ArrayFindings(w, s, items, path) <==>
              Under(s, "uniqueItems", Bool(true)) &&
              exists i :: 0 <= i < |items| && items[i] in items[..i] && p == path + ("[" + Decimal(i) + "]")
  {
    var f := Finding(p, w(DuplicateItem));
    assert f in ArrayFindings(w, s, items, path) <==>
        Get(s, "uniqueItems") == Bool(true) && f in DuplicateFindings(w, items, |items|, path);
  }

  lemma AdditionalMeans(w: Wording, s: Json, items: seq<Json>, path: string, p: string)
    requires TellsApart(w) && s.Obj?
    ensures Finding(p, w(AdditionalItem)) in ArrayFindings(w, s, items, path) <==>
              exists schemas :: Under(s, "items", Arr(schemas)) && Under(s, "additionalItems", Bool(false))
                                && |items| > |schemas| && p == path + ("[" + Decimal(|schemas|) + "]")
  {
    var schemas := Items(Get(s, "items"));
    OnlyAdditional(w, s, items, path, p);
    if !AdditionalItemsOk(s, items) {
      assert Under(s, "items", Arr(schemas));
    }
  }

  lemma OnlyAdditional(w: Wording, s: Json, items: seq<Json>, path: string, p: string)
    requires TellsApart(w)
    ensures Finding(p, w(AdditionalItem)) in ArrayFindings(w, s, items, path) <==>
              !AdditionalItemsOk(s, items) && p == path + ItemStep(|Items(Get(s, "items"))|)
  { }

  /** The messages of an array. */
  lemma ArrayFindingsMean(w: Wording, s: Json, items: seq<Json>, path: string, m: Message, p: string)
    requires TellsApart(w) && s.Obj?
    ensures Finding(p, w(m)) in ArrayFindings(w, s, items, path) <==>
            match m
            case AtLeastItems(n) => Under(s, "minItems", Int(n)) && |items| < n && p == path
            case AtMostItems(n) => Under(s, "maxItems", Int(n)) && |items| > n && p == path
            case DuplicateItem =>
              Under(s, "uniqueItems", Bool(true)) &&
              exists i :: 0 <= i < |items| && items[i] in items[..i] && p == path + ("[" + Decimal(i) + "]")
            case AdditionalItem =>
              exists schemas :: Under(s, "items", Arr(schemas)) && Under(s, "additionalItems", Bool(false))
                                && |items| > |schemas| && p == path + ("[" + Decimal(|schemas|) + "]")
            case _ => false
  {
    match m {
      case AtLeastItems(n) => TooFewMean(w, s, items, path, n, p);
      case AtMostItems(n) => TooManyMean(w, s, items, path, n, p);
      case DuplicateItem => DuplicatesMean(w, s, items, path, p);
      case AdditionalItem => AdditionalMeans(w, s, items, path, p);
      case _ => NoOtherOfArrays(w, s, items, path, m, p);
    }
  }

  lemma NoOtherOfArrays(w: Wording, s: Json, items: seq<Json>, path: string, m: Message, p: string)
    requires TellsApart(w) && !m.AtLeastItems? && !m.AtMostItems? && !m.DuplicateItem? && !m.AdditionalItem?
    ensures Finding(p, w(m)) !in ArrayFindings(w, s, items, path)
  { }

  lemma StringFindingsMean(c: Context, w: Wording, s: Json, text: string, path: string, m: Message, p: string)
    requires TellsApart(w) && s.Obj?
    ensures Finding(p, w(m)) in StringFindings(c, w, s, text, path) <==>
            p == path &&
            match m
            case AtLeastLength(n) => Under(s, "minLength", Int(n)) && |text| < n
            case AtMostLength(n) => Under(s, "maxLength", Int(n)) && |text| > n
            case NoMatch(pattern) => Under(s, "pattern", Str(pattern)) && !c.matches(pattern, text)
            case _ => false
  { }

  lemma EnumFindingsMean(w: Wording, s: Json, v: Json, path: string, m: Message, p: string)
    requires TellsApart(w) && s.Obj? && (Get(s, "enum").Null? || Get(s, "enum").Arr?)
    ensures Finding(p, w(m)) in EnumFindings(w, s, v, path) <==>
            p == path && m.OneOf? && Under(s, "enum", Arr(m.values))
            && forall i :: 0 <= i < |m.values| ==> !PyEq(v, m.values[i])
  { }

  /** What a node reports itself: its enumeration, and the keywords for the kind of value. */
  lemma OwnFindingsMean(c: Context, w: Wording, s: Json, v: Json, path: string, f: Finding)
    ensures f in OwnFindings(c, w, s, v, path) <==>
            || f in EnumFindings(w, s, v, path)
            || (v.Obj? && f in ObjectFindings(w, s, v.fields, path))
            || (v.Arr? && f in ArrayFindings(w, s, v.items, path))
            || (v.Str? && f in StringFindings(c, w, s, v.s, path))
  { }

  // ----- what inner validations contribute -----

  ghost predicate Reports(c: Context, rank: map<Json, nat>, w: Wording, t: Json, v: Json, path: string, f: Finding)
    requires Covered(c, rank)
  {
    t in rank && f in Violations(c, rank, w, t, v, path)
  }

  ghost predicate ReportsAny(c: Context, rank: map<Json, nat>, w: Wording, checks: set<Check>, path: string, f: Finding)
    requires Covered(c, rank)
  {
    exists k :: k in checks && Reports(c, rank, w, k.schema, k.value, path + k.step, f)
  }

  lemma SameReported(c: Context, rank: map<Json, nat>, w: Wording, s: Json, v: Json, path: string, f: Finding)
    requires Covered(c, rank) && s.Obj?
    ensures ReportsAny(c, rank, w, SameChecks(c, s, v), path, f) <==>
            || (exists ref :: Under(s, "$ref", Str(ref)) && Pointer(c.root, ref).Some?
                              && Reports(c, rank, w, Pointer(c.root, ref).value, v, path, f))
            || (exists children, i :: Under(s, "allOf", Arr(children)) && 0 <= i < |children|
                                      && Reports(c, rank, w, children[i], v, path, f))
  {
    var children := Items(Get(s, "allOf"));
    var fromChildren := set t | t in children :: Check(t, v, "");
    var fromRef := if Get(s, "$ref").Str? && Pointer(c.root, Get(s, "$ref").s).Some?
                   then {Check(Pointer(c.root, Get(s, "$ref").s).value, v, "")} else {};
    assert SameChecks(c, s, v) == fromRef + fromChildren;
    if Get(s, "$ref").Str? {
      assert Under(s, "$ref", Str(Get(s, "$ref").s));
    }
    RefReported(c, rank, w, fromRef, v, path, f);
    ChildrenReported(c, rank, w, children, v, path, f);
    if Get(s, "allOf").Arr? {
      assert Under(s, "allOf", Arr(children));
    }
  }

  lemma RefReported(c: Context, rank: map<Json, nat>, w: Wording, checks: set<Check>, v: Json, path: string, f: Finding)
    requires Covered(c, rank) && forall k :: k in checks ==> k.value == v && k.step == ""
    ensures ReportsAny(c, rank, w, checks, path, f) <==>
            exists k :: k in checks && Reports(c, rank, w, k.schema, v, path, f)
  {
    assert path + "" == path;
  }

  lemma ChildrenReported(c: Context, rank: map<Json, nat>, w: Wording, children: seq<Json>, v: Json, path: string,
                         f: Finding)
    requires Covered(c, rank)
    ensures ReportsAny(c, rank, w, set t | t in children :: Check(t, v, ""), path, f) <==>
            exists i :: 0 <= i < |children| && Reports(c, rank, w, children[i], v, path, f)
  {
    var checks := set t | t in children :: Check(t, v, "");
    RefReported(c, rank, w, checks, v, path, f);
    if i :| 0 <= i < |children| && Reports(c, rank, w, children[i], v, path, f) {
      assert Check(children[i], v, "") in checks;
    }
  }

  lemma PropertyReported(c: Context, rank: map<Json, nat>, w: Wording, s: Json, v: Json, path: string, f: Finding)
    requires Covered(c, rank) && s.Obj?
    ensures ReportsAny(c, rank, w, PropertyChecks(s, v), path, f) <==>
            v.Obj? && exists k :: k in v.fields && Declares(s, k)
                                  && Reports(c, rank, w, s.fields["properties"].fields[k], v.fields[k], path + ("." + k), f)
  {
    if v.Obj? {
      forall k ensures IsProperty(s, k) <==> Declares(s, k) { }
      if k :| k in v.fields && Declares(s, k)
              && Reports(c, rank, w, s.fields["properties"].fields[k], v.fields[k], path + ("." + k), f) {
        assert Check(s.fields["properties"].fields[k], v.fields[k], FieldStep(k)) in PropertyChecks(s, v);
      }
    }
  }

  /** The schema that stands at one position: `items` itself, or its entry. */
  predicate ForItem(s: Json, i: nat, t: Json) {
    s.Obj? && "items" in s.fields &&
    ((s.fields["items"].Obj? && t == s.fields["items"])
     || (s.fields["items"].Arr? && i < |s.fields["items"].items| && t == s.fields["items"].items[i]))
  }

  lemma ItemReported(c: Context, rank: map<Json, nat>, w: Wording, s: Json, v: Json, path: string, f: Finding)
    requires Covered(c, rank) && s.Obj?
    ensures ReportsAny(c, rank, w, ItemChecks(s, v), path, f) <==>
            v.Arr? && exists i: nat, t :: i < |v.items| && ForItem(s, i, t)
                                          && Reports(c, rank, w, t, v.items[i], path + ("[" + Decimal(i) + "]"), f)
  {
    if v.Arr? {
      forall i: nat, t ensures ItemSchema(s, i) == Some(t) <==> ForItem(s, i, t) { }
      if i: nat, t :| i < |v.items| && ForItem(s, i, t)
                      && Reports(c, rank, w, t, v.items[i], path + ("[" + Decimal(i) + "]"), f) {
        assert ItemSchema(s, i) == Some(t);
        assert Check(t, v.items[i], ItemStep(i)) in ItemChecks(s, v);
      }
      if k :| k in ItemChecks(s, v) && Reports(c, rank, w, k.schema, k.value, path + k.step, f) {
        var i: nat :| i < |v.items| && ItemSchema(s, i).Some? && k == Check(ItemSchema(s, i).value, v.items[i], ItemStep(i));
        assert ForItem(s, i, k.schema);
      }
    }
  }

  /** Where the type fits, a finding is one of the node's own, or comes from the reference, an `allOf` child, a declared
      property or an item, with its place; where it does not, there is one finding. */
  lemma FindingsMean(c: Context, rank: map<Json, nat>, w: Wording, s: Json, v: Json, path: string, f: Finding)
    requires Covered(c, rank) && s in rank && Supported(c, s)
    ensures TypeOk(s, v) ==>
              (f in Violations(c, rank, w, s, v, path) <==>
                 || f in OwnFindings(c, w, s, v, path)
                 || ReportsAny(c, rank, w, SameChecks(c, s, v), path, f)
                 || ReportsAny(c, rank, w, PropertyChecks(s, v), path, f)
                 || ReportsAny(c, rank, w, ItemChecks(s, v), path, f))
    ensures !TypeOk(s, v) ==> Violations(c, rank, w, s, v, path) == {Finding(path, w(Expected(Get(s, "type").s)))}
  {
    ChecksDescend(c, rank, s, v);
    if TypeOk(s, v) {
      assert f in Violations(c, rank, w, s, v, path) <==>
          f in OwnFindings(c, w, s, v, path) || ReportsAny(c, rank, w, Checks(c, s, v), path, f);
    }
  }

  // ----- what is supported, and what raises -----

  /** Absent or an explicit null. */
  predicate Unset(s: Json, key: string)
    requires s.Obj?
  {
    key !in s.fields || s.fields[key] == Null
  }

  predicate KnownKeyword(k: string) {
    k in {"$schema", "$id", "title", "description", "default", "examples",
          "$ref", "allOf", "type", "required", "additionalProperties", "properties", "definitions", "enum",
          "minLength", "maxLength", "pattern", "minItems", "maxItems", "uniqueItems", "items", "additionalItems"}
  }

  predicate IsCount(j: Json) {
    j.Int? && j.n >= 0
  }

  predicate IsNameList(j: Json) {
    j.Arr? && forall i :: 0 <= i < |j.items| ==> j.items[i].Str?
  }

  /** The values that assertion keywords may have. */
  lemma AssertionsMean(c: Context, s: Json)
    requires s.Obj?
    ensures AssertionsSupported(c, s) <==>
            && (Unset(s, "type") || s.fields["type"] == Str("object") || s.fields["type"] == Str("array")
                || s.fields["type"] == Str("string") || s.fields["type"] == Str("boolean") || s.fields["type"] == Str("null"))
            && (Unset(s, "required") || IsNameList(s.fields["required"]))
            && (Unset(s, "enum") || s.fields["enum"].Arr?)
            && (Unset(s, "minLength") || IsCount(s.fields["minLength"]))
            && (Unset(s, "maxLength") || IsCount(s.fields["maxLength"]))
            && (Unset(s, "minItems") || IsCount(s.fields["minItems"]))
            && (Unset(s, "maxItems") || IsCount(s.fields["maxItems"]))
            && (Unset(s, "pattern") || (s.fields["pattern"].Str? && c.compiles(s.fields["pattern"].s)))
            && (Unset(s, "uniqueItems") || s.fields["uniqueItems"].Bool?)
  { }

  /** The values that the other keywords may have. */
  lemma ApplicatorsMean(s: Json)
    requires s.Obj?
    ensures ApplicatorsSupported(s) <==>
            && (Unset(s, "$ref") || s.fields["$ref"].Str?)
            && (Unset(s, "additionalProperties") || s.fields["additionalProperties"].Bool?)
            && (Unset(s, "additionalItems") || s.fields["additionalItems"].Bool?)
            && (Unset(s, "properties") || s.fields["properties"].Obj?)
            && (Unset(s, "definitions") || s.fields["definitions"].Obj?)
            && (Unset(s, "items") || s.fields["items"].Obj? || s.fields["items"].Arr?)
            && (Unset(s, "allOf") || s.fields["allOf"].Arr?)
  { }

  lemma KeysMean(s: Json)
    requires s.Obj?
    ensures KeysKnown(s) <==> forall k :: k in s.fields ==> KnownKeyword(k)
  { }

  /** A node is supported exactly when its own keywords are and all schemas inside it are. */
  lemma SupportedMeans(c: Context, s: Json)
    ensures Supported(c, s) <==>
            && s.Obj? && KeysKnown(s) && AssertionsSupported(c, s) && ApplicatorsSupported(s)
            && forall u :: u in Inside(s) ==> Supported(c, u)
  {
    if Supported(c, s) {
      forall u | u in Inside(s) ensures Supported(c, u) {
        InsideSupported(c, s, u);
      }
    } else if s.Obj? && KeysKnown(s) && AssertionsSupported(c, s) && ApplicatorsSupported(s)
              && forall u :: u in Inside(s) ==> Supported(c, u) {
      InsideGives(c, s);
    }
  }

  /** The schemas inside a node. */
  lemma InsideMeans(s: Json, u: Json)
    requires s.Obj?
    ensures u in Inside(s) <==>
            || (exists k, fs :: (Under(s, "properties", Obj(fs)) || Under(s, "definitions", Obj(fs))) && k in fs && fs[k] == u)
            || (u.Obj? && Under(s, "items", u))
            || (exists i, us :: (Under(s, "items", Arr(us)) || Under(s, "allOf", Arr(us))) && 0 <= i < |us| && us[i] == u)
  {
    if Get(s, "properties").Obj? {
      assert Under(s, "properties", Obj(Get(s, "properties").fields));
    }
    if Get(s, "definitions").Obj? {
      assert Under(s, "definitions", Obj(Get(s, "definitions").fields));
    }
    if Get(s, "items").Arr? {
      assert Under(s, "items", Arr(Get(s, "items").items));
    }
    if Get(s, "allOf").Arr? {
      assert Under(s, "allOf", Arr(Get(s, "allOf").items));
    }
  }

  lemma InsideGives(c: Context, s: Json)
    requires s.Obj? && KeywordsSupported(c, s) && forall u :: u in Inside(s) ==> Supported(c, u)
    ensures Supported(c, s)
  {
    assert "properties" in s.fields ==> Get(s, "properties") == s.fields["properties"];
    assert "definitions" in s.fields ==> Get(s, "definitions") == s.fields["definitions"];
    assert "items" in s.fields ==> Get(s, "items") == s.fields["items"];
    assert "allOf" in s.fields ==> Get(s, "allOf") == s.fields["allOf"];
  }

  /** A supported node raises by itself where its reference names no object of the root, and where an explicit null is
      iterated over: `allOf` always, `required` and `properties` on objects of fitting type, the latter unless empty. */
  lemma OwnRaisesMeans(c: Context, s: Json, v: Json)
    requires s.Obj?
    ensures OwnRaises(c, s, v) <==>
            || (exists ref :: Under(s, "$ref", Str(ref)) && Pointer(c.root, ref) == None)
            || Under(s, "allOf", Null)
            || (TypeOk(s, v) && v.Obj? && Under(s, "required", Null))
            || (TypeOk(s, v) && v.Obj? && Under(s, "properties", Null) && v.fields != map[])
  {
    if Get(s, "$ref").Str? {
      assert Under(s, "$ref", Str(Get(s, "$ref").s));
    }
  }

  /** Validation raises exactly where a schema is unsupported, or the node raises by itself, or a call inside raises. */
  lemma RaisesMeans(c: Context, rank: map<Json, nat>, s: Json, v: Json)
    requires Covered(c, rank) && s in rank
    ensures Raises(c, rank, s, v) <==>
            || !Supported(c, s) || OwnRaises(c, s, v)
            || exists k :: k in Checks(c, s, v) && k.schema in rank && Raises(c, rank, k.schema, k.value)
  {
    if Supported(c, s) {
      ChecksDescend(c, rank, s, v);
    }
  }
}

/** json_contract.validate_instance as it runs: it collects findings in one list, then removes repetitions and sorts. */
module JsonValidator {
  import opened Wrappers
  import opened Ordering
  import opened JsonSchema
  import opened JsonContract
  import opened JsonMeaning

  /** The list collected so far; None when validation raises. */
  type Outcome = Option<seq<Finding>>

  /** The order of `(path, message)` pairs. */
  predicate FindingLe(a: Finding, b: Finding) {
    if a.path != b.path then TextLe(a.path, b.path) else TextLe(a.message, b.message)
  }

  lemma FindingOrder()
    ensures TotalOrder(FindingLe)
  {
    TextOrder();
  }

  /** The arguments of one call. */
  datatype Call = Call(c: Context, w: Wording, s: Json, v: Json, path: string)

  /** The checks of this call may be made: each is smaller than the call. */
  ghost predicate Ready(call: Call, rank: map<Json, nat>, verdicts: Verdicts) {
    && Covered(call.c, rank) && call.s in rank && Judged(call, rank, verdicts)
    && forall k :: k in Checks(call.c, call.s, call.v) ==> Descends(rank, call.s, call.v, k)
  }

  predicate RequiredNames(s: Json) {
    forall i :: 0 <= i < |Items(Get(s, "required"))| ==> Items(Get(s, "required"))[i].Str?
  }

  /** What the checks come to: which of them raise, and what the others report. */
  datatype Verdicts = Verdicts(raises: iset<Check>, reports: Check -> set<Finding>)

  ghost predicate CheckRaises(call: Call, rank: map<Json, nat>, k: Check)
    requires Covered(call.c, rank)
  {
    k.schema in rank && Raises(call.c, rank, k.schema, k.value)
  }

  ghost function CheckReports(call: Call, rank: map<Json, nat>, k: Check): set<Finding>
    requires Covered(call.c, rank)
  {
    if k.schema in rank then Violations(call.c, rank, call.w, k.schema, k.value, call.path + k.step) else {}
  }

  ghost predicate Judged(call: Call, rank: map<Json, nat>, verdicts: Verdicts)
    requires Covered(call.c, rank)
  {
    && (forall k {:trigger CheckRaises(call, rank, k)} :: k in verdicts.raises <==> CheckRaises(call, rank, k))
    && (forall k {:trigger CheckReports(call, rank, k)} :: verdicts.reports(k) == CheckReports(call, rank, k))
  }

  /** The list holds the findings of this node itself and those of the checks done, none of which raised. */
  ghost predicate Collected(verdicts: Verdicts, done: set<Check>, own: set<Finding>, findings: seq<Finding>) {
    && (forall k :: k in done ==> k !in verdicts.raises)
    && (forall f :: f in findings <==> f in own || exists k :: k in done && f in verdicts.reports(k))
  }

  ghost predicate SomeRaises(verdicts: Verdicts, checks: set<Check>) {
    exists k :: k in checks && k in verdicts.raises
  }

  lemma CollectCheck(verdicts: Verdicts, done: set<Check>, own: set<Finding>, findings: seq<Finding>, k: Check,
                     inner: seq<Finding>)
    requires Collected(verdicts, done, own, findings)
    requires k !in verdicts.raises && forall f :: f in inner <==> f in verdicts.reports(k)
    ensures Collected(verdicts, done + {k}, own, findings + inner)
  { }

  lemma CollectOwn(verdicts: Verdicts, done: set<Check>, own: set<Finding>, findings: seq<Finding>,
                   more: set<Finding>, listed: seq<Finding>)
    requires Collected(verdicts, done, own, findings)
    requires forall f :: f in listed <==> f in more
    ensures Collected(verdicts, done, own + more, findings + listed)
  { }

  /** `findings.extend(validate_instance(...))`. */
  method Extend(call: Call, ghost rank: map<Json, nat>, ghost verdicts: Verdicts, ghost done: set<Check>,
                ghost own: set<Finding>,
                findings: seq<Finding>, k: Check)
    returns (r: Outcome)
    requires Ready(call, rank, verdicts) && Collected(verdicts, done, own, findings)
    requires Descends(rank, call.s, call.v, k)
    ensures r == None <==> k in verdicts.raises
    ensures r.Some? ==> Collected(verdicts, done + {k}, own, r.value)
    decreases call.v, rank[call.s], 0
  {
    var inner := ValidateInstance(call.c, rank, call.w, k.schema, k.value, call.path + k.step);
    assert k in verdicts.raises <==> CheckRaises(call, rank, k);
    if inner == None { return None; }
    assert verdicts.reports(k) == CheckReports(call, rank, k);
    CollectCheck(verdicts, done, own, findings, k, inner.value);
    return Some(findings + inner.value);
  }

  // ----- `$ref` and `allOf` -----

  method RefPart(call: Call, ghost rank: map<Json, nat>, ghost verdicts: Verdicts)
    returns (r: Outcome, ghost done: set<Check>)
    requires Ready(call, rank, verdicts)
    ensures r == None ==> OwnRaises(call.c, call.s, call.v) || SomeRaises(verdicts, SameChecks(call.c, call.s, call.v))
    ensures r.Some? ==> Collected(verdicts, done, {}, r.value)
    ensures r.Some? ==> !(Get(call.s, "$ref").Str? && Pointer(call.c.root, Get(call.s, "$ref").s) == None)
    ensures r.Some? ==>
              SameChecks(call.c, call.s, call.v) == done + set t | t in Items(Get(call.s, "allOf")) :: Check(t, call.v, "")
    decreases call.v, rank[call.s], 1
  {
    r, done := Some([]), {};
    if Get(call.s, "$ref").Str? {
      var target := ResolvePointer(call.c.root, Get(call.s, "$ref").s);
      if target == None { r := None; return; }
      var check := Check(target.value, call.v, "");
      assert check in SameChecks(call.c, call.s, call.v);
      r := Extend(call, rank, verdicts, done, {}, [], check);
      done := {} + {check};
    }
  }

  method AllOfPart(call: Call, ghost rank: map<Json, nat>, ghost verdicts: Verdicts, ghost done: set<Check>,
                   findings: seq<Finding>) returns (r: Outcome)
    requires Ready(call, rank, verdicts) && Collected(verdicts, done, {}, findings)
    requires forall t :: t in Items(Get(call.s, "allOf")) ==> Check(t, call.v, "") in SameChecks(call.c, call.s, call.v)
    ensures r == None <==> exists t :: t in Items(Get(call.s, "allOf")) && Check(t, call.v, "") in verdicts.raises
    ensures r.Some? ==> Collected(verdicts, done + set t | t in Items(Get(call.s, "allOf")) :: Check(t, call.v, ""), {}, r.value)
    decreases call.v, rank[call.s], 1
  {
    var children := Items(Get(call.s, "allOf"));
    ghost var checks := done;
    r := Some(findings);
    for i := 0 to |children|
      invariant checks == done + set j | 0 <= j < i :: Check(children[j], call.v, "")
      invariant forall j :: 0 <= j < i ==> Check(children[j], call.v, "") !in verdicts.raises
      invariant r.Some? && Collected(verdicts, checks, {}, r.value)
    {
      var check := Check(children[i], call.v, "");
      assert children[i] in children;
      r := Extend(call, rank, verdicts, checks, {}, r.value, check);
      if r == None { return; }
      checks := checks + {check};
    }
    assert checks == done + set t | t in children :: Check(t, call.v, "");
  }

  method SameInstancePart(call: Call, ghost rank: map<Json, nat>, ghost verdicts: Verdicts) returns (r: Outcome)
    requires Ready(call, rank, verdicts)
    ensures r == None ==> OwnRaises(call.c, call.s, call.v) || SomeRaises(verdicts, SameChecks(call.c, call.s, call.v))
    ensures r.Some? ==> Collected(verdicts, SameChecks(call.c, call.s, call.v), {}, r.value)
    ensures r.Some? ==> !(Get(call.s, "$ref").Str? && Pointer(call.c.root, Get(call.s, "$ref").s) == None)
    ensures r.Some? ==> !(Has(call.s, "allOf") && Get(call.s, "allOf").Null?)
    decreases call.v, rank[call.s], 2
  {
    ghost var done;
    r, done := RefPart(call, rank, verdicts);
    if r == None { return; }
    if Has(call.s, "allOf") && Get(call.s, "allOf").Null? { return None; }
    r := AllOfPart(call, rank, verdicts, done, r.value);
  }

  // ----- objects -----

  function Names(items: seq<Json>): (r: seq<string>)
    requires forall i :: 0 <= i < |items| ==> items[i].Str?
    ensures |r| == |items|
  {
    seq(|items|, i requires 0 <= i < |items| => items[i].s)
  }

  lemma SortedNames(items: seq<Json>)
    requires forall i :: 0 <= i < |items| ==> items[i].Str?
    ensures forall k :: k in StableSort(TextLe, Names(items)) <==> exists i :: 0 <= i < |items| && items[i].s == k
  {
    var names := Names(items);
    TextOrder();
    StableSortSorts(TextLe, names);
    forall k ensures k in StableSort(TextLe, names) <==> exists i :: 0 <= i < |items| && items[i].s == k {
      assert k in StableSort(TextLe, names) <==> k in multiset(names);
      assert k in names ==> exists i :: 0 <= i < |names| && names[i] == k;
      assert forall i :: 0 <= i < |items| ==> names[i] == items[i].s;
    }
  }

  method RequiredPart(w: Wording, s: Json, fields: map<string, Json>, path: string) returns (r: seq<Finding>)
    requires RequiredNames(s)
    ensures forall f :: f in r <==> f in MissingFindings(w, s, fields, path)
  {
    r := [];
    var items := Items(Get(s, "required"));
    var required := StableSort(TextLe, Names(items));
    for i := 0 to |required|
      invariant forall f :: f in r <==>
                  exists j :: 0 <= j < i && required[j] !in fields && f == Finding(path + FieldStep(required[j]), w(MissingField))
    {
      if required[i] !in fields {
        r := r + [Finding(path + FieldStep(required[i]), w(MissingField))];
      }
    }
    SortedNames(items);
    forall f | f in MissingFindings(w, s, fields, path) ensures f in r {
      var i :| 0 <= i < |items| && items[i].s !in fields && f == Finding(path + FieldStep(items[i].s), w(MissingField));
      assert items[i].s in required;
    }
    forall f | f in r ensures f in MissingFindings(w, s, fields, path) {
      var j :| 0 <= j < |required| && required[j] !in fields && f == Finding(path + FieldStep(required[j]), w(MissingField));
      assert required[j] in required;
    }
  }

  function PropertyCheck(s: Json, fields: map<string, Json>, key: string): Check
    requires key in fields && IsProperty(s, key)
  {
    Check(Get(s, "properties").fields[key], fields[key], FieldStep(key))
  }

  ghost function PastChecks(s: Json, fields: map<string, Json>, past: set<string>): set<Check> {
    set k | k in past && k in fields && IsProperty(s, k) :: PropertyCheck(s, fields, k)
  }

  /** The body of the loop over the keys of the instance. */
  method KeyPart(call: Call, ghost rank: map<Json, nat>, ghost verdicts: Verdicts, ghost done: set<Check>,
                 ghost own: set<Finding>, findings: seq<Finding>,
                 ghost past: set<string>, key: string)
    returns (r: Outcome)
    requires Ready(call, rank, verdicts) && call.v.Obj? && TypeOk(call.s, call.v) && key in call.v.fields
    requires Collected(verdicts, done + PastChecks(call.s, call.v.fields, past),
                       own + UnexpectedFindings(call.w, call.s, past, call.path), findings)
    ensures r == None ==> SomeRaises(verdicts, PropertyChecks(call.s, call.v))
    ensures r.Some? ==>
              Collected(verdicts, done + PastChecks(call.s, call.v.fields, past + {key}),
                        own + UnexpectedFindings(call.w, call.s, past + {key}, call.path), r.value)
    decreases call.v, rank[call.s], 1
  {
    var s, fields := call.s, call.v.fields;
    ghost var checks, mine := done + PastChecks(s, fields, past), own + UnexpectedFindings(call.w, s, past, call.path);
    if IsProperty(s, key) {
      var check := PropertyCheck(s, fields, key);
      assert check in PropertyChecks(s, call.v);
      r := Extend(call, rank, verdicts, checks, mine, findings, check);
      assert checks + {check} == done + PastChecks(s, fields, past + {key});
      assert UnexpectedFindings(call.w, s, past + {key}, call.path) == UnexpectedFindings(call.w, s, past, call.path);
    } else {
      assert checks == done + PastChecks(s, fields, past + {key});
      if AdditionalAllowed(s) {
        r := Some(findings);
        assert UnexpectedFindings(call.w, s, past + {key}, call.path) == UnexpectedFindings(call.w, s, past, call.path);
      } else {
        var f := Finding(call.path + FieldStep(key), call.w(UnexpectedField));
        CollectOwn(verdicts, checks, mine, findings, {f}, [f]);
        r := Some(findings + [f]);
        assert mine + {f} == own + UnexpectedFindings(call.w, s, past + {key}, call.path);
      }
    }
  }

  lemma NoKeys(call: Call, done: set<Check>, own: set<Finding>)
    requires call.v.Obj?
    ensures done + PastChecks(call.s, call.v.fields, {}) == done
    ensures own + UnexpectedFindings(call.w, call.s, {}, call.path) == own
  { }

  lemma AllKeys(call: Call, keys: seq<string>, past: set<string>)
    requires call.v.Obj? && SortedListing(TextLe, call.v.fields.Keys, keys)
    ensures past <= call.v.fields.Keys && (forall j :: 0 <= j < |keys| ==> keys[j] in past) ==>
              past == call.v.fields.Keys && PastChecks(call.s, call.v.fields, past) == PropertyChecks(call.s, call.v)
  {
    forall k | k in call.v.fields.Keys ensures k in keys { }
    if past <= call.v.fields.Keys && forall j :: 0 <= j < |keys| ==> keys[j] in past {
      assert past == call.v.fields.Keys;
    }
  }

  method KeysLoop(call: Call, ghost rank: map<Json, nat>, ghost verdicts: Verdicts, ghost done: set<Check>,
                  ghost own: set<Finding>,
                  findings: seq<Finding>, keys: seq<string>)
    returns (r: Outcome, ghost past: set<string>)
    requires Ready(call, rank, verdicts) && call.v.Obj? && TypeOk(call.s, call.v) && Collected(verdicts, done, own, findings)
    requires forall j :: 0 <= j < |keys| ==> keys[j] in call.v.fields
    ensures r == None ==> SomeRaises(verdicts, PropertyChecks(call.s, call.v))
    ensures r.Some? ==>
              && past <= call.v.fields.Keys && (forall j :: 0 <= j < |keys| ==> keys[j] in past)
              && Collected(verdicts, done + PastChecks(call.s, call.v.fields, past),
                           own + UnexpectedFindings(call.w, call.s, past, call.path), r.value)
    decreases call.v, rank[call.s], 2
  {
    past := {};
    r := Some(findings);
    NoKeys(call, done, own);
    for i := 0 to |keys|
      invariant r.Some? && past <= call.v.fields.Keys && forall j :: 0 <= j < i ==> keys[j] in past
      invariant Collected(verdicts, done + PastChecks(call.s, call.v.fields, past),
                          own + UnexpectedFindings(call.w, call.s, past, call.path), r.value)
    {
      r := KeyPart(call, rank, verdicts, done, own, r.value, past, keys[i]);
      if r == None { return; }
      past := past + {keys[i]};
    }
  }

  method KeysPart(call: Call, ghost rank: map<Json, nat>, ghost verdicts: Verdicts, ghost done: set<Check>,
                  ghost own: set<Finding>, findings: seq<Finding>)
    returns (r: Outcome)
    requires Ready(call, rank, verdicts) && call.v.Obj? && TypeOk(call.s, call.v) && Collected(verdicts, done, own, findings)
    ensures r == None ==> SomeRaises(verdicts, PropertyChecks(call.s, call.v))
    ensures r.Some? ==>
              Collected(verdicts, done + PropertyChecks(call.s, call.v),
                        own + UnexpectedFindings(call.w, call.s, call.v.fields.Keys, call.path), r.value)
    decreases call.v, rank[call.s], 3
  {
    var keys := SortTexts(call.v.fields.Keys);
    ghost var past;
    r, past := KeysLoop(call, rank, verdicts, done, own, findings, keys);
    AllKeys(call, keys, past);
  }

  method ObjectPart(call: Call, ghost rank: map<Json, nat>, ghost verdicts: Verdicts, ghost done: set<Check>,
                    ghost own: set<Finding>, findings: seq<Finding>)
    returns (r: Outcome)
    requires Ready(call, rank, verdicts) && call.v.Obj? && TypeOk(call.s, call.v) && Collected(verdicts, done, own, findings)
    requires RequiredNames(call.s)
    ensures r == None ==> OwnRaises(call.c, call.s, call.v) || SomeRaises(verdicts, PropertyChecks(call.s, call.v))
    ensures r.Some? ==>
              && Collected(verdicts, done + PropertyChecks(call.s, call.v),
                           own + ObjectFindings(call.w, call.s, call.v.fields, call.path), r.value)
              && !(Has(call.s, "required") && Get(call.s, "required").Null?)
              && !(Has(call.s, "properties") && Get(call.s, "properties").Null? && call.v.fields != map[])
    decreases call.v, rank[call.s], 4
  {
    var s, fields := call.s, call.v.fields;
    if Has(s, "required") && Get(s, "required").Null? { return None; }
    var missing := RequiredPart(call.w, s, fields, call.path);
    ghost var absent := MissingFindings(call.w, s, fields, call.path);
    CollectOwn(verdicts, done, own, findings, absent, missing);
    if Has(s, "properties") && Get(s, "properties").Null? && fields != map[] { return None; }
    r := KeysPart(call, rank, verdicts, done, own + absent, findings + missing);
    assert own + absent + UnexpectedFindings(call.w, s, fields.Keys, call.path) == own + ObjectFindings(call.w, s, fields, call.path);
  }

  // ----- arrays -----

  method UniquePart(w: Wording, items: seq<Json>, path: string) returns (r: seq<Finding>)
    ensures forall f :: f in r <==> f in DuplicateFindings(w, items, |items|, path)
  {
    r := [];
    var seen: set<Json> := {};
    for i := 0 to |items|
      invariant forall x :: x in seen <==> x in items[..i]
      invariant forall f :: f in r <==> f in DuplicateFindings(w, items, i, path)
    {
      if items[i] in seen {
        r := r + [Finding(path + ItemStep(i), w(DuplicateItem))];
      }
      seen := seen + {items[i]};
      assert items[..i + 1] == items[..i] + [items[i]];
    }
  }

  /** The findings that do not come from the items themselves. */
  method CountPart(w: Wording, s: Json, items: seq<Json>, path: string) returns (r: seq<Finding>)
    ensures forall f :: f in r <==> f in ArrayFindings(w, s, items, path)
  {
    r := [];
    var min, max := Get(s, "minItems"), Get(s, "maxItems");
    if min.Int? && |items| < min.n {
      r := r + [Finding(path, w(AtLeastItems(min.n)))];
    }
    if max.Int? && |items| > max.n {
      r := r + [Finding(path, w(AtMostItems(max.n)))];
    }
    if Get(s, "uniqueItems") == Bool(true) {
      var repeated := UniquePart(w, items, path);
      r := r + repeated;
    }
    if !AdditionalItemsOk(s, items) {
      r := r + [Finding(path + ItemStep(|Items(Get(s, "items"))|), w(AdditionalItem))];
    }
  }

  /** How many items have a schema: an object applies to every item, an array of schemas stops at the shorter of the two. */
  function Applicable(s: Json, count: nat): (n: nat)
    ensures forall i: nat :: i < n <==> i < count && ItemSchema(s, i).Some?
  {
    var items := Get(s, "items");
    if items.Obj? then count
    else if items.Arr? then if |items.items| < count then |items.items| else count
    else 0
  }

  method ItemsPart(call: Call, ghost rank: map<Json, nat>, ghost verdicts: Verdicts, ghost done: set<Check>,
                   ghost own: set<Finding>, findings: seq<Finding>)
    returns (r: Outcome)
    requires Ready(call, rank, verdicts) && call.v.Arr? && TypeOk(call.s, call.v) && Collected(verdicts, done, own, findings)
    ensures r == None ==> SomeRaises(verdicts, ItemChecks(call.s, call.v))
    ensures r.Some? ==> Collected(verdicts, done + ItemChecks(call.s, call.v), own, r.value)
    decreases call.v, rank[call.s], 1
  {
    var s, values := call.s, call.v.items;
    var n := Applicable(s, |values|);
    r := Some(findings);
    AddNothing(done, ItemChecksTo(s, values, 0));
    for i := 0 to n
      invariant r.Some? && Collected(verdicts, done + ItemChecksTo(s, values, i), own, r.value)
    {
      var check := Check(ItemSchema(s, i).value, values[i], ItemStep(i));
      assert check in ItemChecks(s, call.v);
      r := Extend(call, rank, verdicts, done + ItemChecksTo(s, values, i), own, r.value, check);
      if r == None { return; }
      OneMoreItem(s, values, done, i);
    }
    AllItems(s, call.v, n);
  }

  /** The checks of the items before position n. */
  ghost function ItemChecksTo(s: Json, values: seq<Json>, n: nat): set<Check>
    requires n <= |values|
  {
    set j | 0 <= j < n && ItemSchema(s, j).Some? :: Check(ItemSchema(s, j).value, values[j], ItemStep(j))
  }

  lemma AddNothing(done: set<Check>, none: set<Check>)
    requires none == {}
    ensures done + none == done
  { }

  lemma OneMoreItem(s: Json, values: seq<Json>, done: set<Check>, i: nat)
    requires i < |values| && ItemSchema(s, i).Some?
    ensures done + ItemChecksTo(s, values, i + 1) ==
            done + ItemChecksTo(s, values, i) + {Check(ItemSchema(s, i).value, values[i], ItemStep(i))}
  { }

  lemma AllItems(s: Json, v: Json, n: nat)
    requires v.Arr? && n == Applicable(s, |v.items|)
    ensures ItemChecksTo(s, v.items, n) == ItemChecks(s, v)
  { }

  // ----- strings -----

  method StringPart(c: Context, w: Wording, s: Json, text: string, path: string) returns (r: seq<Finding>)
    ensures forall f :: f in r <==> f in StringFindings(c, w, s, text, path)
  {
    r := [];
    var min, max := Get(s, "minLength"), Get(s, "maxLength");
    if min.Int? && |text| < min.n {
      r := r + [Finding(path, w(AtLeastLength(min.n)))];
    }
    if max.Int? && |text| > max.n {
      r := r + [Finding(path, w(AtMostLength(max.n)))];
    }
    if !PatternOk(c, s, text) {
      r := r + [Finding(path, w(NoMatch(Get(s, "pattern").s)))];
    }
  }

  // ----- the whole validation -----

  /** The keywords of the kind of instance. */
  method KindPart(call: Call, ghost rank: map<Json, nat>, ghost verdicts: Verdicts,
                  ghost done: set<Check>, ghost own: set<Finding>, findings: seq<Finding>)
    returns (r: Outcome)
    requires Ready(call, rank, verdicts) && TypeOk(call.s, call.v) && Collected(verdicts, done, own, findings)
    requires RequiredNames(call.s)
    ensures r == None ==> OwnRaises(call.c, call.s, call.v)
                          || SomeRaises(verdicts, PropertyChecks(call.s, call.v) + ItemChecks(call.s, call.v))
    ensures r.Some? ==>
              && Collected(verdicts, done + (PropertyChecks(call.s, call.v) + ItemChecks(call.s, call.v)),
                           own + KindFindings(call.c, call.w, call.s, call.v, call.path), r.value)
              && !(call.v.Obj? && Has(call.s, "required") && Get(call.s, "required").Null?)
              && !(call.v.Obj? && Has(call.s, "properties") && Get(call.s, "properties").Null? && call.v.fields != map[])
    decreases call.v, rank[call.s], 5
  {
    var s, v, w, path := call.s, call.v, call.w, call.path;
    match v {
      case Obj(fields) =>
        r := ObjectPart(call, rank, verdicts, done, own, findings);
        assert PropertyChecks(s, v) + ItemChecks(s, v) == PropertyChecks(s, v);
      case Arr(items) =>
        var counts := CountPart(w, s, items, path);
        CollectOwn(verdicts, done, own, findings, ArrayFindings(w, s, items, path), counts);
        r := ItemsPart(call, rank, verdicts, done, own + ArrayFindings(w, s, items, path), findings + counts);
        assert PropertyChecks(s, v) + ItemChecks(s, v) == ItemChecks(s, v);
      case Str(text) =>
        var part := StringPart(call.c, w, s, text, path);
        CollectOwn(verdicts, done, own, findings, StringFindings(call.c, w, s, text, path), part);
        r := Some(findings + part);
        assert done + (PropertyChecks(s, v) + ItemChecks(s, v)) == done;
      case _ =>
        r := Some(findings);
        assert done + (PropertyChecks(s, v) + ItemChecks(s, v)) == done && own + {} == own;
    }
  }

  /** What follows the type test. */
  method InstancePart(call: Call, ghost rank: map<Json, nat>, ghost verdicts: Verdicts, ghost done: set<Check>,
                      findings: seq<Finding>)
    returns (r: Outcome)
    requires Ready(call, rank, verdicts) && TypeOk(call.s, call.v) && Collected(verdicts, done, {}, findings)
    requires done == SameChecks(call.c, call.s, call.v) && RequiredNames(call.s)
    requires !(Get(call.s, "$ref").Str? && Pointer(call.c.root, Get(call.s, "$ref").s) == None)
    requires !(Has(call.s, "allOf") && Get(call.s, "allOf").Null?)
    ensures r == None ==> OwnRaises(call.c, call.s, call.v) || SomeRaises(verdicts, Checks(call.c, call.s, call.v))
    ensures r.Some? ==> !OwnRaises(call.c, call.s, call.v)
    ensures r.Some? ==>
              Collected(verdicts, Checks(call.c, call.s, call.v),
                        OwnFindings(call.c, call.w, call.s, call.v, call.path), r.value)
    decreases call.v, rank[call.s], 6
  {
    var s, v, w, path := call.s, call.v, call.w, call.path;
    var enumerated: seq<Finding> := if EnumOk(s, v) then [] else [Finding(path, w(OneOf(Items(Get(s, "enum")))))];
    ghost var own := EnumFindings(w, s, v, path);
    CollectOwn(verdicts, done, {}, findings, own, enumerated);
    assert {} + own == own;
    r := KindPart(call, rank, verdicts, done, own, findings + enumerated);
  }

  lemma CollectedAll(call: Call, rank: map<Json, nat>, verdicts: Verdicts, findings: seq<Finding>)
    requires Ready(call, rank, verdicts) && Supported(call.c, call.s)
    requires TypeOk(call.s, call.v) && !OwnRaises(call.c, call.s, call.v)
    requires Collected(verdicts, Checks(call.c, call.s, call.v),
                       OwnFindings(call.c, call.w, call.s, call.v, call.path), findings)
    ensures !Raises(call.c, rank, call.s, call.v)
    ensures forall f :: f in findings <==> f in Violations(call.c, rank, call.w, call.s, call.v, call.path)
  {
    forall k | k in Checks(call.c, call.s, call.v)
      ensures !Raises(call.c, rank, k.schema, k.value)
      ensures verdicts.reports(k) == Violations(call.c, rank, call.w, k.schema, k.value, call.path + k.step)
    {
      assert k in verdicts.raises <==> CheckRaises(call, rank, k);
      assert verdicts.reports(k) == CheckReports(call, rank, k);
    }
  }

  lemma RaisesIfCheckRaises(call: Call, rank: map<Json, nat>, verdicts: Verdicts)
    requires Ready(call, rank, verdicts) && Supported(call.c, call.s)
    requires OwnRaises(call.c, call.s, call.v) || SomeRaises(verdicts, Checks(call.c, call.s, call.v))
    ensures Raises(call.c, rank, call.s, call.v)
  {
    if SomeRaises(verdicts, Checks(call.c, call.s, call.v)) {
      var k :| k in Checks(call.c, call.s, call.v) && k in verdicts.raises;
      assert CheckRaises(call, rank, k);
    }
  }

  lemma NotRaised(call: Call, rank: map<Json, nat>, verdicts: Verdicts)
    requires Ready(call, rank, verdicts) && Supported(call.c, call.s)
    requires !OwnRaises(call.c, call.s, call.v) && !SomeRaises(verdicts, Checks(call.c, call.s, call.v))
    ensures !Raises(call.c, rank, call.s, call.v)
  {
    forall k | k in Checks(call.c, call.s, call.v) ensures !Raises(call.c, rank, k.schema, k.value) {
      assert k in verdicts.raises <==> CheckRaises(call, rank, k);
    }
  }

  ghost function VerdictsOf(call: Call, rank: map<Json, nat>): (r: Verdicts)
    requires Covered(call.c, rank)
    ensures Judged(call, rank, r)
  {
    Verdicts((iset k: Check | CheckRaises(call, rank, k)),
             (k: Check) => if Covered(call.c, rank) then CheckReports(call, rank, k) else {})
  }

  /** None exactly when validation raises; otherwise the findings, sorted by path and message without repetition. */
  method ValidateInstance(c: Context, ghost rank: map<Json, nat>, w: Wording, s: Json, v: Json, path: string)
    returns (r: Outcome)
    requires Covered(c, rank) && s in rank
    ensures r == None <==> Raises(c, rank, s, v)
    ensures r.Some? ==> SortedListing(FindingLe, Violations(c, rank, w, s, v, path), r.value)
    decreases v, rank[s], 7
  {
    if !Supported(c, s) { return None; }
    var call := Call(c, w, s, v, path);
    ghost var verdicts := VerdictsOf(call, rank);
    ChecksDescend(c, rank, s, v);
    var same := SameInstancePart(call, rank, verdicts);
    if same == None { RaisesIfCheckRaises(call, rank, verdicts); return None; }
    if !TypeOk(s, v) {
      NotRaised(call, rank, verdicts);
      return Some([Finding(path, w(Expected(Get(s, "type").s)))]);
    }
    var part := InstancePart(call, rank, verdicts, SameChecks(c, s, v), same.value);
    if part == None { RaisesIfCheckRaises(call, rank, verdicts); return None; }
    CollectedAll(call, rank, verdicts, part.value);
    FindingOrder();
    var unique := set f | f in part.value;
    var sorted := SortSet(FindingLe, unique);
    return Some(sorted);
  }

  /** A call from outside with a schema that only names a type: no finding, or the one about the type. */
  method ValidateType(c: Context, ghost rank: map<Json, nat>, w: Wording, s: Json, kind: string, v: Json, path: string)
    returns (r: Outcome)
    requires Covered(c, rank) && s in rank && TypeOnly(s, kind)
    requires kind == "object" || kind == "array" || kind == "string" || kind == "boolean" || kind == "null"
    ensures r == Some(if (kind == "object" && v.Obj?) || (kind == "array" && v.Arr?) || (kind == "string" && v.Str?)
                         || (kind == "boolean" && v.Bool?) || (kind == "null" && v.Null?)
                      then [] else [Finding(path, w(Expected(kind)))])
  {
    r := ValidateInstance(c, rank, w, s, v, path);
    TypeMeans(c, rank, w, s, kind, v, path);
    OnlyListing(Violations(c, rank, w, s, v, path), r.value, Finding(path, w(Expected(kind))));
  }

  lemma OnlyListing(all: set<Finding>, listed: seq<Finding>, f: Finding)
    requires SortedListing(FindingLe, all, listed)
    ensures all == {} ==> listed == []
    ensures all == {f} ==> listed == [f]
  {
    FirstTwo(listed);
    assert all == {f} ==> f in listed;
  }

  lemma FirstTwo(xs: seq<Finding>)
    ensures (|xs| > 0 ==> xs[0] in xs) && (|xs| > 1 ==> xs[1] in xs)
  { }
}

/** json_contract: what validation reports, what it means, and when it raises. */
module JsonContract {
  import opened Wrappers
  import opened Text
  import opened JsonSchema

  datatype Message =
    | Expected(kind: string) | OneOf(values: seq<Json>) | MissingField | UnexpectedField
    | AtLeastItems(n: int) | AtMostItems(n: int) | DuplicateItem | AdditionalItem
    | AtLeastLength(n: int) | AtMostLength(n: int) | NoMatch(pattern: string)

  datatype Finding = Finding(path: string, message: string)

  type Wording = Message -> string

  // ----- small pieces -----

  function TypeMatches(v: Json, kind: string): bool {
    match v
    case Obj(_) => kind == "object"
    case Arr(_) => kind == "array"
    case Str(_) => kind == "string"
    case Bool(_) => kind == "boolean"
    case Null => kind == "null"
    case Int(_) => false
  }

  predicate TypeOk(s: Json, v: Json) {
    !Get(s, "type").Str? || TypeMatches(v, Get(s, "type").s)
  }

  predicate IsProperty(s: Json, key: string) {
    Get(s, "properties").Obj? && key in Get(s, "properties").fields
  }

  /** The schema for the array item at one index: `items` itself, its entry of that index, or none. */
  function ItemSchema(s: Json, i: nat): Option<Json> {
    var items := Get(s, "items");
    if items.Obj? then Some(items) else if items.Arr? && i < |items.items| then Some(items.items[i]) else None
  }

  /** Python's `==` on JSON values: `True == 1` and `False == 0`. */
  predicate PyEq(a: Json, b: Json)
    decreases a
  {
    match a
    case Bool(x) => (b.Bool? && x == b.b) || (b.Int? && b.n == if x then 1 else 0)
    case Int(n) => (b.Int? && n == b.n) || (b.Bool? && n == if b.b then 1 else 0)
    case Arr(xs) => b.Arr? && |xs| == |b.items| && forall i :: 0 <= i < |xs| ==> PyEq(xs[i], b.items[i])
    case Obj(fs) => b.Obj? && fs.Keys == b.fields.Keys && forall k :: k in fs ==> PyEq(fs[k], b.fields[k])
    case _ => a == b
  }

  function FieldStep(key: string): string {
    "." + key
  }

  function ItemStep(i: nat): string {
    "[" + Decimal(i) + "]"
  }

  // ----- which schema is applied to which value -----

  /** A value inside the instance, the schema applied to it, and the path that leads to it. */
  datatype Check = Check(schema: Json, value: Json, step: string)

  /** `$ref` and `allOf` apply further schemas to the same instance. */
  function SameChecks(c: Context, s: Json, v: Json): set<Check> {
    (if Get(s, "$ref").Str? && Pointer(c.root, Get(s, "$ref").s).Some?
     then {Check(Pointer(c.root, Get(s, "$ref").s).value, v, "")} else {}) +
    (set t | t in Items(Get(s, "allOf")) :: Check(t, v, ""))
  }

  function PropertyChecks(s: Json, v: Json): set<Check> {
    if v.Obj?
    then set k | k in v.fields && IsProperty(s, k) :: Check(Get(s, "properties").fields[k], v.fields[k], FieldStep(k))
    else {}
  }

  function ItemChecks(s: Json, v: Json): set<Check> {
    if v.Arr?
    then set i | 0 <= i < |v.items| && ItemSchema(s, i).Some? :: Check(ItemSchema(s, i).value, v.items[i], ItemStep(i))
    else {}
  }

  /** A type mismatch returns before the properties and items are looked at. */
  function Checks(c: Context, s: Json, v: Json): set<Check> {
    SameChecks(c, s, v) + (if TypeOk(s, v) then PropertyChecks(s, v) + ItemChecks(s, v) else {})
  }

  // ----- termination -----

  /** The schemas that a node hands the same instance to have smaller ranks, the others have some rank. */
  ghost predicate NodeCovered(c: Context, rank: map<Json, nat>, s: Json)
    requires s in rank
  {
    Supported(c, s) ==>
      && (Get(s, "$ref").Str? && Pointer(c.root, Get(s, "$ref").s).Some? ==>
            var t := Pointer(c.root, Get(s, "$ref").s).value;
            t in rank && rank[t] < rank[s])
      && (forall t :: t in Items(Get(s, "allOf")) ==> t in rank && rank[t] < rank[s])
      && (Get(s, "properties").Obj? ==>
            forall k :: k in Get(s, "properties").fields ==> Get(s, "properties").fields[k] in rank)
      && (Get(s, "items").Obj? ==> Get(s, "items") in rank)
      && (forall t :: t in Items(Get(s, "items")) ==> t in rank)
  }

  /** Chains of `$ref` and `allOf` on one instance are finite from every schema in the table. */
  ghost predicate Covered(c: Context, rank: map<Json, nat>) {
    forall s {:trigger NodeCovered(c, rank, s)} :: s in rank ==> NodeCovered(c, rank, s)
  }

  /** Every check is about a smaller value, or about the same value and a schema of smaller rank. */
  ghost predicate Descends(rank: map<Json, nat>, s: Json, v: Json, k: Check)
    requires s in rank
  {
    k.schema in rank && (k.value < v || (k.value == v && rank[k.schema] < rank[s]))
  }

  lemma ChecksDescend(c: Context, rank: map<Json, nat>, s: Json, v: Json)
    requires Covered(c, rank) && s in rank && Supported(c, s)
    ensures forall k :: k in Checks(c, s, v) ==> Descends(rank, s, v, k)
  {
    assert NodeCovered(c, rank, s);
  }

  // ----- when validation raises -----

  /** An unresolvable reference, or an explicit null where the code iterates. */
  predicate OwnRaises(c: Context, s: Json, v: Json) {
    || (Get(s, "$ref").Str? && Pointer(c.root, Get(s, "$ref").s) == None)
    || (Has(s, "allOf") && Get(s, "allOf").Null?)
    || (TypeOk(s, v) && v.Obj? && Has(s, "required") && Get(s, "required").Null?)
    || (TypeOk(s, v) && v.Obj? && Has(s, "properties") && Get(s, "properties").Null? && v.fields != map[])
  }

  /** `validate_instance` raises. */
  ghost predicate Raises(c: Context, rank: map<Json, nat>, s: Json, v: Json)
    requires Covered(c, rank) && s in rank
    decreases v, rank[s]
  {
    if !Supported(c, s) then true
    else
      ChecksDescend(c, rank, s, v);
      OwnRaises(c, s, v) || exists k :: k in Checks(c, s, v) && Raises(c, rank, k.schema, k.value)
  }

  // ----- what satisfying a schema means -----

  predicate EnumOk(s: Json, v: Json) {
    Get(s, "enum").Null? || exists i :: 0 <= i < |Items(Get(s, "enum"))| && PyEq(v, Items(Get(s, "enum"))[i])
  }

  predicate RequiredOk(s: Json, fields: map<string, Json>) {
    forall i :: 0 <= i < |Items(Get(s, "required"))| ==>
      Items(Get(s, "required"))[i].Str? ==> Items(Get(s, "required"))[i].s in fields
  }

  /** `additionalProperties` absent or true; an explicit null forbids them. */
  predicate AdditionalAllowed(s: Json) {
    !Has(s, "additionalProperties") || Get(s, "additionalProperties") == Bool(true)
  }

  predicate AdditionalOk(s: Json, fields: map<string, Json>) {
    AdditionalAllowed(s) || forall k :: k in fields ==> IsProperty(s, k)
  }

  predicate CountOk(low: Json, high: Json, n: nat) {
    (low.Int? ==> low.n <= n) && (high.Int? ==> n <= high.n)
  }

  predicate UniqueOk(s: Json, items: seq<Json>) {
    Get(s, "uniqueItems") == Bool(true) ==> forall i, j :: 0 <= i < j < |items| ==> items[i] != items[j]
  }

  predicate AdditionalItemsOk(s: Json, items: seq<Json>) {
    Get(s, "items").Arr? && Get(s, "additionalItems") == Bool(false) ==> |items| <= |Get(s, "items").items|
  }

  predicate PatternOk(c: Context, s: Json, text: string) {
    Get(s, "pattern").Str? ==> c.matches(Get(s, "pattern").s, text)
  }

  predicate ObjectOk(s: Json, fields: map<string, Json>) {
    RequiredOk(s, fields) && AdditionalOk(s, fields)
  }

  predicate ArrayOk(s: Json, items: seq<Json>) {
    CountOk(Get(s, "minItems"), Get(s, "maxItems"), |items|) && UniqueOk(s, items) && AdditionalItemsOk(s, items)
  }

  predicate StringOk(c: Context, s: Json, text: string) {
    CountOk(Get(s, "minLength"), Get(s, "maxLength"), |text|) && PatternOk(c, s, text)
  }

  predicate OwnOk(c: Context, s: Json, v: Json) {
    && TypeOk(s, v)
    && EnumOk(s, v)
    && (v.Obj? ==> ObjectOk(s, v.fields))
    && (v.Arr? ==> ArrayOk(s, v.items))
    && (v.Str? ==> StringOk(c, s, v.s))
  }

  /** The declarative meaning: every supported keyword holds, also those beside `$ref`. */
  ghost predicate Satisfies(c: Context, rank: map<Json, nat>, s: Json, v: Json)
    requires Covered(c, rank) && s in rank
    decreases v, rank[s]
  {
    && Supported(c, s)
    && OwnOk(c, s, v)
    && (ChecksDescend(c, rank, s, v);
        forall k :: k in Checks(c, s, v) ==> Satisfies(c, rank, k.schema, k.value))
  }

  // ----- the set of findings -----

  function EnumFindings(w: Wording, s: Json, v: Json, path: string): set<Finding> {
    if EnumOk(s, v) then {} else {Finding(path, w(OneOf(Items(Get(s, "enum")))))}
  }

  function MissingFindings(w: Wording, s: Json, fields: map<string, Json>, path: string): set<Finding> {
    set i | 0 <= i < |Items(Get(s, "required"))| && Items(Get(s, "required"))[i].Str? && Items(Get(s, "required"))[i].s !in fields
         :: Finding(path + FieldStep(Items(Get(s, "required"))[i].s), w(MissingField))
  }

  function UnexpectedFindings(w: Wording, s: Json, keys: set<string>, path: string): set<Finding> {
    set k | k in keys && !IsProperty(s, k) && !AdditionalAllowed(s) :: Finding(path + FieldStep(k), w(UnexpectedField))
  }

  function ObjectFindings(w: Wording, s: Json, fields: map<string, Json>, path: string): set<Finding> {
    MissingFindings(w, s, fields, path) + UnexpectedFindings(w, s, fields.Keys, path)
  }

  function DuplicateFindings(w: Wording, items: seq<Json>, n: nat, path: string): set<Finding>
    requires n <= |items|
  {
    set i | 0 <= i < n && items[i] in items[..i] :: Finding(path + ItemStep(i), w(DuplicateItem))
  }

  function ArrayFindings(w: Wording, s: Json, items: seq<Json>, path: string): set<Finding> {
    var n := |items|;
    var min, max := Get(s, "minItems"), Get(s, "maxItems");
    (if min.Int? && n < min.n then {Finding(path, w(AtLeastItems(min.n)))} else {}) +
    (if max.Int? && n > max.n then {Finding(path, w(AtMostItems(max.n)))} else {}) +
    (if Get(s, "uniqueItems") == Bool(true) then DuplicateFindings(w, items, n, path) else {}) +
    (if AdditionalItemsOk(s, items) then {} else {Finding(path + ItemStep(|Items(Get(s, "items"))|), w(AdditionalItem))})
  }

  function StringFindings(c: Context, w: Wording, s: Json, text: string, path: string): set<Finding> {
    var min, max := Get(s, "minLength"), Get(s, "maxLength");
    (if min.Int? && |text| < min.n then {Finding(path, w(AtLeastLength(min.n)))} else {}) +
    (if max.Int? && |text| > max.n then {Finding(path, w(AtMostLength(max.n)))} else {}) +
    (if PatternOk(c, s, text) then {} else {Finding(path, w(NoMatch(Get(s, "pattern").s)))})
  }

  function KindFindings(c: Context, w: Wording, s: Json, v: Json, path: string): set<Finding> {
    match v
    case Obj(fields) => ObjectFindings(w, s, fields, path)
    case Arr(items) => ArrayFindings(w, s, items, path)
    case Str(text) => StringFindings(c, w, s, text, path)
    case _ => {}
  }

  function OwnFindings(c: Context, w: Wording, s: Json, v: Json, path: string): set<Finding> {
    EnumFindings(w, s, v, path) + KindFindings(c, w, s, v, path)
  }

  /** The findings of `validate_instance` where it does not raise. A type mismatch replaces all others. */
  ghost function Violations(c: Context, rank: map<Json, nat>, w: Wording, s: Json, v: Json, path: string): set<Finding>
    requires Covered(c, rank) && s in rank
    decreases v, rank[s]
  {
    if !Supported(c, s) then {}
    else if !TypeOk(s, v) then {Finding(path, w(Expected(Get(s, "type").s)))}
    else
      ChecksDescend(c, rank, s, v);
      OwnFindings(c, w, s, v, path) +
      set k, f | k in Checks(c, s, v) && f in Violations(c, rank, w, k.schema, k.value, path + k.step) :: f
  }
}

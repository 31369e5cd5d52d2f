/** json_contract: JSON values, schema nodes, and which schemas are supported. */
module JsonSchema {
  import opened Wrappers
  import opened Text

  datatype Json = Null | Bool(b: bool) | Int(n: int) | Str(s: string) | Arr(items: seq<Json>) | Obj(fields: map<string, Json>)

  /** The root schema, and what this model leaves open: the regex engine. */
  datatype Context = Context(root: Json, compiles: string -> bool, matches: (string, string) -> bool)

  /** `schema.get(key)`: an absent keyword and an explicit null look the same. */
  function Get(s: Json, key: string): Json {
    if s.Obj? && key in s.fields then s.fields[key] else Null
  }

  predicate Has(s: Json, key: string) {
    s.Obj? && key in s.fields
  }

  function Items(j: Json): seq<Json> {
    if j.Arr? then j.items else []
  }

  predicate IsAnnotation(key: string) {
    key in {"$schema", "$id", "title", "description", "default", "examples"}
  }

  predicate IsAssertion(key: string) {
    key in {"$ref", "allOf", "type", "required", "additionalProperties", "properties", "definitions", "enum",
            "minLength", "maxLength", "pattern", "minItems", "maxItems", "uniqueItems", "items", "additionalItems"}
  }

  predicate IsSupportedType(kind: string) {
    kind in {"object", "array", "string", "boolean", "null"}
  }

  predicate OptBool(j: Json) {
    j.Null? || j.Bool?
  }

  predicate OptCount(j: Json) {
    j.Null? || (j.Int? && j.n >= 0)
  }

  predicate KeysKnown(s: Json)
    requires s.Obj?
  {
    forall k :: k in s.fields ==> IsAnnotation(k) || IsAssertion(k)
  }

  predicate OptNames(j: Json) {
    j.Null? || (j.Arr? && forall i :: 0 <= i < |j.items| ==> j.items[i].Str?)
  }

  predicate AssertionsSupported(c: Context, s: Json) {
    && (Get(s, "type").Null? || (Get(s, "type").Str? && IsSupportedType(Get(s, "type").s)))
    && OptNames(Get(s, "required"))
    && (Get(s, "enum").Null? || Get(s, "enum").Arr?)
    && OptCount(Get(s, "minLength")) && OptCount(Get(s, "maxLength"))
    && OptCount(Get(s, "minItems")) && OptCount(Get(s, "maxItems"))
    && (Get(s, "pattern").Null? || (Get(s, "pattern").Str? && c.compiles(Get(s, "pattern").s)))
    && OptBool(Get(s, "uniqueItems"))
  }

  predicate ApplicatorsSupported(s: Json) {
    && (Get(s, "$ref").Null? || Get(s, "$ref").Str?)
    && OptBool(Get(s, "additionalProperties"))
    && OptBool(Get(s, "additionalItems"))
    && (Get(s, "properties").Null? || Get(s, "properties").Obj?)
    && (Get(s, "definitions").Null? || Get(s, "definitions").Obj?)
    && (Get(s, "items").Null? || Get(s, "items").Obj? || Get(s, "items").Arr?)
    && (Get(s, "allOf").Null? || Get(s, "allOf").Arr?)
  }

  /** The checks of one schema node that do not look into child schemas. */
  predicate KeywordsSupported(c: Context, s: Json)
    requires s.Obj?
  {
    KeysKnown(s) && AssertionsSupported(c, s) && ApplicatorsSupported(s)
  }

  /** `ensure_supported_schema` does not raise. */
  predicate Supported(c: Context, s: Json)
    decreases s
  {
    && s.Obj?
    && KeywordsSupported(c, s)
    && ("properties" in s.fields && s.fields["properties"].Obj? ==>
          forall k :: k in s.fields["properties"].fields ==> Supported(c, s.fields["properties"].fields[k]))
    && ("definitions" in s.fields && s.fields["definitions"].Obj? ==>
          forall k :: k in s.fields["definitions"].fields ==> Supported(c, s.fields["definitions"].fields[k]))
    && ("items" in s.fields && s.fields["items"].Obj? ==> Supported(c, s.fields["items"]))
    && ("items" in s.fields && s.fields["items"].Arr? ==>
          forall i :: 0 <= i < |s.fields["items"].items| ==> Supported(c, s.fields["items"].items[i]))
    && ("allOf" in s.fields && s.fields["allOf"].Arr? ==>
          forall i :: 0 <= i < |s.fields["allOf"].items| ==> Supported(c, s.fields["allOf"].items[i]))
  }

  // ----- `$ref` -----

  /** `token.replace(a + b, r)` for a two-character pattern. */
  function Replace(s: string, a: char, b: char, r: char): string {
    if |s| < 2 then s
    else if s[0] == a && s[1] == b then [r] + Replace(s[2..], a, b, r)
    else [s[0]] + Replace(s[1..], a, b, r)
  }

  function DecodeToken(token: string): string {
    Replace(Replace(token, '~', '1', '/'), '~', '0', '~')
  }

  /** The value reached from a node by object keys. */
  function Walk(node: Json, tokens: seq<string>): Option<Json>
    decreases |tokens|
  {
    if |tokens| == 0 then Some(node)
    else if node.Obj? && tokens[0] in node.fields then Walk(node.fields[tokens[0]], tokens[1..])
    else None
  }

  /** What `_pointer` returns; None stands for UnsupportedSchemaError. */
  function Pointer(root: Json, ref: string): Option<Json> {
    if !("#/" <= ref) then None
    else
      var tokens := Split(ref[2..], '/');
      match Walk(root, seq(|tokens|, i requires 0 <= i < |tokens| => DecodeToken(tokens[i])))
      case Some(node) => if node.Obj? then Some(node) else None
      case None => None
  }

  method ResolvePointer(root: Json, ref: string) returns (r: Option<Json>)
    ensures r == Pointer(root, ref)
  {
    if !("#/" <= ref) { return None; }
    var current := root;
    var tokens := Split(ref[2..], '/');
    ghost var decoded := seq(|tokens|, i requires 0 <= i < |tokens| => DecodeToken(tokens[i]));
    for i := 0 to |tokens|
      invariant Walk(current, decoded[i..]) == Walk(root, decoded)
    {
      var token := DecodeToken(tokens[i]);
      assert decoded[i..][0] == token && decoded[i..][1..] == decoded[i + 1..];
      if !current.Obj? || token !in current.fields { return None; }
      current := current.fields[token];
    }
    if !current.Obj? { return None; }
    return Some(current);
  }

  /** Section 3 of RFC 6901: `~` is written `~0` and `/` is written `~1`. */
  function EncodeToken(token: string): string {
    if |token| == 0 then ""
    else (if token[0] == '~' then "~0" else if token[0] == '/' then "~1" else [token[0]]) + EncodeToken(token[1..])
  }

  /** The text between the two replacements of the decoder. */
  function HalfEncoded(token: string): string {
    if |token| == 0 then ""
    else (if token[0] == '~' then "~0" else [token[0]]) + HalfEncoded(token[1..])
  }

  lemma ReplaceSkips(x: char, s: string, a: char, b: char, r: char)
    requires x != a
    ensures Replace([x] + s, a, b, r) == [x] + Replace(s, a, b, r)
  {
    assert ([x] + s)[1..] == s;
  }

  lemma ReplaceHits(s: string, a: char, b: char, r: char)
    ensures Replace([a, b] + s, a, b, r) == [r] + Replace(s, a, b, r)
  {
    assert ([a, b] + s)[2..] == s;
  }

  lemma ReplaceMisses(x: char, s: string, a: char, b: char, r: char)
    requires x != a && x != b
    ensures Replace([a, x] + s, a, b, r) == [a, x] + Replace(s, a, b, r)
  {
    assert ([a, x] + s)[1..] == [x] + s;
    ReplaceSkips(x, s, a, b, r);
  }

  lemma {:induction false} DecodeSlashes(token: string)
    ensures Replace(EncodeToken(token), '~', '1', '/') == HalfEncoded(token)
  {
    if |token| > 0 {
      DecodeSlashes(token[1..]);
      var rest := EncodeToken(token[1..]);
      if token[0] == '~' {
        ReplaceMisses('0', rest, '~', '1', '/');
      } else if token[0] == '/' {
        ReplaceHits(rest, '~', '1', '/');
      } else {
        ReplaceSkips(token[0], rest, '~', '1', '/');
      }
    }
  }

  lemma {:induction false} DecodeTildes(token: string)
    ensures Replace(HalfEncoded(token), '~', '0', '~') == token
  {
    if |token| > 0 {
      DecodeTildes(token[1..]);
      var rest := HalfEncoded(token[1..]);
      if token[0] == '~' {
        ReplaceHits(rest, '~', '0', '~');
      } else {
        ReplaceSkips(token[0], rest, '~', '0', '~');
      }
    }
  }

  /** Decoding inverts the escaping of every token. */
  lemma DecodeInvertsEncode(token: string)
    ensures DecodeToken(EncodeToken(token)) == token
  {
    DecodeSlashes(token);
    DecodeTildes(token);
  }

  lemma {:induction false} EncodedHasNoSlash(token: string)
    ensures '/' !in EncodeToken(token)
  {
    if |token| > 0 {
      EncodedHasNoSlash(token[1..]);
    }
  }

  function EncodeAll(tokens: seq<string>): (r: seq<string>)
    ensures |r| == |tokens|
  {
    seq(|tokens|, i requires 0 <= i < |tokens| => EncodeToken(tokens[i]))
  }

  /** A reference written by escaping a key path resolves to the object at that path, if there is one. */
  lemma EscapedPathResolves(root: Json, tokens: seq<string>)
    requires |tokens| >= 1
    ensures Pointer(root, "#/" + Join(EncodeAll(tokens), '/')) ==
            match Walk(root, tokens)
            case Some(node) => if node.Obj? then Some(node) else None
            case None => None
  {
    var encoded := EncodeAll(tokens);
    var ref := "#/" + Join(encoded, '/');
    assert ref[2..] == Join(encoded, '/');
    forall p | p in encoded ensures '/' !in p {
      var i :| 0 <= i < |encoded| && encoded[i] == p;
      EncodedHasNoSlash(tokens[i]);
    }
    SplitOfJoin(encoded, '/');
    var decoded := seq(|encoded|, i requires 0 <= i < |encoded| => DecodeToken(encoded[i]));
    forall i | 0 <= i < |tokens| ensures decoded[i] == tokens[i] {
      DecodeInvertsEncode(tokens[i]);
    }
    assert decoded == tokens;
  }
}

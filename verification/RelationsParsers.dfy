/** The two readers of the `relations` frontmatter field: relations_parser and docmeta.parse_frontmatter. */
module RelationsParsers {
  import opened Wrappers
  import opened Text

  /** One entry of a relations list: a dict of its keys, or a bare list item. */
  datatype Item = Fields(fields: map<string, string>) | Bare(text: string)

  // ----- text -----

  function FirstIndex(s: string, c: char): (n: nat)
    ensures n <= |s| && (n < |s| ==> s[n] == c) && (forall i :: 0 <= i < n ==> s[i] != c)
    ensures n < |s| <==> c in s
  {
    if |s| == 0 || s[0] == c then 0 else 1 + FirstIndex(s[1..], c)
  }

  /** `s.split(":", 1)[0].strip()` */
  function Key(s: string): string {
    Strip(s[..FirstIndex(s, ':')])
  }

  /** `s.split(":", 1)[1].strip()` */
  function Value(s: string): string
    requires ':' in s
  {
    Strip(s[FirstIndex(s, ':') + 1..])
  }

  /** `value[1:-1]` */
  function Inner(s: string): string {
    if |s| >= 2 then s[1..|s| - 1] else ""
  }

  predicate IsQuote(c: char) {
    c == '"' || c == '\''
  }

  /** `_strip_quotes` */
  function StripQuotes(s: string): string {
    if |s| >= 2 && s[0] == s[|s| - 1] && IsQuote(s[0]) then Inner(s) else s
  }

  /** A blank line or a comment. */
  predicate Noise(line: string) {
    Strip(line) == "" || Strip(line)[0] == '#'
  }

  predicate Indented(line: string) {
    |line| > 0 && (line[0] == ' ' || line[0] == '\t')
  }

  const MARK := "---"

  /** Where the marker first occurs at or after a position. */
  function FindMark(s: string, i: nat): (r: Option<nat>)
    requires i <= |s|
    ensures r.Some? ==> i <= r.value <= |s| && MARK <= s[r.value..] && forall j :: i <= j < r.value ==> !(MARK <= s[j..])
    ensures r.None? ==> forall j :: i <= j <= |s| ==> !(MARK <= s[j..])
    decreases |s| - i
  {
    if MARK <= s[i..] then Some(i) else if i == |s| then None else FindMark(s, i + 1)
  }

  /** What a sequence of lines makes of a reader's state. */
  function Fold<S>(step: (string, S) -> S, lines: seq<string>, st: S): S {
    if |lines| == 0 then st else Fold(step, lines[1..], step(lines[0], st))
  }

  // ----- relations_parser -----

  datatype Extraction = Extraction(inRelations: bool, current: Option<map<string, string>>, relations: seq<Item>)

  /** Appends the pending entry. A pending entry has a key, so it is never the falsy empty dict. */
  function Flush(st: Extraction): Extraction {
    if st.current.Some? then Extraction(st.inRelations, None, st.relations + [Fields(st.current.value)]) else st
  }

  function ExtractStep(line: string, st: Extraction): Extraction {
    var stripped := Strip(line);
    if Noise(line) then st
    else if !Indented(line) && ':' in stripped then
      Flush(st).(inRelations := Key(stripped) == "relations" && Value(stripped) != "[]")
    else if !st.inRelations then st
    else if "- " <= stripped then
      var item := stripped[2..];
      if ':' in item then Flush(st).(current := Some(map[Key(item) := StripQuotes(Value(item))]))
      else Flush(st).(relations := Flush(st).relations + [Bare(item)])
    else if ':' in stripped && st.current.Some? then
      st.(current := Some(st.current.value[Key(stripped) := StripQuotes(Value(stripped))]))
    else st
  }

  /** The text between the first two markers. */
  function BetweenMarks(content: string): Option<string> {
    if !(MARK <= content) then None
    else
      match FindMark(content, 3)
      case Some(end) => Some(content[3..end])
      case None => None
  }

  function ExtractLines(lines: seq<string>): seq<Item> {
    Flush(Fold(ExtractStep, lines, Extraction(false, None, []))).relations
  }

  function ExtractRelations(content: string): seq<Item> {
    match BetweenMarks(content)
    case Some(text) => ExtractLines(Split(Strip(text), '\n'))
    case None => []
  }

  method ExtractRelationsFromContent(content: string) returns (relations: seq<Item>)
    ensures relations == ExtractRelations(content)
  {
    relations := [];
    var text := BetweenMarks(content);
    if text == None { return; }
    var lines := Split(Strip(text.value), '\n');
    var inRelations := false;
    var current: Option<map<string, string>> := None;
    for i := 0 to |lines|
      invariant Fold(ExtractStep, lines, Extraction(false, None, [])) ==
                Fold(ExtractStep, lines[i..], Extraction(inRelations, current, relations))
    {
      inRelations, current, relations := ExtractLine(lines[i], inRelations, current, relations);
      assert lines[i..][1..] == lines[i + 1..];
    }
    if current.Some? {
      relations := relations + [Fields(current.value)];
    }
  }

  /** The body of the line loop. */
  method ExtractLine(line: string, inRelations: bool, current: Option<map<string, string>>, relations: seq<Item>)
    returns (inside: bool, entry: Option<map<string, string>>, found: seq<Item>)
    ensures Extraction(inside, entry, found) == ExtractStep(line, Extraction(inRelations, current, relations))
  {
    inside, entry, found := inRelations, current, relations;
    var stripped := Strip(line);
    if stripped == "" { return; }
    if stripped[0] == '#' { return; }
    if !Indented(line) && ':' in stripped {
      if Key(stripped) == "relations" {
        inside := true;
        if Value(stripped) == "[]" {
          inside := false;
        }
      } else {
        inside := false;
      }
      if entry.Some? {
        found, entry := found + [Fields(entry.value)], None;
      }
      return;
    }
    if inside {
      if "- " <= stripped {
        if entry.Some? {
          found, entry := found + [Fields(entry.value)], None;
        }
        var item := stripped[2..];
        if ':' in item {
          entry := Some(map[Key(item) := StripQuotes(Value(item))]);
        } else {
          found := found + [Bare(item)];
        }
      } else if ':' in stripped && entry.Some? {
        entry := Some(entry.value[Key(stripped) := StripQuotes(Value(stripped))]);
      }
    }
  }

  // ----- docmeta.parse_frontmatter, the relations field -----

  /** The value of a frontmatter field. */
  datatype Field = Scalar(text: string) | List(items: seq<Item>)

  predicate IsListField(key: string) {
    key in {"verifies_with", "audit_gaps", "depends_on", "attention_source_facts", "attention_projection",
                        "attention_transition_tests", "attention_missing_facts"}
  }

  /** Of the parsed fields, the one under `relations`. */
  datatype Parsing = Parsing(relations: Option<Field>, key: Option<string>, current: Option<map<string, string>>)

  function Appended(field: Option<Field>, item: Item): Option<Field> {
    if field.Some? && field.value.List? then Some(List(field.value.items + [item])) else field
  }

  function FlushEntry(st: Parsing): Parsing {
    if st.current.Some? && st.key == Some("relations")
    then Parsing(Appended(st.relations, Fields(st.current.value)), st.key, None) else st
  }

  predicate Enclosed(s: string, left: char, right: char) {
    |s| > 0 && s[0] == left && s[|s| - 1] == right
  }

  function Unquoted(s: string): string {
    if Enclosed(s, '"', '"') || Enclosed(s, '\'', '\'') then Inner(s) else s
  }

  function InlineItems(parts: seq<string>): seq<Item> {
    if |parts| == 0 then []
    else (if Strip(parts[0]) == "" then [] else [Bare(Unquoted(Strip(parts[0])))]) + InlineItems(parts[1..])
  }

  function FieldValue(key: string, val: string): Field {
    if Enclosed(val, '[', ']') then List(InlineItems(Split(Inner(val), ',')))
    else if val == "" && (IsListField(key) || key == "relations") then List([])
    else if val == "" then Scalar("")
    else Scalar(Unquoted(val))
  }

  /** `key: value` at the top level; it ends the field before it. */
  function FieldStep(key: string, val: string, st: Parsing): Parsing {
    Parsing(if key == "relations" then Some(FieldValue(key, val)) else FlushEntry(st).relations,
            if val == "" && (IsListField(key) || key == "relations") then Some(key) else None,
            FlushEntry(st).current)
  }

  function ItemStep(val: string, st: Parsing): Parsing {
    var flushed := FlushEntry(st);
    if ':' in val then flushed.(current := Some(map[Key(val) := Value(val)]))
    else flushed.(relations := Appended(flushed.relations, Bare(val)))
  }

  function ParseStep(line: string, st: Parsing): Parsing {
    var stripped := Strip(line);
    var spaced := |line| > 0 && line[0] == ' ';
    if Noise(line) then st
    else if spaced && "- " <= stripped && st.key == Some("relations") then ItemStep(Strip(stripped[2..]), st)
    else if spaced && "- " <= stripped && st.key.Some? && IsListField(st.key.value) then st
    else if spaced && st.key == Some("relations") && st.current.Some? && ':' in stripped && !("- " <= stripped) then
      st.(current := Some(st.current.value[Key(stripped) := Value(stripped)]))
    else if ':' in line then FieldStep(Key(line), Value(line), st)
    else st
  }

  function ParseLines(lines: seq<string>): Option<Field> {
    FlushEntry(Fold(ParseStep, lines, Parsing(None, None, None))).relations
  }

  /** The separators of `str.splitlines`. */
  predicate IsBreak(c: char) {
    var n := c as int;
    0x0A <= n <= 0x0D || 0x1C <= n <= 0x1E || n == 0x85 || n == 0x2028 || n == 0x2029
  }

  function FirstBreak(s: string): (n: nat)
    ensures n <= |s| && (n < |s| ==> IsBreak(s[n])) && (forall i :: 0 <= i < n ==> !IsBreak(s[i]))
  {
    if |s| == 0 || IsBreak(s[0]) then 0 else 1 + FirstBreak(s[1..])
  }

  function SplitLines(s: string): seq<string>
    decreases |s|
  {
    if |s| == 0 then []
    else
      var n := FirstBreak(s);
      if n == |s| then [s]
      else if s[n] == '\r' && n + 1 < |s| && s[n + 1] == '\n' then [s[..n]] + SplitLines(s[n + 2..])
      else [s[..n]] + SplitLines(s[n + 1..])
  }

  /** `\r?\n` at the front: its length. */
  function NewlineLength(s: string): (n: nat)
    ensures n <= |s|
  {
    if "\r\n" <= s then 2 else if "\n" <= s then 1 else 0
  }

  /** A closing marker on its own line, up to the end of the text or of its line. */
  predicate ClosesAt(s: string, i: nat)
    requires i <= |s|
  {
    var n := NewlineLength(s[i..]);
    n > 0 && MARK <= s[i + n..] && (i + n + 3 == |s| || NewlineLength(s[i + n + 3..]) > 0)
  }

  function FindClose(s: string, i: nat): (r: Option<nat>)
    requires i <= |s|
    ensures r.Some? ==> i <= r.value <= |s| && ClosesAt(s, r.value) && forall j :: i <= j < r.value ==> !ClosesAt(s, j)
    ensures r.None? ==> forall j :: i <= j <= |s| ==> !ClosesAt(s, j)
    decreases |s| - i
  {
    if ClosesAt(s, i) then Some(i) else if i == |s| then None else FindClose(s, i + 1)
  }

  /** The first group of the frontmatter pattern. */
  function FrontmatterText(content: string): Option<string> {
    if !(MARK <= content) || NewlineLength(content[3..]) == 0 then None
    else
      var start := 3 + NewlineLength(content[3..]);
      match FindClose(content, start)
      case Some(end) => Some(content[start..end])
      case None => None
  }

  /** What `parse_frontmatter` finds under `relations`; None when there is no frontmatter or no such field. */
  function ParsedRelations(content: string): Option<Field> {
    match FrontmatterText(content)
    case Some(text) => ParseLines(SplitLines(text))
    case None => None
  }

  method ParseFrontmatterRelations(content: string) returns (relations: Option<Field>)
    ensures relations == ParsedRelations(content)
  {
    relations := None;
    var text := FrontmatterText(content);
    if text == None { return; }
    var lines := SplitLines(text.value);
    var key: Option<string> := None;
    var current: Option<map<string, string>> := None;
    for i := 0 to |lines|
      invariant Fold(ParseStep, lines, Parsing(None, None, None)) ==
              Fold(ParseStep, lines[i..], Parsing(relations, key, current))
    {
      relations, key, current := ParseLine(lines[i], relations, key, current);
      assert lines[i..][1..] == lines[i + 1..];
    }
    if current.Some? && key == Some("relations") {
      relations := Appended(relations, Fields(current.value));
    }
  }

  /** The body of the line loop. */
  method ParseLine(line: string, relations: Option<Field>, key: Option<string>, current: Option<map<string, string>>)
    returns (field: Option<Field>, open: Option<string>, entry: Option<map<string, string>>)
    ensures Parsing(field, open, entry) == ParseStep(line, Parsing(relations, key, current))
  {
    field, open, entry := relations, key, current;
    var stripped := Strip(line);
    if stripped == "" || stripped[0] == '#' { return; }
    var spaced := |line| > 0 && line[0] == ' ';
    if spaced && "- " <= stripped && open.Some? {
      if open == Some("relations") {
        if entry.Some? {
          field, entry := Appended(field, Fields(entry.value)), None;
        }
        var val := Strip(stripped[2..]);
        if ':' in val {
          entry := Some(map[Key(val) := Value(val)]);
        } else {
          field := Appended(field, Bare(val));
        }
        return;
      } else if IsListField(open.value) {
        return;
      }
    }
    if spaced && open == Some("relations") && entry.Some? && ':' in stripped && !("- " <= stripped) {
      entry := Some(entry.value[Key(stripped) := Value(stripped)]);
      return;
    }
    if ':' in line {
      if entry.Some? && open == Some("relations") {
        field, entry := Appended(field, Fields(entry.value)), None;
      }
      var name, val := Key(line), Value(line);
      if name == "relations" {
        field := Some(FieldValue(name, val));
      }
      open := if val == "" && (IsListField(name) || name == "relations") then Some(name) else None;
    }
  }
}

/** Printing relation entries as a canonical block and reading them back, with both readers. */
module RelationsRoundTrip {
  import opened Wrappers
  import opened Text
  import opened RelationsParsers

  // ----- canonical blocks -----

  datatype Pair = Pair(key: string, value: string)

  /** An element of a relations list: keys with values, or a bare text. */
  datatype Element = Keyed(pairs: seq<Pair>) | BareText(text: string)

  /** Nothing to strip, on one line. */
  predicate PlainText(s: string) {
    Trimmed(s) && forall i :: 0 <= i < |s| ==> !IsBreak(s[i])
  }

  predicate PlainPair(p: Pair) {
    PlainText(p.key) && ':' !in p.key && PlainText(p.value)
  }

  /** Enclosed in matching quotes: what `_strip_quotes` takes off. */
  predicate Quoted(s: string) {
    |s| >= 2 && s[0] == s[|s| - 1] && IsQuote(s[0])
  }

  /** The entry with the quotes taken off its values. */
  function StripEntry(e: seq<Pair>): (r: seq<Pair>)
    ensures |r| == |e| && forall i :: 0 <= i < |e| ==> r[i] == Pair(e[i].key, StripQuotes(e[i].value))
  {
    if |e| == 0 then [] else [Pair(e[0].key, StripQuotes(e[0].value))] + StripEntry(e[1..])
  }

  function StripElement(e: Element): Element {
    match e
    case Keyed(pairs) => Keyed(StripEntry(pairs))
    case BareText(_) => e
  }

  function StripEntries(entries: seq<Element>): (r: seq<Element>)
    ensures |r| == |entries| && forall i :: 0 <= i < |entries| ==> r[i] == StripElement(entries[i])
  {
    if |entries| == 0 then [] else [StripElement(entries[0])] + StripEntries(entries[1..])
  }

  predicate NoneQuoted(entries: seq<Element>) {
    forall i, j :: 0 <= i < |entries| && entries[i].Keyed? && 0 <= j < |entries[i].pairs| ==>
      !Quoted(entries[i].pairs[j].value)
  }

  /** A key that stays a continuation key: not a comment and not a list item. */
  predicate Continues(p: Pair) {
    !("#" <= p.key) && !("- " <= p.key)
  }

  /** A relation entry: at least one key, no key twice. */
  predicate Entry(e: seq<Pair>) {
    && |e| >= 1
    && (forall i :: 0 <= i < |e| ==> PlainPair(e[i]))
    && (forall i :: 1 <= i < |e| ==> Continues(e[i]))
    && (forall i, j :: 0 <= i < j < |e| ==> e[i].key != e[j].key)
  }

  /** A bare text is not empty and has no colon. */
  predicate GoodElement(e: Element) {
    match e
    case Keyed(pairs) => Entry(pairs)
    case BareText(text) => PlainText(text) && text != "" && ':' !in text
  }

  predicate Entries(entries: seq<Element>) {
    forall i :: 0 <= i < |entries| ==> GoodElement(entries[i])
  }

  function Pairs(m: map<string, string>, e: seq<Pair>): map<string, string>
    decreases |e|
  {
    if |e| == 0 then m else Pairs(m[e[0].key := e[0].value], e[1..])
  }

  function ItemOf(e: Element): Item {
    match e
    case Keyed(pairs) => Fields(Pairs(map[], pairs))
    case BareText(text) => Bare(text)
  }

  function ItemsOf(entries: seq<Element>): (r: seq<Item>)
    ensures |r| == |entries| && forall i :: 0 <= i < |entries| ==> r[i] == ItemOf(entries[i])
  {
    if |entries| == 0 then [] else [ItemOf(entries[0])] + ItemsOf(entries[1..])
  }

  function FirstLine(p: Pair): string {
    "  - " + p.key + ": " + p.value
  }

  function NextLine(p: Pair): string {
    "    " + p.key + ": " + p.value
  }

  function NextLines(e: seq<Pair>): seq<string> {
    if |e| == 0 then [] else [NextLine(e[0])] + NextLines(e[1..])
  }

  function BareLine(text: string): string {
    "  - " + text
  }

  function ElementLines(e: Element): seq<string>
    requires GoodElement(e)
  {
    match e
    case Keyed(pairs) => EntryLines(pairs)
    case BareText(text) => [BareLine(text)]
  }

  function PrintBlock(entries: seq<Element>): seq<string>
    requires Entries(entries)
  {
    if |entries| == 0 then []
    else ElementLines(entries[0]) + PrintBlock(entries[1..])
  }

  lemma {:induction false} PairsKeep(m: map<string, string>, e: seq<Pair>, k: string)
    requires forall i :: 0 <= i < |e| ==> e[i].key != k
    ensures (k in Pairs(m, e) <==> k in m) && (k in m ==> Pairs(m, e)[k] == m[k])
    decreases |e|
  {
    if |e| > 0 {
      PairsKeep(m[e[0].key := e[0].value], e[1..], k);
    }
  }

  /** The item of an entry holds exactly the pairs of the entry. */
  lemma {:induction false} PairsHold(m: map<string, string>, e: seq<Pair>, i: nat)
    requires i < |e| && forall i, j :: 0 <= i < j < |e| ==> e[i].key != e[j].key
    ensures e[i].key in Pairs(m, e) && Pairs(m, e)[e[i].key] == e[i].value
    decreases |e|
  {
    if i == 0 {
      PairsKeep(m[e[0].key := e[0].value], e[1..], e[0].key);
    } else {
      PairsHold(m[e[0].key := e[0].value], e[1..], i - 1);
    }
  }

  // ----- one line -----

  /** What is left of a canonical line without its indentation and dash. */
  function Body(p: Pair): string {
    p.key + ":" + if p.value == "" then "" else " " + p.value
  }

  lemma BodyTrimmed(p: Pair)
    requires PlainPair(p)
    ensures Trimmed(Body(p)) && Trimmed("- " + Body(p)) && ':' in Body(p)
  {
    var b := Body(p);
    assert b[|p.key|] == ':';
    assert b[|b| - 1] == if p.value == "" then ':' else p.value[|p.value| - 1];
  }

  function Tail(p: Pair): string {
    if p.value == "" then " " else ""
  }

  lemma StripFirst(p: Pair)
    requires PlainPair(p)
    ensures Strip(FirstLine(p)) == "- " + Body(p)
  {
    BodyTrimmed(p);
    assert FirstLine(p) == "  " + ("- " + Body(p)) + Tail(p);
    StripPadded("  ", "- " + Body(p), Tail(p));
  }

  lemma StripNext(p: Pair)
    requires PlainPair(p)
    ensures Strip(NextLine(p)) == Body(p)
  {
    BodyTrimmed(p);
    assert NextLine(p) == "    " + Body(p) + Tail(p);
    StripPadded("    ", Body(p), Tail(p));
  }

  lemma FirstIndexIs(s: string, c: char, n: nat)
    requires n < |s| && s[n] == c && forall i :: 0 <= i < n ==> s[i] != c
    ensures FirstIndex(s, c) == n
  { }

  lemma BodyParts(p: Pair)
    requires PlainPair(p)
    ensures ':' in Body(p) && Key(Body(p)) == p.key && Value(Body(p)) == p.value
  {
    var b := Body(p);
    assert b[|p.key|] == ':';
    FirstIndexIs(b, ':', |p.key|);
    assert b[..|p.key|] == p.key;
    StripTrimmed(p.key);
    if p.value == "" {
      assert b[|p.key| + 1..] == "";
    } else {
      assert b[|p.key| + 1..] == " " + p.value + "";
      StripPadded(" ", p.value, "");
    }
  }

  // ----- folding -----

  lemma {:induction false} FoldAppend<S>(step: (string, S) -> S, one: seq<string>, other: seq<string>, st: S)
    ensures Fold(step, one + other, st) == Fold(step, other, Fold(step, one, st))
  {
    if |one| == 0 {
      assert one + other == other;
    } else {
      assert (one + other)[1..] == one[1..] + other;
      FoldAppend(step, one[1..], other, step(one[0], st));
    }
  }

  function WithoutNoise(lines: seq<string>): seq<string> {
    if |lines| == 0 then [] else (if Noise(lines[0]) then [] else [lines[0]]) + WithoutNoise(lines[1..])
  }

  ghost predicate SkipsNoise<S(!new)>(step: (string, S) -> S) {
    forall line, st :: Noise(line) ==> step(line, st) == st
  }

  lemma WithoutNoiseFirst(line: string, rest: seq<string>)
    ensures WithoutNoise([line] + rest) == if Noise(line) then WithoutNoise(rest) else [line] + WithoutNoise(rest)
  {
    assert ([line] + rest)[1..] == rest;
  }

  lemma FoldFirst<S>(step: (string, S) -> S, line: string, rest: seq<string>, st: S)
    ensures Fold(step, [line] + rest, st) == Fold(step, rest, step(line, st))
  {
    assert ([line] + rest)[1..] == rest;
  }

  lemma {:induction false} FoldWithoutNoise<S(!new)>(step: (string, S) -> S, lines: seq<string>, st: S)
    requires SkipsNoise(step)
    ensures Fold(step, lines, st) == Fold(step, WithoutNoise(lines), st)
  {
    if |lines| > 0 {
      var line, rest := lines[0], lines[1..];
      FoldWithoutNoise(step, rest, step(line, st));
      assert lines == [line] + rest;
      WithoutNoiseFirst(line, rest);
      if !Noise(line) {
        FoldFirst(step, line, WithoutNoise(rest), st);
      }
    }
  }

  // ----- the surrounding fields -----

  /** The line cannot be read as a `relations` field. */
  predicate Foreign(line: string) {
    ':' in line ==> Key(line) != "relations"
  }

  /** The line that opens the block. */
  predicate Heading(line: string) {
    Trimmed(line) && ':' in line && line[0] != '#' && Key(line) == "relations" && Value(line) == ""
  }

  /** A top-level field. */
  predicate TopField(line: string) {
    !Noise(line) && !Indented(line) && ':' in line
  }

  /** What may follow the block: noise, then a top-level field, then anything that is not a relations field. */
  predicate Follows(after: seq<string>) {
    && (forall i :: 0 <= i < |after| ==> Foreign(after[i]))
    && (|WithoutNoise(after)| > 0 ==> TopField(WithoutNoise(after)[0]))
  }

  /** The same text, indented in some way, whatever white space follows. */
  predicate Like(line: string, printed: string) {
    Strip(line) == Strip(printed) && Indented(line)
  }

  predicate AllLike(lines: seq<string>, printed: seq<string>) {
    |lines| == |printed| && forall i :: 0 <= i < |lines| ==> Like(lines[i], printed[i])
  }

  /** The block's lines are canonical apart from indentation, trailing white space, blank lines and comments. */
  predicate Block(lines: seq<string>, entries: seq<Element>) {
    Entries(entries) && AllLike(WithoutNoise(lines), PrintBlock(entries))
  }

  lemma {:induction false} NextLinesSpaced(e: seq<Pair>)
    ensures forall i :: 0 <= i < |NextLines(e)| ==> |NextLines(e)[i]| > 0 && NextLines(e)[i][0] == ' '
  {
    if |e| > 0 {
      NextLinesSpaced(e[1..]);
    }
  }

  lemma ElementLinesSpaced(e: Element)
    requires GoodElement(e)
    ensures forall i :: 0 <= i < |ElementLines(e)| ==> |ElementLines(e)[i]| > 0 && ElementLines(e)[i][0] == ' '
  {
    match e {
      case Keyed(pairs) => NextLinesSpaced(pairs[1..]);
      case BareText(_) =>
    }
  }

  /** Every printed line is indented. */
  lemma {:induction false} PrintBlockSpaced(entries: seq<Element>)
    requires Entries(entries)
    ensures forall i :: 0 <= i < |PrintBlock(entries)| ==> |PrintBlock(entries)[i]| > 0 && PrintBlock(entries)[i][0] == ' '
  {
    if |entries| > 0 {
      ElementLinesSpaced(entries[0]);
      PrintBlockSpaced(entries[1..]);
    }
  }

  function Document(before: seq<string>, heading: string, block: seq<string>, after: seq<string>): seq<string> {
    before + ([heading] + (block + after))
  }

  // ----- relations_parser on lines -----

  lemma ExtractSkipsNoise()
    ensures SkipsNoise(ExtractStep)
  { }

  lemma ExtractItem(line: string, item: string, st: Extraction)
    requires st.inRelations && Indented(line) && Strip(line) == "- " + item && ':' in item
    ensures ExtractStep(line, st) == Flush(st).(current := Some(map[Key(item) := StripQuotes(Value(item))]))
    ensures !Noise(line)
  {
    assert ("- " + item)[2..] == item;
  }

  lemma ExtractContinuation(line: string, body: string, st: Extraction)
    requires st.inRelations && st.current.Some? && Indented(line) && Strip(line) == body && ':' in body
    requires !("- " <= body) && body[0] != '#'
    ensures ExtractStep(line, st) == st.(current := Some(st.current.value[Key(body) := StripQuotes(Value(body))]))
    ensures !Noise(line)
  { }

  lemma ExtractFirst(p: Pair, st: Extraction)
    requires PlainPair(p) && st.inRelations
    ensures ExtractStep(FirstLine(p), st) == Flush(st).(current := Some(map[p.key := StripQuotes(p.value)]))
    ensures !Noise(FirstLine(p))
  {
    StripFirst(p);
    BodyParts(p);
    ExtractItem(FirstLine(p), Body(p), st);
  }

  lemma ExtractNext(p: Pair, st: Extraction)
    requires PlainPair(p) && Continues(p) && st.inRelations && st.current.Some?
    ensures ExtractStep(NextLine(p), st) == st.(current := Some(st.current.value[p.key := StripQuotes(p.value)]))
    ensures !Noise(NextLine(p))
  {
    StripNext(p);
    BodyParts(p);
    BodyStart(p);
    ExtractContinuation(NextLine(p), Body(p), st);
  }

  lemma BodyStart(p: Pair)
    requires PlainPair(p) && Continues(p)
    ensures !("- " <= Body(p)) && Body(p)[0] != '#'
  {
    var b := Body(p);
    if |p.key| == 0 {
      assert b[0] == ':';
    } else if |p.key| == 1 {
      assert b[0] == p.key[0] && b[1] == ':';
    } else {
      assert b[0] == p.key[0] && b[1] == p.key[1];
    }
  }

  lemma {:induction false} ExtractNexts(e: seq<Pair>, st: Extraction)
    requires forall i :: 0 <= i < |e| ==> PlainPair(e[i]) && Continues(e[i])
    requires st.inRelations && st.current.Some?
    ensures Fold(ExtractStep, NextLines(e), st) == st.(current := Some(Pairs(st.current.value, StripEntry(e))))
  {
    if |e| > 0 {
      ExtractNext(e[0], st);
      ExtractNexts(e[1..], st.(current := Some(st.current.value[e[0].key := StripQuotes(e[0].value)])));
      assert NextLines(e)[1..] == NextLines(e[1..]);
    }
  }

  lemma ExtractEntry(e: seq<Pair>, st: Extraction)
    requires Entry(e) && st.inRelations
    ensures Fold(ExtractStep, EntryLines(e), st) ==
            Flush(st).(current := Some(Pairs(map[], StripEntry(e))))
  {
    var value := StripQuotes(e[0].value);
    ExtractFirst(e[0], st);
    ExtractNexts(e[1..], Flush(st).(current := Some(map[e[0].key := value])));
    FoldFirst(ExtractStep, FirstLine(e[0]), NextLines(e[1..]), st);
    assert Pairs(map[], StripEntry(e)) == Pairs(map[e[0].key := value], StripEntry(e[1..]));
  }

  function EntryLines(e: seq<Pair>): seq<string>
    requires |e| >= 1
  {
    [FirstLine(e[0])] + NextLines(e[1..])
  }

  lemma ItemsOfFirst(e: Element, rest: seq<Element>)
    ensures ItemsOf([e] + rest) == [ItemOf(e)] + ItemsOf(rest)
  { }

  lemma StripBare(text: string)
    requires PlainText(text) && text != ""
    ensures Strip(BareLine(text)) == "- " + text && Indented(BareLine(text)) && !Noise(BareLine(text))
  {
    assert Trimmed("- " + text);
    assert BareLine(text) == "  " + ("- " + text) + "";
    StripPadded("  ", "- " + text, "");
  }

  lemma ExtractBare(text: string, st: Extraction)
    requires st.inRelations && GoodElement(BareText(text))
    ensures ExtractStep(BareLine(text), st) == Flush(st).(relations := Flush(st).relations + [Bare(text)])
  {
    StripBare(text);
    assert ("- " + text)[2..] == text;
    assert ':' !in "- " + text;
  }

  /** The state after the lines of one element. */
  function AfterElement(e: Element, st: Extraction): Extraction {
    match e
    case Keyed(pairs) => Flush(st).(current := Some(Pairs(map[], StripEntry(pairs))))
    case BareText(text) => Flush(st).(relations := Flush(st).relations + [Bare(text)])
  }

  lemma ExtractElement(e: Element, st: Extraction)
    requires GoodElement(e) && st.inRelations
    ensures Fold(ExtractStep, ElementLines(e), st) == AfterElement(e, st) && AfterElement(e, st).inRelations
    ensures Flush(AfterElement(e, st)).relations == Flush(st).relations + [ItemOf(StripElement(e))]
  {
    match e {
      case Keyed(pairs) => ExtractEntry(pairs, st);
      case BareText(text) =>
        ExtractBare(text, st);
        FoldFirst(ExtractStep, BareLine(text), [], st);
        assert [BareLine(text)] + [] == [BareLine(text)];
    }
  }

  lemma {:induction false} ExtractLike(lines: seq<string>, printed: seq<string>, st: Extraction)
    requires AllLike(lines, printed) && forall i :: 0 <= i < |printed| ==> Indented(printed[i])
    ensures Fold(ExtractStep, lines, st) == Fold(ExtractStep, printed, st)
  {
    if |lines| > 0 {
      assert Like(lines[0], printed[0]);
      ExtractSame(lines[0], printed[0], st);
      forall i | 0 <= i < |lines[1..]| ensures Like(lines[1..][i], printed[1..][i]) {
        assert Like(lines[i + 1], printed[i + 1]);
      }
      ExtractLike(lines[1..], printed[1..], ExtractStep(lines[0], st));
    }
  }

  /** After a block, flushing leaves the entries. */
  lemma {:induction false} ExtractBlock(entries: seq<Element>, st: Extraction)
    requires st.inRelations && Entries(entries)
    ensures Fold(ExtractStep, PrintBlock(entries), st).inRelations
    ensures Flush(Fold(ExtractStep, PrintBlock(entries), st)).relations ==
            Flush(st).relations + ItemsOf(StripEntries(entries))
  {
    if |entries| > 0 {
      var e, rest := entries[0], entries[1..];
      var pending := AfterElement(e, st);
      ExtractElement(e, st);
      ExtractBlock(rest, pending);
      FoldAppend(ExtractStep, ElementLines(e), PrintBlock(rest), st);
      ItemsOfFirst(StripElement(e), StripEntries(rest));
      ConcatAssociative(Flush(st).relations, [ItemOf(StripElement(e))], ItemsOf(StripEntries(rest)));
    }
  }

  /** `relations:` is a heading. */
  lemma HeadingParts(heading: string, p: Pair)
    requires heading == "relations:" && p == Pair("relations", "")
    ensures Heading(heading) && OneLine(heading)
  {
    RelationsPlain(heading, p);
    BodyParts(p);
    BodyTrimmed(p);
  }

  lemma RelationsPlain(heading: string, p: Pair)
    requires heading == "relations:" && p == Pair("relations", "")
    ensures PlainPair(p) && Body(p) == heading && OneLine(heading)
  { }

  lemma ExtractField(line: string, st: Extraction)
    requires !Noise(line) && !Indented(line) && ':' in Strip(line)
    ensures ExtractStep(line, st) == Flush(st).(inRelations := Key(Strip(line)) == "relations" && Value(Strip(line)) != "[]")
  { }

  lemma ExtractHeading(line: string, st: Extraction)
    requires Heading(line)
    ensures ExtractStep(line, st) == Flush(st).(inRelations := true)
    ensures !Noise(line)
  {
    StripTrimmed(line);
    ExtractField(line, st);
  }

  lemma SpaceHasNoColon(pad: string)
    requires AllSpace(pad)
    ensures ':' !in pad
  { }

  lemma KeyPadded(left: string, core: string, right: string)
    requires AllSpace(left) && ':' in core
    ensures Key(left + core + right) == Key(core)
  {
    var n := FirstIndex(core, ':');
    FirstColonPadded(left, core, right);
    SlicePadded(left, core, right, n);
    StripPadLeft(left, core[..n]);
  }

  lemma FirstColonPadded(left: string, core: string, right: string)
    requires AllSpace(left) && ':' in core
    ensures FirstIndex(left + core + right, ':') == |left| + FirstIndex(core, ':')
  {
    var line, n := left + core + right, FirstIndex(core, ':');
    SpaceHasNoColon(left);
    forall i | 0 <= i < |left| + n ensures line[i] != ':' {
      assert line[i] == if i < |left| then left[i] else core[i - |left|];
    }
    assert line[|left| + n] == core[n];
    FirstIndexIs(line, ':', |left| + n);
  }

  lemma SlicePadded(left: string, core: string, right: string, n: nat)
    requires n <= |core|
    ensures (left + core + right)[..|left| + n] == left + core[..n]
  { }

  lemma KeyOfStripped(line: string)
    ensures ':' in Strip(line) <==> ':' in line
    ensures ':' in line ==> Key(Strip(line)) == Key(line)
  {
    var left, right := StripParts(line);
    SpaceHasNoColon(left);
    SpaceHasNoColon(right);
    if ':' in Strip(line) {
      KeyPadded(left, Strip(line), right);
    }
  }

  lemma ValueIs(s: string, n: nat, rest: string)
    requires ':' in s && FirstIndex(s, ':') == n && s[n + 1..] == rest
    ensures Value(s) == Strip(rest)
  { }

  lemma ValuePadded(left: string, core: string, right: string)
    requires AllSpace(left) && AllSpace(right) && ':' in core
    ensures ':' in left + core + right && Value(left + core + right) == Value(core)
  {
    var n := FirstIndex(core, ':');
    var rest := core[n + 1..];
    FirstColonPadded(left, core, right);
    SliceAfter(left, core, right, n + 1);
    ValueIs(left + core + right, |left| + n, rest + right);
    ValueIs(core, n, rest);
    StripPadRight(rest, right);
  }

  lemma ValueOfStripped(line: string)
    requires ':' in line
    ensures ':' in Strip(line) && Value(Strip(line)) == Value(line)
  {
    var left, right := StripParts(line);
    KeyOfStripped(line);
    ValuePadded(left, Strip(line), right);
  }

  lemma SliceAfter(left: string, core: string, right: string, n: nat)
    requires n <= |core|
    ensures (left + core + right)[|left| + n..] == core[n..] + right
  { }

  /** Outside a relations block only a relations field has an effect. */
  lemma ExtractForeign(line: string, st: Extraction)
    requires Foreign(line) && !st.inRelations && st.current.None?
    ensures ExtractStep(line, st) == st
  {
    KeyOfStripped(line);
  }

  lemma {:induction false} ExtractForeigns(lines: seq<string>, st: Extraction)
    requires !st.inRelations && st.current.None? && forall i :: 0 <= i < |lines| ==> Foreign(lines[i])
    ensures Fold(ExtractStep, lines, st) == st
  {
    if |lines| > 0 {
      ExtractForeign(lines[0], st);
      ExtractForeigns(lines[1..], st);
    }
  }

  lemma {:induction false} NoiselessForeign(lines: seq<string>)
    requires forall i :: 0 <= i < |lines| ==> Foreign(lines[i])
    ensures forall i :: 0 <= i < |WithoutNoise(lines)| ==> Foreign(WithoutNoise(lines)[i])
  {
    if |lines| > 0 {
      NoiselessForeign(lines[1..]);
    }
  }

  /** What follows the block adds nothing. */
  lemma ExtractAfter(after: seq<string>, st: Extraction)
    requires Follows(after)
    ensures Flush(Fold(ExtractStep, after, st)).relations == Flush(st).relations
  {
    ExtractSkipsNoise();
    FoldWithoutNoise(ExtractStep, after, st);
    var lines := WithoutNoise(after);
    NoiselessForeign(after);
    if |lines| > 0 {
      ExtractClosing(lines[0], st);
      ExtractForeigns(lines[1..], ExtractStep(lines[0], st));
    }
  }

  lemma ExtractClosing(line: string, st: Extraction)
    requires TopField(line) && Foreign(line)
    ensures ExtractStep(line, st) == Flush(st).(inRelations := false)
  {
    KeyOfStripped(line);
    ExtractField(line, st);
  }

  /** The entries come back from the lines of a document. */
  lemma ExtractDocument(before: seq<string>, heading: string, block: seq<string>, after: seq<string>,
                        entries: seq<Element>)
    requires (forall i :: 0 <= i < |before| ==> Foreign(before[i])) && Heading(heading)
    requires Block(block, entries) && Follows(after)
    ensures ExtractLines(Document(before, heading, block, after)) == ItemsOf(StripEntries(entries))
  {
    var start := Extraction(false, None, []);
    var inside := Extraction(true, None, []);
    FoldAppend(ExtractStep, before, [heading] + (block + after), start);
    ExtractForeigns(before, start);
    FoldFirst(ExtractStep, heading, block + after, start);
    ExtractHeading(heading, start);
    FoldAppend(ExtractStep, block, after, inside);
    ExtractSkipsNoise();
    FoldWithoutNoise(ExtractStep, block, inside);
    PrintBlockSpaced(entries);
    ExtractLike(WithoutNoise(block), PrintBlock(entries), inside);
    ExtractBlock(entries, inside);
    ExtractAfter(after, Fold(ExtractStep, block, inside));
    assert [] + ItemsOf(StripEntries(entries)) == ItemsOf(StripEntries(entries));
  }

  /** `relations: []` opens no block: nothing is read from what stands below. */
  lemma ExtractEmptyList(before: seq<string>, line: string, below: seq<string>)
    requires (forall i :: 0 <= i < |before| ==> Foreign(before[i])) && (forall i :: 0 <= i < |below| ==> Foreign(below[i]))
    requires TopField(line) && Key(line) == "relations" && ':' in Strip(line) && Value(Strip(line)) == "[]"
    ensures ExtractLines(before + ([line] + below)) == []
  {
    var start := Extraction(false, None, []);
    FoldAppend(ExtractStep, before, [line] + below, start);
    ExtractForeigns(before, start);
    FoldFirst(ExtractStep, line, below, start);
    KeyOfStripped(line);
    ExtractField(line, start);
    ExtractForeigns(below, start);
  }

  // ----- relations_parser on a whole text -----

  /** A line as the readers see it. */
  predicate OneLine(line: string) {
    forall i :: 0 <= i < |line| ==> !IsBreak(line[i])
  }

  predicate NoMark(s: string) {
    forall j :: 0 <= j <= |s| ==> !(MARK <= s[j..])
  }

  /** A frontmatter document: the marker, the lines, the marker, and the rest of the file. */
  function File(lines: seq<string>, rest: string): string
    requires |lines| >= 1
  {
    "---\n" + Join(lines, '\n') + "\n---" + rest
  }

  lemma OneLineSplit(lines: seq<string>)
    requires |lines| >= 1 && forall i :: 0 <= i < |lines| ==> OneLine(lines[i])
    ensures Split(Join(lines, '\n'), '\n') == lines
  {
    forall p | p in lines ensures '\n' !in p {
      var i :| 0 <= i < |lines| && lines[i] == p;
      assert OneLine(lines[i]) && IsBreak('\n');
    }
    SplitOfJoin(lines, '\n');
  }

  /** A line has its effect through its stripped text and its indentation. */
  lemma ExtractSame(line: string, other: string, st: Extraction)
    requires Strip(line) == Strip(other) && (Strip(line) != "" ==> Indented(line) == Indented(other))
    ensures ExtractStep(line, st) == ExtractStep(other, st)
  { }

  /** White space at the end of a line has no effect. */
  lemma ExtractPadded(line: string, c: char, st: Extraction)
    requires IsSpace(c)
    ensures ExtractStep(line + [c], st) == ExtractStep(line, st)
  {
    StripPadRight(line, [c]);
    if |line| > 0 {
      assert (line + [c])[0] == line[0];
    } else {
      assert Strip(line) == "";
    }
    ExtractSame(line + [c], line, st);
  }

  lemma ExtractLastLine(init: seq<string>, last: string, other: string, st: Extraction)
    requires forall mid :: ExtractStep(last, mid) == ExtractStep(other, mid)
    ensures Fold(ExtractStep, init + [last], st) == Fold(ExtractStep, init + [other], st)
  {
    var mid := Fold(ExtractStep, init, st);
    FoldAppend(ExtractStep, init, [last], st);
    FoldAppend(ExtractStep, init, [other], st);
    FoldFirst(ExtractStep, last, [], mid);
    FoldFirst(ExtractStep, other, [], mid);
  }

  lemma ExtractNewline(s: string, st: Extraction)
    ensures Fold(ExtractStep, Split(s + "\n", '\n'), st) == Fold(ExtractStep, Split(s, '\n'), st)
  {
    assert s + "\n" == s + ['\n'] + [];
    SplitAppend(s, [], '\n');
    FoldAppend(ExtractStep, Split(s, '\n'), [""], st);
    FoldFirst(ExtractStep, "", [], Fold(ExtractStep, Split(s, '\n'), st));
  }

  lemma ExtractTrailing(s: string, c: char, st: Extraction)
    requires IsSpace(c)
    ensures Fold(ExtractStep, Split(s + [c], '\n'), st) == Fold(ExtractStep, Split(s, '\n'), st)
  {
    if c == '\n' {
      ExtractNewline(s, st);
    } else {
      var lines := Split(s, '\n');
      var init, last := lines[..|lines| - 1], lines[|lines| - 1];
      assert lines == init + [last];
      SplitLonger(s, c, '\n');
      forall mid ensures ExtractStep(last, mid) == ExtractStep(last + [c], mid) {
        ExtractPadded(last, c, mid);
      }
      ExtractLastLine(init, last, last + [c], st);
    }
  }

  lemma {:induction false} ExtractTrailingSpace(s: string, pad: string, st: Extraction)
    requires AllSpace(pad)
    ensures Fold(ExtractStep, Split(s + pad, '\n'), st) == Fold(ExtractStep, Split(s, '\n'), st)
    decreases |pad|
  {
    if |pad| == 0 {
      assert s + pad == s;
    } else {
      assert s + pad == (s + [pad[0]]) + pad[1..];
      ExtractTrailingSpace(s + [pad[0]], pad[1..], st);
      ExtractTrailing(s, pad[0], st);
    }
  }

  lemma ForeignStripped(line: string)
    requires Foreign(line)
    ensures Foreign(StripLeft(line))
  {
    var pad := StripLeftSplit(line);
    var core := StripLeft(line);
    if ':' in core {
      KeyPadded(pad, core, "");
      AppendNothing(pad + core);
    }
  }

  lemma AppendNothing(s: string)
    ensures s + "" == s
  { }

  lemma OneLineStripped(line: string)
    requires OneLine(line)
    ensures OneLine(StripLeft(line))
  { }

  predicate Before(before: seq<string>) {
    forall i :: 0 <= i < |before| ==> Foreign(before[i]) && OneLine(before[i])
  }

  lemma JoinFirst(line: string, rest: seq<string>)
    requires |rest| >= 1
    ensures Join([line] + rest, '\n') == line + ("\n" + Join(rest, '\n'))
  {
    var all, tail := [line] + rest, Join(rest, '\n');
    assert all[1..] == rest;
    assert Join(all, '\n') == line + ['\n'] + tail;
    ConcatAssociative(line, ['\n'], tail);
  }

  lemma HeadingStays(heading: string, tail: string)
    requires Heading(heading)
    ensures StripLeft(heading + tail) == heading + tail
  {
    assert (heading + tail)[0] == heading[0];
  }

  lemma NewlineSkips(tail: string)
    ensures StripLeft("\n" + tail) == StripLeft(tail)
  {
    assert ("\n" + tail)[1..] == tail;
  }

  lemma StripBlankLine(line: string, rest: seq<string>)
    requires StripLeft(line) == "" && |rest| >= 1
    ensures StripLeft(Join([line] + rest, '\n')) == StripLeft(Join(rest, '\n'))
  {
    JoinFirst(line, rest);
    StripLeftSkips(line, "\n" + Join(rest, '\n'));
    NewlineSkips(Join(rest, '\n'));
  }

  lemma StripSolidLine(line: string, rest: seq<string>)
    requires StripLeft(line) != "" && |rest| >= 1
    ensures StripLeft(Join([line] + rest, '\n')) == Join([StripLeft(line)] + rest, '\n')
  {
    JoinFirst(line, rest);
    JoinFirst(StripLeft(line), rest);
    StripLeftKeeps(line, "\n" + Join(rest, '\n'));
  }

  lemma StrippedBefore(before: seq<string>)
    requires Before(before) && |before| > 0
    ensures Before([StripLeft(before[0])] + before[1..])
  {
    ForeignStripped(before[0]);
    OneLineStripped(before[0]);
  }

  /** Stripping the text on the left leaves lines of the same form. */
  lemma {:induction false} StripBefore(before: seq<string>, body: seq<string>) returns (shorter: seq<string>)
    requires Before(before) && |body| >= 1 && StripLeft(Join(body, '\n')) == Join(body, '\n')
    ensures Before(shorter)
    ensures StripLeft(Join(before + body, '\n')) == Join(shorter + body, '\n')
  {
    if |before| == 0 {
      shorter := [];
      assert [] + body == body && before + body == body;
    } else {
      var line, rest := before[0], before[1..] + body;
      assert before == [line] + before[1..];
      ConcatAssociative([line], before[1..], body);
      if StripLeft(line) == "" {
        shorter := StripBefore(before[1..], body);
        StripBlankLine(line, rest);
      } else {
        shorter := [StripLeft(line)] + before[1..];
        ConcatAssociative([StripLeft(line)], before[1..], body);
        StripSolidLine(line, rest);
        StrippedBefore(before);
      }
    }
  }

  lemma {:induction false} WithoutNoiseBlank(lines: seq<string>)
    ensures WithoutNoise(lines + [""]) == WithoutNoise(lines)
  {
    if |lines| > 0 {
      assert lines + [""] == [lines[0]] + (lines[1..] + [""]);
      WithoutNoiseFirst(lines[0], lines[1..] + [""]);
      WithoutNoiseBlank(lines[1..]);
      assert lines == [lines[0]] + lines[1..];
      WithoutNoiseFirst(lines[0], lines[1..]);
    }
  }

  lemma FollowsBlank(after: seq<string>)
    requires Follows(after)
    ensures Follows(after + [""])
  {
    WithoutNoiseBlank(after);
  }

  predicate OneLines(lines: seq<string>) {
    forall i :: 0 <= i < |lines| ==> OneLine(lines[i])
  }

  /** The marker that closes the frontmatter is the first one after the opening. */
  lemma FindClosingMark(text: string, rest: string)
    requires NoMark(text)
    ensures BetweenMarks("---\n" + text + "\n---" + rest) == Some("\n" + text + "\n")
  {
    var content := "---\n" + text + "\n---" + rest;
    var end := |text| + 5;
    assert content[end..] == "---" + rest;
    forall j | 3 <= j < end ensures !(MARK <= content[j..]) {
      if j == 3 {
        assert content[j..][0] == '\n';
      } else if j + 2 < |text| + 4 {
        assert content[j..][..3] == text[j - 4..][..3];
        assert !(MARK <= text[j - 4..]);
      } else {
        assert content[j..][|text| + 4 - j] == '\n';
      }
    }
    var found := FindMark(content, 3);
    assert found == Some(end);
    assert content[3..end] == "\n" + text + "\n";
  }

  lemma {:induction false} JoinLast(lines: seq<string>, last: string)
    requires |lines| >= 1
    ensures Join(lines + [last], '\n') == Join(lines, '\n') + "\n" + last
  {
    if |lines| == 1 {
      assert (lines + [last])[1..] == [last];
    } else {
      assert (lines + [last])[1..] == lines[1..] + [last];
      JoinLast(lines[1..], last);
    }
  }

  /** The text between the markers, as lines. */
  lemma PaddedText(lines: seq<string>)
    requires |lines| >= 1
    ensures "\n" + Join(lines, '\n') + "\n" == Join([""] + (lines + [""]), '\n')
  {
    var text := Join(lines, '\n');
    JoinLast(lines, "");
    JoinFirst("", lines + [""]);
    PaddingParts(text);
  }

  lemma PaddingParts(text: string)
    ensures "\n" + text + "\n" == "" + ("\n" + (text + "\n" + ""))
  { }

  lemma ExtractStripped(lines: seq<string>)
    requires |lines| >= 1 && OneLines(lines)
    ensures ExtractLines(Split(StripRight(Join(lines, '\n')), '\n')) == ExtractLines(lines)
  {
    var v := Join(lines, '\n');
    OneLineSplit(lines);
    var pad := StripRightSplit(v);
    ExtractTrailingSpace(StripRight(v), pad, Extraction(false, None, []));
  }

  lemma ExtractText(before: seq<string>, heading: string, block: seq<string>, after: seq<string>, entries: seq<Element>)
    requires OneLines(Document(before, heading, block, after)) && Before(before) && Heading(heading)
    requires Block(block, entries) && Follows(after)
    ensures ExtractLines(Split(Strip("\n" + Join(Document(before, heading, block, after), '\n') + "\n"), '\n')) ==
            ItemsOf(StripEntries(entries))
  {
    var body := [heading] + (block + (after + [""]));
    DocumentText(before, heading, block, after);
    var shorter := StripDocument(before, heading, block + (after + [""]));
    FollowsBlank(after);
    ExtractDocument(shorter, heading, block, after + [""], entries);
    BodyOneLines(before, heading, block, after);
    ExtractStripped(shorter + body);
  }

  lemma StripDocument(before: seq<string>, heading: string, rest: seq<string>) returns (shorter: seq<string>)
    requires Before(before) && Heading(heading) && |rest| >= 1
    ensures Before(shorter)
    ensures StripLeft(Join(([""] + before) + ([heading] + rest), '\n')) == Join(shorter + ([heading] + rest), '\n')
  {
    BodyStays(heading, rest);
    BlankBefore(before);
    shorter := StripBefore([""] + before, [heading] + rest);
  }

  lemma BlankBefore(before: seq<string>)
    requires Before(before)
    ensures Before([""] + before)
  { }

  lemma BodyStays(heading: string, rest: seq<string>)
    requires Heading(heading) && |rest| >= 1
    ensures StripLeft(Join([heading] + rest, '\n')) == Join([heading] + rest, '\n')
  {
    JoinFirst(heading, rest);
    HeadingStays(heading, "\n" + Join(rest, '\n'));
  }

  lemma DocumentText(before: seq<string>, heading: string, block: seq<string>, after: seq<string>)
    ensures "\n" + Join(Document(before, heading, block, after), '\n') + "\n" ==
            Join(([""] + before) + ([heading] + (block + (after + [""]))), '\n')
  {
    var lines := Document(before, heading, block, after);
    PaddedText(lines);
    assert [""] + (lines + [""]) == ([""] + before) + ([heading] + (block + (after + [""])));
  }

  lemma BodyOneLines(before: seq<string>, heading: string, block: seq<string>, after: seq<string>)
    requires OneLines(Document(before, heading, block, after))
    ensures OneLines([heading] + (block + (after + [""])))
  {
    var lines := Document(before, heading, block, after);
    var body := [heading] + (block + (after + [""]));
    forall i | 0 <= i < |body| ensures OneLine(body[i]) {
      assert i < |body| - 1 ==> body[i] == lines[|before| + i];
    }
  }

  /** Taking off quotes changes no item exactly when no value is quoted. */
  lemma StrippedIffQuoted(entries: seq<Element>)
    requires Entries(entries)
    ensures ItemsOf(StripEntries(entries)) == ItemsOf(entries) <==> NoneQuoted(entries)
  {
    if NoneQuoted(entries) {
      forall i | 0 <= i < |entries| ensures StripEntries(entries)[i] == entries[i] {
        if entries[i].Keyed? {
          NothingToStrip(entries[i].pairs);
        }
      }
    }
    if i, j :| 0 <= i < |entries| && entries[i].Keyed? && 0 <= j < |entries[i].pairs| && Quoted(entries[i].pairs[j].value) {
      var e := entries[i].pairs;
      assert GoodElement(entries[i]);
      PairsHold(map[], e, j);
      PairsHold(map[], StripEntry(e), j);
      assert |StripQuotes(e[j].value)| < |e[j].value|;
      assert ItemsOf(StripEntries(entries))[i] != ItemsOf(entries)[i];
    }
  }

  lemma NothingToStrip(e: seq<Pair>)
    requires forall j :: 0 <= j < |e| ==> !Quoted(e[j].value)
    ensures StripEntry(e) == e
  { }

  /** Extracting from a file gives back exactly the printed entries without their quotes, whatever surrounds the block. */
  lemma ExtractRoundTrip(before: seq<string>, heading: string, block: seq<string>, after: seq<string>,
                         entries: seq<Element>,
                         rest: string)
    requires OneLines(Document(before, heading, block, after)) && Before(before) && Heading(heading)
    requires Block(block, entries) && Follows(after)
    requires NoMark(Join(Document(before, heading, block, after), '\n'))
    ensures ExtractRelations(File(Document(before, heading, block, after), rest)) == ItemsOf(StripEntries(entries))
    ensures ExtractRelations(File(Document(before, heading, block, after), rest)) == ItemsOf(entries) <==>
              NoneQuoted(entries)
  {
    FindClosingMark(Join(Document(before, heading, block, after), '\n'), rest);
    ExtractText(before, heading, block, after, entries);
    StrippedIffQuoted(entries);
  }

  // ----- a file that is nothing but the block -----

  predicate Visible(lines: seq<string>) {
    forall i :: 0 <= i < |lines| ==> !Noise(lines[i]) && OneLine(lines[i])
  }

  lemma {:induction false} VisibleStays(lines: seq<string>)
    requires Visible(lines)
    ensures WithoutNoise(lines) == lines
  {
    if |lines| > 0 {
      VisibleStays(lines[1..]);
      assert lines == [lines[0]] + lines[1..];
    }
  }

  lemma {:induction false} NextLinesVisible(e: seq<Pair>)
    requires forall i :: 0 <= i < |e| ==> PlainPair(e[i]) && Continues(e[i])
    ensures Visible(NextLines(e))
  {
    if |e| > 0 {
      StripNext(e[0]);
      BodyStart(e[0]);
      NextLinesVisible(e[1..]);
    }
  }

  lemma EntryLinesVisible(e: seq<Pair>)
    requires Entry(e)
    ensures Visible(EntryLines(e))
  {
    StripFirst(e[0]);
    NextLinesVisible(e[1..]);
  }

  lemma ElementLinesVisible(e: Element)
    requires GoodElement(e)
    ensures Visible(ElementLines(e))
  {
    match e {
      case Keyed(pairs) => EntryLinesVisible(pairs);
      case BareText(text) => StripBare(text);
    }
  }

  lemma {:induction false} PrintBlockVisible(entries: seq<Element>)
    requires Entries(entries)
    ensures Visible(PrintBlock(entries))
  {
    if |entries| > 0 {
      ElementLinesVisible(entries[0]);
      PrintBlockVisible(entries[1..]);
    }
  }

  lemma DocumentAlone(heading: string, block: seq<string>)
    ensures Document([], heading, block, []) == [heading] + block
  { }

  /** Any list of entries, printed under the heading with no marker inside, comes back without its quotes. */
  lemma CanonicalRoundTrip(heading: string, entries: seq<Element>, rest: string)
    requires Heading(heading) && OneLine(heading)
    requires Entries(entries) && NoMark(Join([heading] + PrintBlock(entries), '\n'))
    ensures ExtractRelations(File([heading] + PrintBlock(entries), rest)) == ItemsOf(StripEntries(entries))
    ensures ExtractRelations(File([heading] + PrintBlock(entries), rest)) == ItemsOf(entries) <==> NoneQuoted(entries)
  {
    var block := PrintBlock(entries);
    PrintBlockVisible(entries);
    VisibleStays(block);
    PrintBlockSpaced(entries);
    DocumentAlone(heading, block);
    ExtractRoundTrip([], heading, block, [], entries, rest);
  }

  // ----- what the reader looks at -----

  /** Matching quotes go, and only those. */
  lemma QuotesGo(q: char, t: string)
    ensures q == '"' || q == '\'' ==> StripQuotes([q] + t + [q]) == t
    ensures q != '"' && q != '\'' ==> StripQuotes([q] + t) == [q] + t
    ensures |t| > 0 && t[|t| - 1] != q ==> StripQuotes([q] + t) == [q] + t
    ensures StripQuotes([q]) == [q] && StripQuotes("") == ""
  {
    var s := [q] + t + [q];
    assert s[1..|s| - 1] == t;
  }

  /** A line is passed over exactly when it is blank or its first visible character is a hash. */
  lemma NoiseIff(line: string)
    ensures Noise(line) <==> AllSpace(line) || exists pad, rest :: AllSpace(pad) && line == pad + "#" + rest
  {
    StripIsEmpty(line);
    var left, right := StripParts(line);
    var core := Strip(line);
    if core != "" && core[0] == '#' {
      assert core == "#" + core[1..];
      assert line == left + "#" + (core[1..] + right);
    }
    forall pad, rest | AllSpace(pad) && line == pad + "#" + rest ensures Noise(line) {
      HashIsNoise(pad, rest);
    }
  }

  lemma HashIsNoise(pad: string, rest: string)
    requires AllSpace(pad)
    ensures Strip(pad + "#" + rest) != "" && Strip(pad + "#" + rest)[0] == '#'
  {
    assert pad + "#" + rest == pad + ("#" + rest);
    StripLeftSpace(pad, "#" + rest);
    StripRightHead("#", rest);
  }

  /** `rstrip` leaves a text in front that ends visibly. */
  lemma {:induction false} StripRightHead(s: string, rest: string)
    requires |s| > 0 && !IsSpace(s[|s| - 1])
    ensures s <= StripRight(s + rest)
  {
    if |rest| > 0 {
      assert (s + rest)[..|s + rest| - 1] == s + rest[..|rest| - 1];
      StripRightHead(s, rest[..|rest| - 1]);
    } else {
      assert s + rest == s;
    }
  }

  /** A line with a colon that starts with neither space nor tab decides whether the list goes on; no other line does. */
  lemma HeadingDecides(line: string, st: Extraction)
    requires !Noise(line)
    ensures line[0] != ' ' && line[0] != '\t' && ':' in Strip(line) ==>
              (ExtractStep(line, st).inRelations <==> Key(Strip(line)) == "relations" && Value(Strip(line)) != "[]")
    ensures line[0] == ' ' || line[0] == '\t' || ':' !in Strip(line) ==>
            ExtractStep(line, st).inRelations == st.inRelations
  { }

  /** Without two markers, the first at the very start, there are no relations. */
  lemma NoMarksNothing(content: string)
    requires !("---" <= content) || forall j :: 3 <= j <= |content| ==> !("---" <= content[j..])
    ensures ExtractRelations(content) == []
  { }
}

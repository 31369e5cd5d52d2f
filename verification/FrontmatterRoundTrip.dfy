/** docmeta.parse_frontmatter yields the same relation entries as relations_parser. */
module FrontmatterRoundTrip {
  import opened Wrappers
  import opened Text
  import opened RelationsParsers
  import opened RelationsRoundTrip

  // ----- one line -----

  lemma ParseSkipsNoise()
    ensures SkipsNoise(ParseStep)
  { }

  /** No relations block is being read. */
  predicate Outside(st: Parsing) {
    st.key != Some("relations") && st.current.None?
  }

  /** A relations block is being read. */
  predicate Reading(st: Parsing) {
    st.key == Some("relations") && st.relations.Some? && st.relations.value.List?
  }

  function Read(st: Parsing): seq<Item>
    requires Reading(st)
  {
    var flushed := FlushEntry(st);
    flushed.relations.value.items
  }

  lemma ParseItem(line: string, item: string, st: Parsing)
    requires Reading(st) && |line| > 0 && line[0] == ' ' && Strip(line) == "- " + item && Trimmed(item) && ':' in item
    ensures ParseStep(line, st) == FlushEntry(st).(current := Some(map[Key(item) := Value(item)]))
  {
    DashItem(line, item);
    StripTrimmed(item);
    assert ParseStep(line, st) == ItemStep(item, st);
  }

  lemma DashItem(line: string, item: string)
    requires Strip(line) == "- " + item
    ensures Strip(line)[2..] == item && "- " <= Strip(line) && !Noise(line)
  {
    assert Strip(line)[0] == '-';
  }

  lemma ParseContinuation(line: string, body: string, st: Parsing)
    requires Reading(st) && st.current.Some? && |line| > 0 && line[0] == ' ' && Strip(line) == body && ':' in body
    requires !("- " <= body) && body[0] != '#'
    ensures ParseStep(line, st) == st.(current := Some(st.current.value[Key(body) := Value(body)]))
  { }

  lemma ParseFirst(p: Pair, st: Parsing)
    requires PlainPair(p) && Reading(st)
    ensures ParseStep(FirstLine(p), st) == FlushEntry(st).(current := Some(map[p.key := p.value]))
  {
    StripFirst(p);
    BodyParts(p);
    BodyTrimmed(p);
    ParseItem(FirstLine(p), Body(p), st);
  }

  lemma ParseNext(p: Pair, st: Parsing)
    requires PlainPair(p) && Continues(p) && Reading(st) && st.current.Some?
    ensures ParseStep(NextLine(p), st) == st.(current := Some(st.current.value[p.key := p.value]))
  {
    StripNext(p);
    BodyParts(p);
    BodyStart(p);
    ParseContinuation(NextLine(p), Body(p), st);
  }

  // ----- the block -----

  lemma {:induction false} ParseNexts(e: seq<Pair>, st: Parsing)
    requires forall i :: 0 <= i < |e| ==> PlainPair(e[i]) && Continues(e[i])
    requires Reading(st) && st.current.Some?
    ensures Fold(ParseStep, NextLines(e), st) == st.(current := Some(Pairs(st.current.value, e)))
  {
    if |e| > 0 {
      ParseNext(e[0], st);
      ParseNexts(e[1..], st.(current := Some(st.current.value[e[0].key := e[0].value])));
      assert NextLines(e)[1..] == NextLines(e[1..]);
    }
  }

  lemma ParseEntry(e: seq<Pair>, st: Parsing)
    requires Entry(e) && Reading(st)
    ensures Fold(ParseStep, EntryLines(e), st) == FlushEntry(st).(current := Some(Pairs(map[], e)))
  {
    ParseFirst(e[0], st);
    ParseNexts(e[1..], FlushEntry(st).(current := Some(map[e[0].key := e[0].value])));
    FoldFirst(ParseStep, FirstLine(e[0]), NextLines(e[1..]), st);
    assert Pairs(map[], e) == Pairs(map[e[0].key := e[0].value], e[1..]);
  }

  lemma ParseBare(text: string, st: Parsing)
    requires Reading(st) && GoodElement(BareText(text))
    ensures ParseStep(BareLine(text), st) == FlushEntry(st).(relations := Appended(FlushEntry(st).relations, Bare(text)))
  {
    StripBare(text);
    assert ("- " + text)[2..] == text;
    StripTrimmed(text);
    assert ParseStep(BareLine(text), st) == ItemStep(text, st);
  }

  /** The state after the lines of one element. */
  function AfterParsed(e: Element, st: Parsing): Parsing {
    match e
    case Keyed(pairs) => FlushEntry(st).(current := Some(Pairs(map[], pairs)))
    case BareText(text) => FlushEntry(st).(relations := Appended(FlushEntry(st).relations, Bare(text)))
  }

  lemma ParseElement(e: Element, st: Parsing)
    requires GoodElement(e) && Reading(st)
    ensures Fold(ParseStep, ElementLines(e), st) == AfterParsed(e, st) && Reading(AfterParsed(e, st))
    ensures Read(AfterParsed(e, st)) == Read(st) + [ItemOf(e)]
  {
    match e {
      case Keyed(pairs) => ParseEntry(pairs, st);
      case BareText(text) =>
        ParseBare(text, st);
        FoldFirst(ParseStep, BareLine(text), [], st);
        assert [BareLine(text)] + [] == [BareLine(text)];
    }
  }

  lemma {:induction false} ParseBlock(entries: seq<Element>, st: Parsing)
    requires Reading(st) && Entries(entries)
    ensures var end := Fold(ParseStep, PrintBlock(entries), st);
            Reading(end) && Read(end) == Read(st) + ItemsOf(entries)
  {
    if |entries| > 0 {
      var e, rest := entries[0], entries[1..];
      ParseElement(e, st);
      ParseBlock(rest, AfterParsed(e, st));
      FoldAppend(ParseStep, ElementLines(e), PrintBlock(rest), st);
      ConcatAssociative(Read(st), [ItemOf(e)], ItemsOf(rest));
    }
  }

  /** The block's lines all start with a space, which this reader asks for. */
  predicate Spaced(block: seq<string>) {
    forall i :: 0 <= i < |WithoutNoise(block)| ==> |WithoutNoise(block)[i]| > 0 && WithoutNoise(block)[i][0] == ' '
  }

  /** Lines that differ in indentation and trailing white space only. */
  lemma ParseSame(line: string, printed: string, st: Parsing)
    requires Strip(line) == Strip(printed) && |line| > 0 && line[0] == ' ' && |printed| > 0 && printed[0] == ' '
    ensures ParseStep(line, st) == ParseStep(printed, st)
  {
    KeyOfStripped(line);
    KeyOfStripped(printed);
    if ':' in line {
      ValueOfStripped(line);
      ValueOfStripped(printed);
    }
  }

  lemma {:induction false} ParseLike(lines: seq<string>, printed: seq<string>, st: Parsing)
    requires AllLike(lines, printed)
    requires forall i :: 0 <= i < |lines| ==> |lines[i]| > 0 && lines[i][0] == ' '
    requires forall i :: 0 <= i < |printed| ==> |printed[i]| > 0 && printed[i][0] == ' '
    ensures Fold(ParseStep, lines, st) == Fold(ParseStep, printed, st)
  {
    if |lines| > 0 {
      assert Like(lines[0], printed[0]);
      ParseSame(lines[0], printed[0], st);
      forall i | 0 <= i < |lines[1..]| ensures Like(lines[1..][i], printed[1..][i]) {
        assert Like(lines[i + 1], printed[i + 1]);
      }
      ParseLike(lines[1..], printed[1..], ParseStep(lines[0], st));
    }
  }

  // ----- around the block -----

  lemma ParseHeading(line: string, st: Parsing)
    requires Heading(line) && Outside(st)
    ensures ParseStep(line, st) == Parsing(Some(List([])), Some("relations"), None)
  {
    StripTrimmed(line);
  }

  lemma ParseForeign(line: string, st: Parsing)
    requires Foreign(line) && Outside(st)
    ensures Outside(ParseStep(line, st)) && ParseStep(line, st).relations == st.relations
  { }

  lemma {:induction false} ParseForeigns(lines: seq<string>, st: Parsing)
    requires Outside(st) && forall i :: 0 <= i < |lines| ==> Foreign(lines[i])
    ensures Outside(Fold(ParseStep, lines, st)) && Fold(ParseStep, lines, st).relations == st.relations
  {
    if |lines| > 0 {
      ParseForeign(lines[0], st);
      ParseForeigns(lines[1..], ParseStep(lines[0], st));
    }
  }

  lemma ParseClosing(line: string, st: Parsing)
    requires TopField(line) && Foreign(line) && Reading(st)
    ensures Outside(ParseStep(line, st)) && ParseStep(line, st).relations == Some(List(Read(st)))
  { }

  lemma ParseAfter(after: seq<string>, st: Parsing)
    requires Follows(after) && Reading(st)
    ensures FlushEntry(Fold(ParseStep, after, st)).relations == Some(List(Read(st)))
  {
    ParseSkipsNoise();
    FoldWithoutNoise(ParseStep, after, st);
    var lines := WithoutNoise(after);
    NoiselessForeign(after);
    if |lines| > 0 {
      ParseClosing(lines[0], st);
      ParseForeigns(lines[1..], ParseStep(lines[0], st));
    }
  }

  /** The entries come back from the lines of a document. */
  lemma ParseDocument(before: seq<string>, heading: string, block: seq<string>, after: seq<string>,
                      entries: seq<Element>)
    requires (forall i :: 0 <= i < |before| ==> Foreign(before[i])) && Heading(heading)
    requires Block(block, entries) && Spaced(block) && Follows(after)
    ensures ParseLines(Document(before, heading, block, after)) == Some(List(ItemsOf(entries)))
  {
    var start := Parsing(None, None, None);
    var inside := Parsing(Some(List([])), Some("relations"), None);
    var preceded := Fold(ParseStep, before, start);
    FoldAppend(ParseStep, before, [heading] + (block + after), start);
    ParseForeigns(before, start);
    FoldFirst(ParseStep, heading, block + after, preceded);
    ParseHeading(heading, preceded);
    FoldAppend(ParseStep, block, after, inside);
    ParseSkipsNoise();
    FoldWithoutNoise(ParseStep, block, inside);
    PrintBlockSpaced(entries);
    ParseLike(WithoutNoise(block), PrintBlock(entries), inside);
    ParseBlock(entries, inside);
    ParseAfter(after, Fold(ParseStep, block, inside));
    assert [] + ItemsOf(entries) == ItemsOf(entries);
  }

  // ----- the whole text -----

  lemma FirstBreakIs(s: string, n: nat)
    requires n <= |s| && (forall i :: 0 <= i < n ==> !IsBreak(s[i])) && (n < |s| ==> IsBreak(s[n]))
    ensures FirstBreak(s) == n
  { }

  lemma SplitLinesFirst(line: string, tail: string)
    requires OneLine(line)
    ensures SplitLines(line + ("\n" + tail)) == [line] + SplitLines(tail)
  {
    var s := line + ("\n" + tail);
    assert s[|line|] == '\n';
    FirstBreakIs(s, |line|);
    assert s[..|line|] == line && s[|line| + 1..] == tail;
  }

  lemma SplitLinesLast(line: string)
    requires OneLine(line)
    ensures SplitLines(line) == if line == "" then [] else [line]
  {
    FirstBreakIs(line, |line|);
  }

  /** Splitting joined lines loses at most an empty last line, which has no effect. */
  lemma {:induction false} SplitLinesJoined(lines: seq<string>, st: Parsing)
    requires |lines| >= 1 && OneLines(lines)
    ensures Fold(ParseStep, SplitLines(Join(lines, '\n')), st) == Fold(ParseStep, lines, st)
    decreases |lines|
  {
    var line, rest := lines[0], lines[1..];
    if |lines| == 1 {
      SplitLinesLast(line);
      assert lines == [line] + [];
      FoldFirst(ParseStep, line, [], st);
      assert line == "" ==> Noise(line);
    } else {
      JoinFirst(line, rest);
      assert lines == [line] + rest;
      SplitLinesFirst(line, Join(rest, '\n'));
      SplitLinesJoined(rest, ParseStep(line, st));
      FoldFirst(ParseStep, line, SplitLines(Join(rest, '\n')), st);
    }
  }

  /** The end of the file, or of the line that holds the closing marker. */
  predicate ClosesLine(rest: string) {
    rest == "" || NewlineLength(rest) > 0
  }

  lemma NoMarkBefore(text: string, rest: string, i: nat)
    requires NoMark(text) && i <= |text|
    ensures !(MARK <= (text + "\n---" + rest)[i..])
  {
    var s := text + "\n---" + rest;
    if i + 3 <= |text| {
      assert s[i..][..3] == text[i..][..3];
      assert !(MARK <= text[i..]);
    } else {
      assert s[i..][|text| - i] == '\n';
    }
  }

  lemma NotClosedBefore(text: string, rest: string, j: nat)
    requires NoMark(text) && j < |text| && text[|text| - 1] != '\r'
    ensures !ClosesAt(text + "\n---" + rest, j)
  {
    var s := text + "\n---" + rest;
    assert s[j..][0] == text[j];
    NoMarkBefore(text, rest, j + 1);
    if j + 2 <= |text| {
      NoMarkBefore(text, rest, j + 2);
    }
  }

  lemma ClosedAt(text: string, rest: string)
    requires ClosesLine(rest)
    ensures ClosesAt(text + "\n---" + rest, |text|)
  {
    var s := text + "\n---" + rest;
    assert s[|text|..] == "\n---" + rest;
    assert s[|text|..][0] == '\n';
    assert NewlineLength(s[|text|..]) == 1;
    assert s[|text| + 1..] == "---" + rest;
    assert s[|text| + 4..] == rest;
  }

  lemma {:induction false} LastChar(lines: seq<string>)
    requires |lines| >= 1 && OneLines(lines)
    ensures var text := Join(lines, '\n'); text != "" ==> text[|text| - 1] != '\r'
  {
    if |lines| > 1 {
      JoinFirst(lines[0], lines[1..]);
      assert lines == [lines[0]] + lines[1..];
      LastChar(lines[1..]);
    }
  }

  lemma FindCloseIs(s: string, i: nat, end: nat)
    requires i <= end <= |s| && ClosesAt(s, end) && forall j :: i <= j < end ==> !ClosesAt(s, j)
    ensures FindClose(s, i) == Some(end)
  { }

  lemma FrontmatterStarts(tail: string)
    ensures MARK <= "---\n" + tail && NewlineLength(("---\n" + tail)[3..]) == 1
  {
    assert ("---\n" + tail)[3..] == "\n" + tail && ("\n" + tail)[0] == '\n';
  }

  lemma FrontmatterTextIs(text: string, rest: string)
    requires NoMark(text) && ClosesLine(rest) && (text != "" ==> text[|text| - 1] != '\r')
    ensures FrontmatterText("---\n" + text + "\n---" + rest) == Some(text)
  {
    var tail := text + "\n---" + rest;
    var content := "---\n" + tail;
    assert content == "---\n" + text + "\n---" + rest;
    FrontmatterStarts(tail);
    ClosesFirst(text, rest);
    assert content[4..|text| + 4] == text;
  }

  lemma NotClosedWithin(text: string, rest: string, j: nat)
    requires NoMark(text) && j < |text| && text[|text| - 1] != '\r'
    ensures !ClosesAt("---\n" + (text + "\n---" + rest), j + 4)
  {
    NotClosedBefore(text, rest, j);
    ClosesShifted(text + "\n---" + rest, j);
  }

  lemma ClosesFirst(text: string, rest: string)
    requires NoMark(text) && ClosesLine(rest) && (text != "" ==> text[|text| - 1] != '\r')
    ensures FindClose("---\n" + (text + "\n---" + rest), 4) == Some(|text| + 4)
  {
    ClosedAt(text, rest);
    ClosesShifted(text + "\n---" + rest, |text|);
    forall j | 4 <= j < |text| + 4 ensures !ClosesAt("---\n" + (text + "\n---" + rest), j) {
      NotClosedWithin(text, rest, j - 4);
    }
    FindCloseIs("---\n" + (text + "\n---" + rest), 4, |text| + 4);
  }

  lemma ClosesShifted(tail: string, j: nat)
    requires j <= |tail|
    ensures ClosesAt("---\n" + tail, j + 4) <==> ClosesAt(tail, j)
  {
    var s := "---\n" + tail;
    assert s[j + 4..] == tail[j..];
    var n := NewlineLength(tail[j..]);
    assert s[j + 4 + n..] == tail[j + n..];
    if MARK <= tail[j + n..] {
      assert s[j + 4 + n + 3..] == tail[j + n + 3..];
    }
  }

  /** Parsing a file's frontmatter finds under `relations` exactly the printed entries. */
  lemma ParseRoundTrip(before: seq<string>, heading: string, block: seq<string>, after: seq<string>,
                      entries: seq<Element>, rest: string)
    requires OneLines(Document(before, heading, block, after)) && Before(before) && Heading(heading)
    requires Block(block, entries) && Spaced(block) && Follows(after) && ClosesLine(rest)
    requires NoMark(Join(Document(before, heading, block, after), '\n'))
    ensures ParsedRelations(File(Document(before, heading, block, after), rest)) == Some(List(ItemsOf(entries)))
  {
    var lines := Document(before, heading, block, after);
    LastChar(lines);
    FrontmatterTextIs(Join(lines, '\n'), rest);
    SplitLinesJoined(lines, Parsing(None, None, None));
    ParseDocument(before, heading, block, after, entries);
  }

  /** On canonical files the two readers agree exactly when no value is enclosed in matching quotes. */
  lemma ReadersAgree(before: seq<string>, heading: string, block: seq<string>, after: seq<string>,
                     entries: seq<Element>, rest: string)
    requires OneLines(Document(before, heading, block, after)) && Before(before) && Heading(heading)
    requires Block(block, entries) && Spaced(block) && Follows(after) && ClosesLine(rest)
    requires NoMark(Join(Document(before, heading, block, after), '\n'))
    ensures var file := File(Document(before, heading, block, after), rest);
            ParsedRelations(file) == Some(List(ExtractRelations(file))) <==> NoneQuoted(entries)
  {
    ParseRoundTrip(before, heading, block, after, entries, rest);
    ExtractRoundTrip(before, heading, block, after, entries, rest);
  }

  /** Any list of entries, printed under the heading with no marker inside, comes back as it was printed. */
  lemma ParseCanonical(heading: string, entries: seq<Element>, rest: string)
    requires Heading(heading) && OneLine(heading) && ClosesLine(rest)
    requires Entries(entries) && NoMark(Join([heading] + PrintBlock(entries), '\n'))
    ensures ParsedRelations(File([heading] + PrintBlock(entries), rest)) == Some(List(ItemsOf(entries)))
  {
    var block := PrintBlock(entries);
    PrintBlockVisible(entries);
    VisibleStays(block);
    PrintBlockSpaced(entries);
    DocumentAlone(heading, block);
    ParseRoundTrip([], heading, block, [], entries, rest);
  }

  /** A file with one entry of one pair. */
  lemma OnePair(heading: string, p: Pair)
    requires Heading(heading) && OneLine(heading) && PlainPair(p) && NoMark(Join([heading, FirstLine(p)], '\n'))
    ensures var file := File([heading, FirstLine(p)], "");
            ParsedRelations(file) == Some(List([Fields(map[p.key := p.value])])) &&
            ExtractRelations(file) == [Fields(map[p.key := StripQuotes(p.value)])]
  {
    var entries := [Keyed([p])];
    OnePairBlock(heading, entries, p);
    ParseCanonical(heading, entries, "");
    CanonicalRoundTrip(heading, entries, "");
    OnePairItems(entries, p);
    OnePairItems(StripEntries(entries), StripEntry([p])[0]);
  }

  lemma OnePairBlock(heading: string, entries: seq<Element>, p: Pair)
    requires PlainPair(p) && entries == [Keyed([p])]
    ensures Entries(entries) && [heading] + PrintBlock(entries) == [heading, FirstLine(p)]
  {
    assert Entry(entries[0].pairs);
    assert EntryLines(entries[0].pairs) == [FirstLine(p)] + [];
    assert PrintBlock(entries) == ElementLines(entries[0]) + [];
  }

  lemma OnePairItems(entries: seq<Element>, p: Pair)
    requires |entries| == 1 && entries[0].Keyed? && |entries[0].pairs| == 1 && entries[0].pairs[0] == p
    ensures ItemsOf(entries) == [Fields(map[p.key := p.value])]
  {
    assert Pairs(map[], entries[0].pairs) == Pairs(map[][p.key := p.value], entries[0].pairs[1..]);
  }

  /** One quoted value on which they differ. */
  lemma QuotedValueDiffers(heading: string, line: string)
    requires heading == "relations:" && line == "  - type: 'x'"
    ensures var file := File([heading, line], "");
            ParsedRelations(file) == Some(List([Fields(map["type" := "'x'"])])) &&
            ExtractRelations(file) == [Fields(map["type" := "x"])]
  {
    var p := Pair("type", "'x'");
    QuotedPair(p, line);
    HeadingParts(heading, Pair("relations", ""));
    NoMarkHere(heading, line);
    OnePair(heading, p);
  }

  lemma QuotedPair(p: Pair, line: string)
    requires p == Pair("type", "'x'") && line == "  - type: 'x'"
    ensures PlainPair(p) && StripQuotes(p.value) == "x" && FirstLine(p) == line
  { }

  lemma NoMarkHere(heading: string, line: string)
    requires heading == "relations:" && line == "  - type: 'x'"
    ensures NoMark(Join([heading, line], '\n'))
  {
    JoinFirst(heading, [line]);
    assert [heading] + [line] == [heading, line];
    LoneDashes(heading + ("\n" + line));
  }

  lemma LoneDashes(s: string)
    requires forall j :: 0 <= j < |s| - 1 ==> s[j] != '-' || s[j + 1] != '-'
    ensures NoMark(s)
  {
    forall j | 0 <= j <= |s| ensures !(MARK <= s[j..]) {
      assert j + 3 <= |s| ==> s[j..][0] == s[j] && s[j..][1] == s[j + 1];
    }
  }

  // ----- a list on the line of the key -----

  /** The texts, as bare items. */
  function BareItems(texts: seq<string>): (r: seq<Item>)
    ensures |r| == |texts| && forall i :: 0 <= i < |texts| ==> r[i] == Bare(texts[i])
  {
    if |texts| == 0 then [] else [Bare(texts[0])] + BareItems(texts[1..])
  }

  /** Trimmed, not empty, without a comma, and not beginning with a quote. */
  predicate InlineText(t: string) {
    Trimmed(t) && t != "" && ',' !in t && t[0] != '"' && t[0] != '\''
  }

  lemma {:induction false} InlineItemsAre(texts: seq<string>)
    requires forall i :: 0 <= i < |texts| ==> InlineText(texts[i])
    ensures InlineItems(texts) == BareItems(texts)
  {
    if |texts| > 0 {
      assert InlineText(texts[0]);
      StripTrimmed(texts[0]);
      InlineItemsAre(texts[1..]);
    }
  }

  /** `relations: [a,b]` is read as a list of bare items. */
  lemma InlineListRead(texts: seq<string>)
    requires |texts| >= 1 && forall i :: 0 <= i < |texts| ==> InlineText(texts[i])
    ensures FieldValue("relations", "[" + Join(texts, ',') + "]") == List(BareItems(texts))
  {
    var inner := Join(texts, ',');
    var val := "[" + inner + "]";
    assert Inner(val) == inner;
    forall p | p in texts ensures ',' !in p {
      var i :| 0 <= i < |texts| && texts[i] == p;
      assert InlineText(texts[i]);
    }
    SplitOfJoin(texts, ',');
    InlineItemsAre(texts);
  }

  /** Quotes around an inline item are taken off, also by this reader. */
  lemma InlineQuotesGo(t: string, q: char)
    requires q == '"' || q == '\''
    ensures Unquoted([q] + t + [q]) == t
  { }

  /** A single value under the key is no list. */
  lemma ScalarRead(val: string)
    requires val != "" && val[0] != '[' && val[0] != '"' && val[0] != '\''
    ensures FieldValue("relations", val) == Scalar(val)
  { }

  /** Lines end at these characters and at no others. */
  lemma LineBreaks(c: char)
    ensures |SplitLines("a" + [c] + "b")| == 2 <==>
              c in ['\U{000A}', '\U{000B}', '\U{000C}', '\U{000D}', '\U{001C}', '\U{001D}', '\U{001E}', '\U{0085}', '\U{2028}', '\U{2029}']
  {
    var s := "a" + [c] + "b";
    assert s[1..] == [c] + "b" && s[1..][1..] == "b" && "b"[1..] == [];
    assert FirstBreak("b") == 1 && SplitLines("b") == ["b"];
    if IsBreak(c) {
      assert FirstBreak(s) == 1 && s[2..] == "b";
    } else {
      assert FirstBreak(s[1..]) == 2;
      assert FirstBreak(s) == 3;
    }
  }

  /** Where parse_frontmatter finds a field there is an opening marker line, and another one after it. */
  lemma MarkerLines(content: string)
    requires ParsedRelations(content).Some?
    ensures "---\n" <= content || "---\r\n" <= content
    ensures exists j :: 4 < j <= |content| && content[j - 1] == '\n' && "---" <= content[j..]
  {
    var start := 3 + NewlineLength(content[3..]);
    var end := FindClose(content, start).value;
    var n := NewlineLength(content[end..]);
    assert content[end..][n - 1] == '\n';
    assert content[end + n - 1] == '\n' && "---" <= content[end + n..];
  }
}

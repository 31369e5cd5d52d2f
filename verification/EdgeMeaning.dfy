/** What the classes, counters and findings of the edge audit say about the records. */
module EdgeMeaning {
  import opened Wrappers
  import opened Text
  import opened BoundedFindings
  import opened EdgeAudit

  // ----- classes -----

  /** No type hint is given: there is none, or only white space. */
  ghost predicate Bare(hint: Field) {
    hint.Absent? || (hint.Str? && Strip(hint.text) == "")
  }

  /** What each class says of a side, of its id and of its hint. */
  ghost predicate Means(c: Class, id: string, hint: Field, nodeIds: set<string>) {
    match c
    case TypedNode => hint == Str("node") && id in nodeIds
    case TypedNodeMissing => hint == Str("node") && id !in nodeIds
    case TypedNonNode => hint == Str("account") || hint == Str("role")
    case TypedUnknown => !Bare(hint) && hint != Str("node") && hint != Str("account") && hint != Str("role")
    case UntypedExisting => Bare(hint) && id in nodeIds
    case UntypedMissing => Bare(hint) && id !in nodeIds
  }

  lemma BareIff(hint: Field)
    ensures Bare(hint) <==> Unhinted(hint)
  {
    if hint.Str? {
      StripIsEmpty(hint.text);
    }
  }

  lemma NamesAreVisible()
    ensures !AllSpace("node") && !AllSpace("account") && !AllSpace("role")
  {
    assert "node"[0] == 'n' && "account"[0] == 'a' && "role"[0] == 'r';
  }

  /** Every side is of the one class that describes it. */
  lemma ClassMeans(c: Class, id: string, hint: Field, nodeIds: set<string>)
    ensures Classify(id, hint, nodeIds) == c <==> Means(c, id, hint, nodeIds)
  {
    BareIff(hint);
    KnownHints(hint);
  }

  /** The known hints are different, and not blank. */
  lemma KnownHints(hint: Field)
    ensures hint == Str("node") ==> !Unhinted(hint) && hint != Str("account") && hint != Str("role")
    ensures hint == Str("account") || hint == Str("role") ==> !Unhinted(hint)
  {
    NamesAreVisible();
    assert "node"[0] != "account"[0] && "node"[0] != "role"[0];
  }

  // ----- counters -----

  /** Id, source and target are texts that are not blank. */
  ghost predicate Complete(e: Edge) {
    && e.id.Str? && Strip(e.id.text) != ""
    && e.sourceId.Str? && Strip(e.sourceId.text) != ""
    && e.targetId.Str? && Strip(e.targetId.text) != ""
  }

  lemma CompleteIff(e: Edge)
    ensures Complete(e) <==> Auditable(e)
  {
    if e.id.Str? && e.sourceId.Str? && e.targetId.Str? {
      StripIsEmpty(e.id.text);
      StripIsEmpty(e.sourceId.text);
      StripIsEmpty(e.targetId.text);
    }
  }

  /** The node ids are the texts that some object has as its id, without the blank ones. */
  lemma NodeIdsMean(lines: seq<Line<Field>>, x: string)
    ensures x in NodeIds(lines) <==> Record(Str(x)) in lines && Strip(x) != ""
  {
    StripIsEmpty(x);
    if x in NodeIds(lines) {
      var l :| l in lines && l.Record? && NonEmptyString(l.record) && l.record.text == x;
      assert l == Record(Str(x));
    }
    if Record(Str(x)) in lines && Strip(x) != "" {
      var l: Line<Field> := Record(Str(x));
      assert l in lines && NonEmptyString(l.record) && l.record.text == x;
    }
  }

  /** The line adds to the counter: as a record, or through its source or its target. */
  ghost predicate Shows(l: Line<Edge>, nodeIds: set<string>, k: Counter, target: bool) {
    match k
    case Records => !l.Blank? && !target
    case InvalidLines => l.InvalidJson? && !target
    case NonObjects => l.NonObject? && !target
    case Malformed => l.Record? && !Complete(l.record) && !target
    case Audited => l.Record? && Complete(l.record) && !target
    case SidesOf(c) =>
      && l.Record? && Complete(l.record)
      && (if target then Means(c, l.record.targetId.text, l.record.targetType, nodeIds)
          else Means(c, l.record.sourceId.text, l.record.sourceType, nodeIds))
    case AnyMissing =>
      l.Record? && Complete(l.record) && !target && (SourceLost(l.record, nodeIds) || TargetLost(l.record, nodeIds))
    case BothMissing =>
      l.Record? && Complete(l.record) && !target && SourceLost(l.record, nodeIds) && TargetLost(l.record, nodeIds)
  }

  /** The side should be a node, as far as its hint says, and is none. */
  ghost predicate Lost(id: string, hint: Field, nodeIds: set<string>) {
    id !in nodeIds && (Bare(hint) || hint == Str("node"))
  }

  ghost predicate SourceLost(e: Edge, nodeIds: set<string>)
    requires Complete(e)
  {
    Lost(e.sourceId.text, e.sourceType, nodeIds)
  }

  ghost predicate TargetLost(e: Edge, nodeIds: set<string>)
    requires Complete(e)
  {
    Lost(e.targetId.text, e.targetType, nodeIds)
  }

  ghost function Showing(nodeIds: set<string>, k: Counter, target: bool): Line<Edge> -> bool {
    l => Shows(l, nodeIds, k, target)
  }

  /** The places in the file that add to a counter. */
  ghost function Where(lines: seq<Line<Edge>>, nodeIds: set<string>, k: Counter, target: bool): set<int> {
    Indices(lines, Showing(nodeIds, k, target))
  }

  lemma WhereMore(lines: seq<Line<Edge>>, l: Line<Edge>, nodeIds: set<string>, k: Counter, target: bool)
    ensures |Where(lines + [l], nodeIds, k, target)| ==
            |Where(lines, nodeIds, k, target)| + One(Shows(l, nodeIds, k, target))
  {
    IndicesMore(lines, l, Showing(nodeIds, k, target));
  }

  lemma AmountMeans(l: Line<Edge>, nodeIds: set<string>, k: Counter)
    ensures Amount(l, nodeIds, k) == One(Shows(l, nodeIds, k, false)) + One(Shows(l, nodeIds, k, true))
  {
    if l.Record? {
      CompleteIff(l.record);
    }
    if l.Record? && Auditable(l.record) {
      var e := l.record;
      forall c
        ensures Classify(e.sourceId.text, e.sourceType, nodeIds) == c <==> Means(c, e.sourceId.text, e.sourceType, nodeIds)
      {
        ClassMeans(c, e.sourceId.text, e.sourceType, nodeIds);
      }
      forall c
        ensures Classify(e.targetId.text, e.targetType, nodeIds) == c <==> Means(c, e.targetId.text, e.targetType, nodeIds)
      {
        ClassMeans(c, e.targetId.text, e.targetType, nodeIds);
      }
      BareIff(e.sourceType);
      BareIff(e.targetType);
    }
  }

  lemma {:induction false} CountMeans(lines: seq<Line<Edge>>, nodeIds: set<string>, k: Counter)
    ensures CountIn(lines, nodeIds, k) == |Where(lines, nodeIds, k, false)| + |Where(lines, nodeIds, k, true)|
  {
    if |lines| == 0 {
      assert Where(lines, nodeIds, k, false) == {} && Where(lines, nodeIds, k, true) == {};
    } else {
      var init, l := lines[..|lines| - 1], lines[|lines| - 1];
      assert lines == init + [l];
      CountMeans(init, nodeIds, k);
      WhereMore(init, l, nodeIds, k, false);
      WhereMore(init, l, nodeIds, k, true);
      AmountMeans(l, nodeIds, k);
    }
  }

  ghost function Places(lines: seq<Line<Edge>>, nodeIds: set<string>, k: Counter): nat {
    |Where(lines, nodeIds, k, false)| + |Where(lines, nodeIds, k, true)|
  }

  /** Each counter of the summary is the number of places in the file that say so. */
  lemma SummaryMeans(s: EdgeSummary, lines: seq<Line<Edge>>, nodeIds: set<string>)
    ensures EdgeTotals(s, lines, nodeIds) <==>
              && s.records == Places(lines, nodeIds, Records)
              && s.invalidJson == Places(lines, nodeIds, InvalidLines)
              && s.nonObject == Places(lines, nodeIds, NonObjects)
              && s.malformed == Places(lines, nodeIds, Malformed)
              && s.auditable == Places(lines, nodeIds, Audited)
              && s.sides.typedNode == Places(lines, nodeIds, SidesOf(TypedNode))
              && s.sides.typedNodeMissing == Places(lines, nodeIds, SidesOf(TypedNodeMissing))
              && s.sides.typedNonNode == Places(lines, nodeIds, SidesOf(TypedNonNode))
              && s.sides.typedUnknown == Places(lines, nodeIds, SidesOf(TypedUnknown))
              && s.sides.untypedExisting == Places(lines, nodeIds, SidesOf(UntypedExisting))
              && s.sides.untypedMissing == Places(lines, nodeIds, SidesOf(UntypedMissing))
              && s.anyMissing == Places(lines, nodeIds, AnyMissing)
              && s.bothMissing == Places(lines, nodeIds, BothMissing)
  {
    forall k ensures CountIn(lines, nodeIds, k) == Places(lines, nodeIds, k) {
      CountMeans(lines, nodeIds, k);
    }
  }

  // ----- findings -----

  /** A hint of at most 64 harmless characters is shown, any other is hashed. */
  ghost function Shown(d: Display, text: string): string {
    if Harmless(text) then text else d.hash("type_hint", text)
  }

  /** The finding about one side, if there is one. */
  ghost predicate SideTold(fs: seq<Finding>, d: Display, edgeRef: string, side: string, id: string, hint: Field,
                           nodeIds: set<string>) {
    var ref := Some(if d.showIds then id else d.hash("ref", id));
    && (Means(TypedNode, id, hint, nodeIds) || Means(UntypedExisting, id, hint, nodeIds) ==> fs == [])
    && (Means(UntypedMissing, id, hint, nodeIds) ==>
          fs == [Finding("untyped_missing_reference", side, edgeRef, ref, None, None)])
    && (Means(TypedNodeMissing, id, hint, nodeIds) ==>
          fs == [Finding("typed_node_missing_reference", side, edgeRef, ref, Some("node"), None)])
    && (hint == Str("account") ==> fs == [Finding("typed_non_node_reference", side, edgeRef, ref, Some("account"), None)])
    && (hint == Str("role") ==> fs == [Finding("typed_non_node_reference", side, edgeRef, ref, Some("role"), None)])
    && (Means(TypedUnknown, id, hint, nodeIds) && hint.OtherType? ==>
          fs == [Finding("typed_unknown_reference", side, edgeRef, ref, Some("<" + hint.kind + ">"), Some(hint.kind))])
    && (Means(TypedUnknown, id, hint, nodeIds) && hint.Str? ==>
          fs == [Finding("typed_unknown_reference", side, edgeRef, ref, Some(Shown(d, hint.text)), Some("str"))])
  }

  ghost predicate Harmless(text: string) {
    && 0 < |text| <= 64
    && forall c :: c in text ==>
         'A' <= c <= 'Z' || 'a' <= c <= 'z' || '0' <= c <= '9' || c == '_' || c == '.' || c == ':' || c == '-'
  }

  lemma HarmlessIff(text: string)
    ensures Harmless(text) <==> PlainHint(text)
  {
    if Harmless(text) {
      forall i | 0 <= i < |text| ensures text[i] in text { }
    }
  }

  lemma NamesAreHarmless()
    ensures Harmless("node") && Harmless("account") && Harmless("role")
  { }

  lemma HintMeans(d: Display, text: string)
    ensures SafeTypeHint(d, Str(text)) == (Some(Shown(d, text)), Some("str"))
  {
    HarmlessIff(text);
    NamesAreHarmless();
  }

  lemma UnknownMeans(d: Display, edgeRef: string, side: string, id: string, hint: Field)
    requires id != "" && !Bare(hint)
    ensures FindingOf(d, edgeRef, side, TypedUnknown, id, hint) ==
            Finding("typed_unknown_reference", side, edgeRef, Some(if d.showIds then id else d.hash("ref", id)),
                    Some(if hint.Str? then Shown(d, hint.text) else "<" + hint.kind + ">"),
                    Some(if hint.Str? then "str" else hint.kind))
  {
    BareIff(hint);
    if hint.Str? {
      HintMeans(d, hint.text);
    }
  }

  lemma KnownMeans(d: Display, edgeRef: string, side: string, id: string, hint: Field, c: Class)
    requires id != "" && !c.TypedUnknown?
    requires Bare(hint) || (hint.Str? && (hint.text == "node" || hint.text == "account" || hint.text == "role"))
    ensures FindingOf(d, edgeRef, side, c, id, hint) ==
            Finding(ClassName(c), side, edgeRef, Some(if d.showIds then id else d.hash("ref", id)),
                    if Bare(hint) then None else Some(hint.text), None)
  {
    BareIff(hint);
  }

  lemma TellUnknown(fs: seq<Finding>, d: Display, edgeRef: string, side: string, id: string, hint: Field,
                    nodeIds: set<string>)
    requires id != "" && Means(TypedUnknown, id, hint, nodeIds)
    requires fs == [FindingOf(d, edgeRef, side, TypedUnknown, id, hint)]
    ensures SideTold(fs, d, edgeRef, side, id, hint, nodeIds)
  {
    UnknownMeans(d, edgeRef, side, id, hint);
  }

  lemma NamesVisible(hint: Field)
    requires hint == Str("node") || hint == Str("account") || hint == Str("role")
    ensures !Bare(hint)
  {
    NamesAreBare();
  }

  /** A side is of one class only. */
  lemma OneClass(c: Class, id: string, hint: Field, nodeIds: set<string>)
    requires Means(c, id, hint, nodeIds)
    ensures forall other :: Means(other, id, hint, nodeIds) ==> other == c
    ensures hint == Str("account") || hint == Str("role") ==> c == TypedNonNode
  {
    forall other | Means(other, id, hint, nodeIds) ensures other == c {
      ClassMeans(c, id, hint, nodeIds);
      ClassMeans(other, id, hint, nodeIds);
    }
    if hint == Str("account") || hint == Str("role") {
      assert Means(TypedNonNode, id, hint, nodeIds);
    }
  }

  lemma TellReference(d: Display, edgeRef: string, side: string, id: string, hint: Field, nodeIds: set<string>,
                      c: Class)
    requires Means(c, id, hint, nodeIds) && (c.TypedNode? || c.UntypedExisting?)
    ensures SideTold([], d, edgeRef, side, id, hint, nodeIds)
  {
    OneClass(c, id, hint, nodeIds);
  }

  lemma TellUntyped(fs: seq<Finding>, d: Display, edgeRef: string, side: string, id: string, hint: Field,
                    nodeIds: set<string>)
    requires id != "" && Means(UntypedMissing, id, hint, nodeIds)
    requires fs == [FindingOf(d, edgeRef, side, UntypedMissing, id, hint)]
    ensures SideTold(fs, d, edgeRef, side, id, hint, nodeIds)
  {
    OneClass(UntypedMissing, id, hint, nodeIds);
    KnownMeans(d, edgeRef, side, id, hint, UntypedMissing);
  }

  lemma TellMissing(fs: seq<Finding>, d: Display, edgeRef: string, side: string, id: string, hint: Field,
                    nodeIds: set<string>)
    requires id != "" && Means(TypedNodeMissing, id, hint, nodeIds)
    requires fs == [FindingOf(d, edgeRef, side, TypedNodeMissing, id, hint)]
    ensures SideTold(fs, d, edgeRef, side, id, hint, nodeIds)
  {
    OneClass(TypedNodeMissing, id, hint, nodeIds);
    NamesVisible(hint);
    KnownMeans(d, edgeRef, side, id, hint, TypedNodeMissing);
  }

  lemma TellNonNode(fs: seq<Finding>, d: Display, edgeRef: string, side: string, id: string, hint: Field,
                    nodeIds: set<string>)
    requires id != "" && Means(TypedNonNode, id, hint, nodeIds)
    requires fs == [FindingOf(d, edgeRef, side, TypedNonNode, id, hint)]
    ensures SideTold(fs, d, edgeRef, side, id, hint, nodeIds)
  {
    OneClass(TypedNonNode, id, hint, nodeIds);
    NamesVisible(hint);
    KnownMeans(d, edgeRef, side, id, hint, TypedNonNode);
  }

  lemma SideMeans(d: Display, edgeRef: string, side: string, id: string, hint: Field, nodeIds: set<string>)
    requires id != ""
    ensures var fs := SideFinding(d, edgeRef, side, Classify(id, hint, nodeIds), id, hint);
            SideTold(fs, d, edgeRef, side, id, hint, nodeIds)
  {
    var c := Classify(id, hint, nodeIds);
    ClassMeans(c, id, hint, nodeIds);
    var fs := SideFinding(d, edgeRef, side, c, id, hint);
    match c
    case TypedNode => TellReference(d, edgeRef, side, id, hint, nodeIds, c);
    case UntypedExisting => TellReference(d, edgeRef, side, id, hint, nodeIds, c);
    case UntypedMissing => TellUntyped(fs, d, edgeRef, side, id, hint, nodeIds);
    case TypedNodeMissing => TellMissing(fs, d, edgeRef, side, id, hint, nodeIds);
    case TypedNonNode => TellNonNode(fs, d, edgeRef, side, id, hint, nodeIds);
    case TypedUnknown => TellUnknown(fs, d, edgeRef, side, id, hint, nodeIds);
  }

  lemma NamesAreBare()
    ensures !Bare(Str("node")) && !Bare(Str("account")) && !Bare(Str("role"))
    ensures Str("node") != Str("account") && Str("node") != Str("role") && Str("account") != Str("role")
  {
    NamesAreVisible();
    BareIff(Str("node"));
    BareIff(Str("account"));
    BareIff(Str("role"));
    assert "node"[0] != "account"[0] && "node"[0] != "role"[0] && "account"[0] != "role"[0];
  }

  /** What each line of the file adds to the findings: one about a malformed record, or those of the source and then of the
      target. */
  ghost predicate LineTold(fs: seq<Finding>, d: Display, line: Line<Edge>, number: nat, nodeIds: set<string>) {
    && (!line.Record? ==> fs == [])
    && (line.Record? && !Complete(line.record) ==>
          fs == [Finding("malformed_edge", "unknown", d.lineRef(number), None, None, None)])
    && (line.Record? && Complete(line.record) ==>
          var e := line.record;
          var edgeRef := if d.showIds then e.id.text else d.hash("edge", e.id.text);
          exists a, b :: fs == a + b
            && SideTold(a, d, edgeRef, "source", e.sourceId.text, e.sourceType, nodeIds)
            && SideTold(b, d, edgeRef, "target", e.targetId.text, e.targetType, nodeIds))
  }

  lemma LineMeans(d: Display, line: Line<Edge>, number: nat, nodeIds: set<string>)
    ensures LineTold(LineFindings(line, number, nodeIds, d), d, line, number, nodeIds)
  {
    if line.Record? {
      CompleteIff(line.record);
    }
    if line.Record? && Auditable(line.record) {
      var e := line.record;
      SideMeans(d, EdgeRef(d, e), "source", e.sourceId.text, e.sourceType, nodeIds);
      SideMeans(d, EdgeRef(d, e), "target", e.targetId.text, e.targetType, nodeIds);
    }
  }

  /** Line by line, numbered from one, in the order of the file. */
  ghost predicate Told(fs: seq<Finding>, d: Display, lines: seq<Line<Edge>>, nodeIds: set<string>)
    decreases |lines|
  {
    if |lines| == 0 then fs == []
    else
      var n := |lines| - 1;
      exists k :: 0 <= k <= |fs| && Told(fs[..k], d, lines[..n], nodeIds) && LineTold(fs[k..], d, lines[n], n + 1, nodeIds)
  }

  /** The findings of the audit are those of its lines. */
  lemma {:induction false} FindingsMean(d: Display, lines: seq<Line<Edge>>, nodeIds: set<string>)
    ensures Told(AllFindings(lines, nodeIds, d), d, lines, nodeIds)
  {
    if |lines| > 0 {
      var n := |lines| - 1;
      FindingsMean(d, lines[..n], nodeIds);
      LineMeans(d, lines[n], n + 1, nodeIds);
      TellNext(AllFindings(lines[..n], nodeIds, d), LineFindings(lines[n], n + 1, nodeIds, d), d, lines, nodeIds);
    }
  }

  lemma TellNext(before: seq<Finding>, next: seq<Finding>, d: Display, lines: seq<Line<Edge>>, nodeIds: set<string>)
    requires |lines| > 0 && Told(before, d, lines[..|lines| - 1], nodeIds)
    requires LineTold(next, d, lines[|lines| - 1], |lines|, nodeIds)
    ensures Told(before + next, d, lines, nodeIds)
  {
    assert (before + next)[..|before|] == before && (before + next)[|before|..] == next;
  }
}

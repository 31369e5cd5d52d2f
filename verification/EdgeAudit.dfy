/** audit_domain_edge_references: node loading, edge classification, counters and policy signals. */
module EdgeAudit {
  import opened Wrappers
  import opened Text
  import opened BoundedFindings

  /** A JSON value where the audit expects a string; of any other value only the name of its type matters. */
  datatype Field = Absent | Str(text: string) | OtherType(kind: string)

  datatype Edge = Edge(id: Field, sourceId: Field, targetId: Field, sourceType: Field, targetType: Field)

  /** One line of a JSONL file. */
  datatype Line<+R> = Blank | InvalidJson | NonObject | Record(record: R)

  /** References shown in findings: plain, or hashed by a function that this model leaves open.
      A malformed edge is referred to by its line number. */
  datatype Display = Display(showIds: bool, hash: (string, string) -> string, lineRef: nat -> string)

  /** `is_non_empty_string` */
  predicate NonEmptyString(f: Field) {
    f.Str? && !AllSpace(f.text)
  }

  // ----- nodes -----

  datatype NodeSummary = NodeSummary(records: nat, ids: nat, duplicates: nat, invalidJson: nat, nonObject: nat,
                                     missingId: nat, nonStringId: nat, emptyId: nat)
  {
    predicate Clean() {
      invalidJson == 0 && nonObject == 0 && missingId == 0 && nonStringId == 0 && emptyId == 0 && duplicates == 0
    }
  }

  /** The ids loaded from these lines. */
  function NodeIds(lines: seq<Line<Field>>): set<string> {
    set l | l in lines && l.Record? && NonEmptyString(l.record) :: l.record.text
  }

  /** Every line is blank or an object with a usable id that no earlier line has. */
  ghost predicate NodesClean(lines: seq<Line<Field>>) {
    && (forall i :: 0 <= i < |lines| ==> lines[i].Blank? || (lines[i].Record? && NonEmptyString(lines[i].record)))
    && (forall i, j :: 0 <= i < j < |lines| && lines[i].Record? ==> lines[i] != lines[j])
  }

  function One(b: bool): nat {
    if b then 1 else 0
  }

  ghost function Indices<T>(xs: seq<T>, p: T -> bool): set<int> {
    set i | 0 <= i < |xs| && p(xs[i])
  }

  lemma IndicesMore<T>(xs: seq<T>, x: T, p: T -> bool)
    ensures |Indices(xs + [x], p)| == |Indices(xs, p)| + One(p(x))
  {
    var more := xs + [x];
    assert more[|xs|] == x;
    assert Indices(more, p) == Indices(xs, p) + if p(x) then {|xs|} else {} by {
      forall i | 0 <= i < |xs| ensures more[i] == xs[i] { }
    }
  }

  predicate Present(l: Line<Field>) { !l.Blank? }

  predicate Unparsed(l: Line<Field>) { l.InvalidJson? }

  predicate Objectless(l: Line<Field>) { l.NonObject? }

  predicate WithoutId(l: Line<Field>) { l.Record? && l.record.Absent? }

  predicate WithOtherId(l: Line<Field>) { l.Record? && l.record.OtherType? }

  predicate WithBlankId(l: Line<Field>) { l.Record? && l.record.Str? && AllSpace(l.record.text) }

  /** How many lines there are of each kind. */
  ghost predicate NodeCounts(s: NodeSummary, lines: seq<Line<Field>>) {
    && s.records == |Indices(lines, Present)|
    && s.invalidJson == |Indices(lines, Unparsed)|
    && s.nonObject == |Indices(lines, Objectless)|
    && s.missingId == |Indices(lines, WithoutId)|
    && s.nonStringId == |Indices(lines, WithOtherId)|
    && s.emptyId == |Indices(lines, WithBlankId)|
  }

  ghost predicate NodeTotals(s: NodeSummary, lines: seq<Line<Field>>) {
    && NodeCounts(s, lines)
    && s.ids == |NodeIds(lines)|
    && s.records == s.ids + s.duplicates + s.invalidJson + s.nonObject + s.missingId + s.nonStringId + s.emptyId
    && (s.Clean() <==> NodesClean(lines))
  }

  lemma NodeIdsMore(lines: seq<Line<Field>>, l: Line<Field>)
    ensures NodeIds(lines + [l]) ==
            NodeIds(lines) + (if l.Record? && NonEmptyString(l.record) then {l.record.text} else {})
  {
    var more := lines + [l];
    forall x | x in NodeIds(lines) ensures x in NodeIds(more) {
      var m :| m in lines && m.Record? && NonEmptyString(m.record) && m.record.text == x;
      assert m in more;
    }
    assert l in more;
  }

  lemma NodesCleanMore(lines: seq<Line<Field>>, l: Line<Field>)
    ensures NodesClean(lines + [l]) <==>
              && NodesClean(lines)
              && (l.Blank? || (l.Record? && NonEmptyString(l.record) && l.record.text !in NodeIds(lines)))
  {
    var more := lines + [l];
    if NodesClean(more) {
      forall i | 0 <= i < |lines| ensures lines[i] == more[i] && (lines[i].Record? ==> lines[i] != l) {
        assert more[|lines|] == l;
      }
      assert more[|lines|] == l;
    }
    if NodesClean(lines) && (l.Blank? || (l.Record? && NonEmptyString(l.record) && l.record.text !in NodeIds(lines))) {
      forall i | 0 <= i < |lines| && lines[i].Record? ensures lines[i] != l {
        if l.Record? {
          assert lines[i].record.text in NodeIds(lines);
        }
      }
    }
  }

  lemma NodeCountsMore(lines: seq<Line<Field>>, l: Line<Field>, s: NodeSummary, t: NodeSummary)
    requires NodeCounts(s, lines)
    requires t.records == s.records + One(Present(l)) && t.invalidJson == s.invalidJson + One(Unparsed(l))
    requires t.nonObject == s.nonObject + One(Objectless(l)) && t.missingId == s.missingId + One(WithoutId(l))
    requires t.nonStringId == s.nonStringId + One(WithOtherId(l)) && t.emptyId == s.emptyId + One(WithBlankId(l))
    ensures NodeCounts(t, lines + [l])
  {
    IndicesMore(lines, l, Present);
    IndicesMore(lines, l, Unparsed);
    IndicesMore(lines, l, Objectless);
    IndicesMore(lines, l, WithoutId);
    IndicesMore(lines, l, WithOtherId);
    IndicesMore(lines, l, WithBlankId);
  }

  /** One line of `load_jsonl_nodes`. */
  method LoadNode(ghost before: seq<Line<Field>>, line: Line<Field>, nodeIds0: set<string>, s0: NodeSummary)
    returns (nodeIds: set<string>, s: NodeSummary)
    requires nodeIds0 == NodeIds(before) && NodeTotals(s0, before)
    ensures nodeIds == NodeIds(before + [line]) && NodeTotals(s, before + [line])
  {
    NodeIdsMore(before, line);
    NodesCleanMore(before, line);
    nodeIds, s := nodeIds0, s0;
    if line.Blank? {
      NodeCountsMore(before, line, s0, s);
      return;
    }
    s := s.(records := s.records + 1);
    match line {
      case InvalidJson => s := s.(invalidJson := s.invalidJson + 1);
      case NonObject => s := s.(nonObject := s.nonObject + 1);
      case Record(id) =>
        if id.Absent? {
          s := s.(missingId := s.missingId + 1);
        } else if id.OtherType? {
          s := s.(nonStringId := s.nonStringId + 1);
        } else if AllSpace(id.text) {
          s := s.(emptyId := s.emptyId + 1);
        } else if id.text in nodeIds {
          s := s.(duplicates := s.duplicates + 1);
        } else {
          nodeIds := nodeIds + {id.text};
          s := s.(ids := s.ids + 1);
        }
    }
    NodeCountsMore(before, line, s0, s);
  }

  /** `load_jsonl_nodes` */
  method LoadNodes(lines: seq<Line<Field>>) returns (nodeIds: set<string>, s: NodeSummary)
    ensures nodeIds == NodeIds(lines)
    ensures NodeTotals(s, lines)
  {
    nodeIds, s := {}, NodeSummary(0, 0, 0, 0, 0, 0, 0, 0);
    for k := 0 to |lines|
      invariant nodeIds == NodeIds(lines[..k])
      invariant NodeTotals(s, lines[..k])
    {
      assert lines[..k + 1] == lines[..k] + [lines[k]];
      nodeIds, s := LoadNode(lines[..k], lines[k], nodeIds, s);
    }
    assert lines[..|lines|] == lines;
  }

  // ----- one side of an edge -----

  datatype Class = TypedNode | TypedNodeMissing | TypedNonNode | TypedUnknown | UntypedExisting | UntypedMissing

  function ClassName(c: Class): string {
    match c
    case TypedNode => "typed_node_reference"
    case TypedNodeMissing => "typed_node_missing_reference"
    case TypedNonNode => "typed_non_node_reference"
    case TypedUnknown => "typed_unknown_reference"
    case UntypedExisting => "untyped_existing_node_reference"
    case UntypedMissing => "untyped_missing_reference"
  }

  /** A blank type hint counts as none. */
  predicate Unhinted(hint: Field) {
    hint.Absent? || (hint.Str? && AllSpace(hint.text))
  }

  predicate IsMissing(c: Class) {
    c.TypedNodeMissing? || c.UntypedMissing?
  }

  predicate IsReference(c: Class) {
    c.TypedNode? || c.UntypedExisting?
  }

  function Classify(targetId: string, hint: Field, nodeIds: set<string>): Class {
    if Unhinted(hint) then
      if targetId in nodeIds then UntypedExisting else UntypedMissing
    else if hint == Str("node") then
      if targetId in nodeIds then TypedNode else TypedNodeMissing
    else if hint == Str("account") || hint == Str("role") then TypedNonNode
    else TypedUnknown
  }

  function TargetRef(d: Display, targetId: string): Option<string> {
    if d.showIds then Some(targetId) else if targetId == "" then None else Some(d.hash("ref", targetId))
  }

  /** A hint that is shown as it is. */
  predicate PlainHint(hint: string) {
    && 0 < |hint| <= 64
    && forall i :: 0 <= i < |hint| ==>
         || 'A' <= hint[i] <= 'Z' || 'a' <= hint[i] <= 'z' || '0' <= hint[i] <= '9'
         || hint[i] == '_' || hint[i] == '.' || hint[i] == ':' || hint[i] == '-'
  }

  /** `safe_type_hint_for_finding` */
  function SafeTypeHint(d: Display, hint: Field): (Option<string>, Option<string>) {
    match hint
    case Absent => (None, None)
    case Str(text) =>
      if text == "node" || text == "account" || text == "role" || PlainHint(text) then (Some(text), Some("str"))
      else (Some(d.hash("type_hint", text)), Some("str"))
    case OtherType(kind) => (Some("<" + kind + ">"), Some(kind))
  }

  /** What a finding about a side says; its hint is shown safely, with its type only when the hint is unknown. */
  function FindingOf(d: Display, edgeRef: string, side: string, c: Class, id: string, hint: Field): Finding {
    var safe := if Unhinted(hint) then (None, None) else SafeTypeHint(d, hint);
    Finding(ClassName(c), side, edgeRef, TargetRef(d, id), safe.0, if c.TypedUnknown? then safe.1 else None)
  }

  /** `classify_edge_side`: a class, and a finding unless the side refers to a known node. */
  method ClassifyEdgeSide(edgeRef: string, side: string, targetId: string, hint0: Field, nodeIds: set<string>,
                          d: Display)
    returns (c: Class, finding: Option<Finding>)
    ensures c == Classify(targetId, hint0, nodeIds)
    ensures finding == if IsReference(c) then None
                       else Some(FindingOf(d, edgeRef, side, c, targetId, hint0))
  {
    var targetRef := TargetRef(d, targetId);
    var hint := hint0;
    if hint.Str? && AllSpace(hint.text) {
      hint := Absent;
    }
    var safe := SafeTypeHint(d, hint);
    finding := None;
    if hint == Str("node") {
      if targetId in nodeIds {
        c := TypedNode;
      } else {
        c := TypedNodeMissing;
        finding := Some(Finding(ClassName(c), side, edgeRef, targetRef, Some("node"), None));
      }
    } else if hint == Str("account") || hint == Str("role") {
      c := TypedNonNode;
      finding := Some(Finding(ClassName(c), side, edgeRef, targetRef, Some(hint.text), None));
    } else if !hint.Absent? {
      c := TypedUnknown;
      finding := Some(Finding(ClassName(c), side, edgeRef, targetRef, safe.0, safe.1));
    } else if targetId in nodeIds {
      c := UntypedExisting;
    } else {
      c := UntypedMissing;
      finding := Some(Finding(ClassName(c), side, edgeRef, targetRef, None, None));
    }
  }

  // ----- counters -----

  datatype Counts = Counts(typedNode: nat, typedNodeMissing: nat, typedNonNode: nat, typedUnknown: nat,
                           untypedExisting: nat, untypedMissing: nat)
  {
    /** `increment_classification` */
    function Increment(c: Class): Counts {
      match c
      case TypedNode => this.(typedNode := typedNode + 1)
      case TypedNodeMissing => this.(typedNodeMissing := typedNodeMissing + 1)
      case TypedNonNode => this.(typedNonNode := typedNonNode + 1)
      case TypedUnknown => this.(typedUnknown := typedUnknown + 1)
      case UntypedExisting => this.(untypedExisting := untypedExisting + 1)
      case UntypedMissing => this.(untypedMissing := untypedMissing + 1)
    }

    function Total(): nat {
      typedNode + typedNodeMissing + typedNonNode + typedUnknown + untypedExisting + untypedMissing
    }
  }

  datatype EdgeSummary = EdgeSummary(records: nat, invalidJson: nat, nonObject: nat, malformed: nat, auditable: nat,
                                     sides: Counts, anyMissing: nat, bothMissing: nat)
  {
    predicate NoDefects() {
      malformed == 0 && invalidJson == 0 && nonObject == 0
    }
  }

  predicate Auditable(e: Edge) {
    NonEmptyString(e.id) && NonEmptyString(e.sourceId) && NonEmptyString(e.targetId)
  }

  function SourceClass(e: Edge, nodeIds: set<string>): Class
    requires Auditable(e)
  {
    Classify(e.sourceId.text, e.sourceType, nodeIds)
  }

  function TargetClass(e: Edge, nodeIds: set<string>): Class
    requires Auditable(e)
  {
    Classify(e.targetId.text, e.targetType, nodeIds)
  }

  function EdgeRef(d: Display, e: Edge): string
    requires Auditable(e)
  {
    if d.showIds then e.id.text else d.hash("edge", e.id.text)
  }

  function SideFinding(d: Display, edgeRef: string, side: string, c: Class, id: string, hint: Field): seq<Finding> {
    if IsReference(c) then [] else [FindingOf(d, edgeRef, side, c, id, hint)]
  }

  /** The findings of one line, in the order they are appended. */
  function LineFindings(line: Line<Edge>, number: nat, nodeIds: set<string>, d: Display): seq<Finding> {
    match line
    case Record(e) =>
      if Auditable(e) then
        SideFinding(d, EdgeRef(d, e), "source", SourceClass(e, nodeIds), e.sourceId.text, e.sourceType) +
        SideFinding(d, EdgeRef(d, e), "target", TargetClass(e, nodeIds), e.targetId.text, e.targetType)
      else [Finding("malformed_edge", "unknown", d.lineRef(number), None, None, None)]
    case _ => []
  }

  function AllFindings(lines: seq<Line<Edge>>, nodeIds: set<string>, d: Display): seq<Finding> {
    if |lines| == 0 then []
    else AllFindings(lines[..|lines| - 1], nodeIds, d) + LineFindings(lines[|lines| - 1], |lines|, nodeIds, d)
  }

  /** What the counters count. */
  datatype Counter = Records | InvalidLines | NonObjects | Malformed | Audited | SidesOf(c: Class) | AnyMissing | BothMissing

  /** The contribution of one line to one counter. */
  function Amount(l: Line<Edge>, nodeIds: set<string>, k: Counter): nat {
    match k
    case Records => One(!l.Blank?)
    case InvalidLines => One(l.InvalidJson?)
    case NonObjects => One(l.NonObject?)
    case Malformed => One(l.Record? && !Auditable(l.record))
    case Audited => One(l.Record? && Auditable(l.record))
    case SidesOf(c) =>
      if l.Record? && Auditable(l.record)
      then One(SourceClass(l.record, nodeIds) == c) + One(TargetClass(l.record, nodeIds) == c) else 0
    case AnyMissing =>
      One(l.Record? && Auditable(l.record)
          && (IsMissing(SourceClass(l.record, nodeIds)) || IsMissing(TargetClass(l.record, nodeIds))))
    case BothMissing =>
      One(l.Record? && Auditable(l.record)
          && IsMissing(SourceClass(l.record, nodeIds)) && IsMissing(TargetClass(l.record, nodeIds)))
  }

  function CountIn(lines: seq<Line<Edge>>, nodeIds: set<string>, k: Counter): nat {
    if |lines| == 0 then 0
    else CountIn(lines[..|lines| - 1], nodeIds, k) + Amount(lines[|lines| - 1], nodeIds, k)
  }

  /** Every counter holds its count over the lines. */
  ghost predicate EdgeTotals(s: EdgeSummary, lines: seq<Line<Edge>>, nodeIds: set<string>) {
    && s.records == CountIn(lines, nodeIds, Records)
    && s.invalidJson == CountIn(lines, nodeIds, InvalidLines)
    && s.nonObject == CountIn(lines, nodeIds, NonObjects)
    && s.malformed == CountIn(lines, nodeIds, Malformed)
    && s.auditable == CountIn(lines, nodeIds, Audited)
    && s.sides.typedNode == CountIn(lines, nodeIds, SidesOf(TypedNode))
    && s.sides.typedNodeMissing == CountIn(lines, nodeIds, SidesOf(TypedNodeMissing))
    && s.sides.typedNonNode == CountIn(lines, nodeIds, SidesOf(TypedNonNode))
    && s.sides.typedUnknown == CountIn(lines, nodeIds, SidesOf(TypedUnknown))
    && s.sides.untypedExisting == CountIn(lines, nodeIds, SidesOf(UntypedExisting))
    && s.sides.untypedMissing == CountIn(lines, nodeIds, SidesOf(UntypedMissing))
    && s.anyMissing == CountIn(lines, nodeIds, AnyMissing)
    && s.bothMissing == CountIn(lines, nodeIds, BothMissing)
  }

  ghost predicate HasAuditable(lines: seq<Line<Edge>>) {
    exists i :: 0 <= i < |lines| && lines[i].Record? && Auditable(lines[i].record)
  }

  ghost predicate EdgesClean(lines: seq<Line<Edge>>) {
    forall i :: 0 <= i < |lines| ==> lines[i].Blank? || (lines[i].Record? && Auditable(lines[i].record))
  }

  /** One side of an auditable edge: classify, count, and report. */
  method AuditSide(edgeRef: string, side: string, id: string, hint: Field, nodeIds: set<string>, d: Display,
                   log: FindingLog, sides0: Counts, missing0: nat)
    returns (sides: Counts, missing: nat, truncated: bool)
    requires log.Valid()
    modifies log
    ensures log.Valid() && log.all == old(log.all) + SideFinding(d, edgeRef, side, Classify(id, hint, nodeIds), id, hint)
    ensures truncated <==> log.maxFindings != -1 && |log.all| > |old(log.all)| && |log.all| > log.maxFindings
    ensures sides == sides0.Increment(Classify(id, hint, nodeIds))
    ensures missing == missing0 + (if IsMissing(Classify(id, hint, nodeIds)) then 1 else 0)
  {
    var c, finding := ClassifyEdgeSide(edgeRef, side, id, hint, nodeIds, d);
    missing := missing0;
    if c.TypedNodeMissing? || c.UntypedMissing? {
      missing := missing + 1;
    }
    sides := sides0.Increment(c);
    truncated := false;
    if finding.Some? {
      truncated := log.Append(finding.value);
    }
  }

  /** Both sides of an auditable edge: source, then target. */
  method AuditSides(e: Edge, nodeIds: set<string>, d: Display, log: FindingLog, sides0: Counts)
    returns (sides: Counts, missing: nat, truncated: bool)
    requires log.Valid() && Auditable(e)
    modifies log
    ensures log.Valid()
    ensures log.all == old(log.all) + LineFindings(Record(e), 0, nodeIds, d)
    ensures truncated <==> log.maxFindings != -1 && |log.all| > |old(log.all)| && |log.all| > log.maxFindings
    ensures sides == sides0.Increment(SourceClass(e, nodeIds)).Increment(TargetClass(e, nodeIds))
    ensures missing == (if IsMissing(SourceClass(e, nodeIds)) then 1 else 0)
                     + (if IsMissing(TargetClass(e, nodeIds)) then 1 else 0)
  {
    var edgeRef := if d.showIds then e.id.text else d.hash("edge", e.id.text);
    sides, missing, truncated := AuditSide(edgeRef, "source", e.sourceId.text, e.sourceType, nodeIds, d, log, sides0, 0);
    ghost var half := log.all;
    var dropped;
    sides, missing, dropped := AuditSide(edgeRef, "target", e.targetId.text, e.targetType, nodeIds, d, log, sides, missing);
    truncated := truncated || dropped;
  }

  /** The loop body of `evaluate_audit_data` for one edge object. */
  method AuditEdge(e: Edge, number: nat, nodeIds: set<string>, d: Display, log: FindingLog, s0: EdgeSummary)
    returns (s: EdgeSummary, truncated: bool)
    requires log.Valid()
    modifies log
    ensures log.Valid() && log.all == old(log.all) + LineFindings(Record(e), number, nodeIds, d)
    ensures truncated <==> log.maxFindings != -1 && |log.all| > |old(log.all)| && |log.all| > log.maxFindings
    ensures s == EdgeCounted(s0, e, nodeIds)
  {
    if !NonEmptyString(e.id) || !NonEmptyString(e.sourceId) || !NonEmptyString(e.targetId) {
      truncated := log.Append(Finding("malformed_edge", "unknown", d.lineRef(number), None, None, None));
      return s0.(malformed := s0.malformed + 1), truncated;
    }
    var sides, missing;
    sides, missing, truncated := AuditSides(e, nodeIds, d, log, s0.sides);
    s := s0.(auditable := s0.auditable + 1,
             sides := sides,
             anyMissing := s0.anyMissing + (if missing > 0 then 1 else 0),
             bothMissing := s0.bothMissing + (if missing == 2 then 1 else 0));
  }

  /** The counters after one more edge object. */
  function EdgeCounted(s: EdgeSummary, e: Edge, nodeIds: set<string>): EdgeSummary {
    if !Auditable(e) then s.(malformed := s.malformed + 1)
    else
      var src, tgt := SourceClass(e, nodeIds), TargetClass(e, nodeIds);
      s.(auditable := s.auditable + 1,
         sides := s.sides.Increment(src).Increment(tgt),
         anyMissing := s.anyMissing + (if IsMissing(src) || IsMissing(tgt) then 1 else 0),
         bothMissing := s.bothMissing + (if IsMissing(src) && IsMissing(tgt) then 1 else 0))
  }

  /** The counters after one more line. */
  function LineAudited(s: EdgeSummary, l: Line<Edge>, nodeIds: set<string>): EdgeSummary {
    match l
    case Blank => s
    case InvalidJson => s.(records := s.records + 1, invalidJson := s.invalidJson + 1)
    case NonObject => s.(records := s.records + 1, nonObject := s.nonObject + 1)
    case Record(e) => EdgeCounted(s.(records := s.records + 1), e, nodeIds)
  }

  lemma CountMore(lines: seq<Line<Edge>>, l: Line<Edge>, nodeIds: set<string>, k: Counter)
    ensures CountIn(lines + [l], nodeIds, k) == CountIn(lines, nodeIds, k) + Amount(l, nodeIds, k)
  {
    assert (lines + [l])[..|lines|] == lines;
  }

  lemma IncrementCounts(counts: Counts, a: Class)
    ensures counts.Increment(a) ==
            Counts(counts.typedNode + One(a == TypedNode), counts.typedNodeMissing + One(a == TypedNodeMissing),
                   counts.typedNonNode + One(a == TypedNonNode), counts.typedUnknown + One(a == TypedUnknown),
                   counts.untypedExisting + One(a == UntypedExisting), counts.untypedMissing + One(a == UntypedMissing))
  {
  }

  /** Counting one more line is adding its amounts. */
  lemma LineCounted(s: EdgeSummary, l: Line<Edge>, nodeIds: set<string>)
    ensures LineAudited(s, l, nodeIds) ==
            EdgeSummary(s.records + Amount(l, nodeIds, Records),
                        s.invalidJson + Amount(l, nodeIds, InvalidLines),
                        s.nonObject + Amount(l, nodeIds, NonObjects),
                        s.malformed + Amount(l, nodeIds, Malformed),
                        s.auditable + Amount(l, nodeIds, Audited),
                        Counts(s.sides.typedNode + Amount(l, nodeIds, SidesOf(TypedNode)),
                               s.sides.typedNodeMissing + Amount(l, nodeIds, SidesOf(TypedNodeMissing)),
                               s.sides.typedNonNode + Amount(l, nodeIds, SidesOf(TypedNonNode)),
                               s.sides.typedUnknown + Amount(l, nodeIds, SidesOf(TypedUnknown)),
                               s.sides.untypedExisting + Amount(l, nodeIds, SidesOf(UntypedExisting)),
                               s.sides.untypedMissing + Amount(l, nodeIds, SidesOf(UntypedMissing))),
                        s.anyMissing + Amount(l, nodeIds, AnyMissing),
                        s.bothMissing + Amount(l, nodeIds, BothMissing))
  {
    if l.Record? && Auditable(l.record) {
      var src, tgt := SourceClass(l.record, nodeIds), TargetClass(l.record, nodeIds);
      IncrementCounts(s.sides, src);
      IncrementCounts(s.sides.Increment(src), tgt);
    }
  }

  lemma TotalsMore(lines: seq<Line<Edge>>, l: Line<Edge>, nodeIds: set<string>, s: EdgeSummary)
    requires EdgeTotals(s, lines, nodeIds)
    ensures EdgeTotals(LineAudited(s, l, nodeIds), lines + [l], nodeIds)
  {
    LineCounted(s, l, nodeIds);
    forall k ensures CountIn(lines + [l], nodeIds, k) == CountIn(lines, nodeIds, k) + Amount(l, nodeIds, k) {
      CountMore(lines, l, nodeIds, k);
    }
  }

  /** One line of `iter_jsonl_edges`, and the loop body of `evaluate_audit_data` for an object. */
  method AuditLine(line: Line<Edge>, number: nat, nodeIds: set<string>, d: Display, log: FindingLog, s0: EdgeSummary)
    returns (s: EdgeSummary, truncated: bool)
    requires log.Valid()
    modifies log
    ensures log.Valid() && log.all == old(log.all) + LineFindings(line, number, nodeIds, d)
    ensures truncated <==> log.maxFindings != -1 && |log.all| > |old(log.all)| && |log.all| > log.maxFindings
    ensures s == LineAudited(s0, line, nodeIds)
  {
    s, truncated := s0, false;
    if line.Blank? { return; }
    s := s.(records := s.records + 1);
    match line {
      case InvalidJson => s := s.(invalidJson := s.invalidJson + 1);
      case NonObject => s := s.(nonObject := s.nonObject + 1);
      case Record(e) => s, truncated := AuditEdge(e, number, nodeIds, d, log, s);
    }
  }

  lemma AllFindingsMore(lines: seq<Line<Edge>>, l: Line<Edge>, nodeIds: set<string>, d: Display)
    ensures AllFindings(lines + [l], nodeIds, d) ==
            AllFindings(lines, nodeIds, d) + LineFindings(l, |lines| + 1, nodeIds, d)
  {
    assert (lines + [l])[..|lines|] == lines;
  }

  method AuditNext(ghost before: seq<Line<Edge>>, line: Line<Edge>, number: nat, nodeIds: set<string>, d: Display,
                   log: FindingLog, s0: EdgeSummary)
    returns (s: EdgeSummary, truncated: bool)
    requires log.Valid() && log.all == AllFindings(before, nodeIds, d) && EdgeTotals(s0, before, nodeIds)
    requires number == |before| + 1
    modifies log
    ensures log.Valid() && log.all == AllFindings(before + [line], nodeIds, d)
    ensures EdgeTotals(s, before + [line], nodeIds)
    ensures |log.all| >= |old(log.all)|
    ensures truncated <==> log.maxFindings != -1 && |log.all| > |old(log.all)| && |log.all| > log.maxFindings
  {
    TotalsMore(before, line, nodeIds, s0);
    AllFindingsMore(before, line, nodeIds, d);
    s, truncated := AuditLine(line, number, nodeIds, d, log, s0);
  }

  method AuditEdges(lines: seq<Line<Edge>>, nodeIds: set<string>, d: Display, log: FindingLog)
    returns (s: EdgeSummary, truncated: bool)
    requires log.Valid() && log.all == []
    modifies log
    ensures log.Valid() && log.all == AllFindings(lines, nodeIds, d)
    ensures EdgeTotals(s, lines, nodeIds)
    ensures truncated <==> log.maxFindings != -1 && |log.all| > log.maxFindings && |log.all| > 0
  {
    s, truncated := EdgeSummary(0, 0, 0, 0, 0, Counts(0, 0, 0, 0, 0, 0), 0, 0), false;
    assert lines[..0] == [];
    for k := 0 to |lines|
      invariant log.Valid() && log.all == AllFindings(lines[..k], nodeIds, d)
      invariant EdgeTotals(s, lines[..k], nodeIds)
      invariant truncated <==> log.maxFindings != -1 && |log.all| > log.maxFindings && |log.all| > 0
    {
      assert lines[..k + 1] == lines[..k] + [lines[k]];
      var dropped;
      s, dropped := AuditNext(lines[..k], lines[k], k + 1, nodeIds, d, log, s);
      truncated := truncated || dropped;
    }
    assert lines[..|lines|] == lines;
  }

  // ----- conservation -----

  /** Every record is auditable, malformed, invalid or not an object. */
  lemma {:induction false} RecordsConserved(lines: seq<Line<Edge>>, nodeIds: set<string>)
    ensures CountIn(lines, nodeIds, Records) ==
            CountIn(lines, nodeIds, Audited) + CountIn(lines, nodeIds, Malformed)
            + CountIn(lines, nodeIds, InvalidLines) + CountIn(lines, nodeIds, NonObjects)
  {
    if |lines| > 0 {
      RecordsConserved(lines[..|lines| - 1], nodeIds);
    }
  }

  /** Every auditable edge has two classified sides. */
  lemma {:induction false} SidesConserved(lines: seq<Line<Edge>>, nodeIds: set<string>)
    ensures 2 * CountIn(lines, nodeIds, Audited) ==
            CountIn(lines, nodeIds, SidesOf(TypedNode)) + CountIn(lines, nodeIds, SidesOf(TypedNodeMissing))
            + CountIn(lines, nodeIds, SidesOf(TypedNonNode)) + CountIn(lines, nodeIds, SidesOf(TypedUnknown))
            + CountIn(lines, nodeIds, SidesOf(UntypedExisting)) + CountIn(lines, nodeIds, SidesOf(UntypedMissing))
  {
    if |lines| > 0 {
      SidesConserved(lines[..|lines| - 1], nodeIds);
      TwoSides(lines[|lines| - 1], nodeIds);
    }
  }

  lemma TwoSides(l: Line<Edge>, nodeIds: set<string>)
    ensures 2 * Amount(l, nodeIds, Audited) ==
            Amount(l, nodeIds, SidesOf(TypedNode)) + Amount(l, nodeIds, SidesOf(TypedNodeMissing))
            + Amount(l, nodeIds, SidesOf(TypedNonNode)) + Amount(l, nodeIds, SidesOf(TypedUnknown))
            + Amount(l, nodeIds, SidesOf(UntypedExisting)) + Amount(l, nodeIds, SidesOf(UntypedMissing))
  {
  }

  /** Missing sides are edges with any missing side plus edges with both missing. */
  lemma {:induction false} MissingConserved(lines: seq<Line<Edge>>, nodeIds: set<string>)
    ensures CountIn(lines, nodeIds, SidesOf(TypedNodeMissing)) + CountIn(lines, nodeIds, SidesOf(UntypedMissing)) ==
            CountIn(lines, nodeIds, AnyMissing) + CountIn(lines, nodeIds, BothMissing)
  {
    if |lines| > 0 {
      MissingConserved(lines[..|lines| - 1], nodeIds);
    }
  }

  /** The balance of a summary. */
  ghost predicate Balanced(s: EdgeSummary) {
    && s.records == s.auditable + s.malformed + s.invalidJson + s.nonObject
    && s.sides.Total() == 2 * s.auditable
    && s.sides.typedNodeMissing + s.sides.untypedMissing == s.anyMissing + s.bothMissing
  }

  lemma TotalsBalance(s: EdgeSummary, lines: seq<Line<Edge>>, nodeIds: set<string>)
    requires EdgeTotals(s, lines, nodeIds)
    ensures Balanced(s)
  {
    RecordsConserved(lines, nodeIds);
    SidesConserved(lines, nodeIds);
    MissingConserved(lines, nodeIds);
  }

  // ----- the report -----

  datatype Signals = Signals(strictNodeFkReady: bool, looseReferenceSemanticsObserved: bool,
                             requiresPolicyDecision: bool,
                             requiresCleanup: bool, requiresRuntimeDataRun: bool, runtimeReferenceDataObserved: bool,
                             typeHintBackfillRecommended: bool, fkCompatibleReferenceSides: nat)

  predicate OnlyReferenceCounts(c: Counts) {
    c.typedNodeMissing == 0 && c.typedNonNode == 0 && c.typedUnknown == 0 && c.untypedMissing == 0
  }

  /** What each signal says of the counters. */
  ghost predicate Signalled(p: Signals, sourceKind: string, n: NodeSummary, s: EdgeSummary) {
    && (p.runtimeReferenceDataObserved <==> sourceKind == "runtime" && s.auditable > 0)
    && (p.requiresRuntimeDataRun <==> !p.runtimeReferenceDataObserved)
    && (p.strictNodeFkReady <==> p.runtimeReferenceDataObserved && !p.requiresCleanup && !p.requiresPolicyDecision)
    && (p.requiresCleanup <==>
          !n.Clean() || !s.NoDefects() || s.sides.typedNodeMissing > 0 || s.sides.untypedMissing > 0)
    && (p.requiresPolicyDecision <==> !OnlyReferenceCounts(s.sides))
    && (p.looseReferenceSemanticsObserved <==> s.sides.typedNonNode > 0)
    && (p.typeHintBackfillRecommended <==> s.sides.untypedExisting > 0)
    && p.fkCompatibleReferenceSides == s.sides.typedNode + s.sides.untypedExisting
  }

  method PolicySignals(sourceKind: string, n: NodeSummary, s: EdgeSummary) returns (p: Signals)
    ensures Signalled(p, sourceKind, n, s)
  {
    var observed := sourceKind == "runtime" && s.auditable > 0;
    var c := s.sides;
    var strict := observed &&
      n.invalidJson == 0 && n.nonObject == 0 && n.missingId == 0 && n.nonStringId == 0 && n.emptyId == 0 &&
      n.duplicates == 0 && s.malformed == 0 && s.invalidJson == 0 && s.nonObject == 0 &&
      c.typedNodeMissing == 0 && c.typedNonNode == 0 && c.typedUnknown == 0 && c.untypedMissing == 0;
    var cleanup :=
      n.invalidJson > 0 || n.nonObject > 0 || n.missingId > 0 || n.nonStringId > 0 || n.emptyId > 0 ||
      n.duplicates > 0 || s.malformed > 0 || s.invalidJson > 0 || s.nonObject > 0 ||
      c.typedNodeMissing > 0 || c.untypedMissing > 0;
    var policy := c.typedNonNode > 0 || c.typedUnknown > 0 || c.untypedMissing > 0 || c.typedNodeMissing > 0;
    p := Signals(strict, c.typedNonNode > 0, policy, cleanup, !observed, observed, c.untypedExisting > 0,
                 c.typedNode + c.untypedExisting);
  }

  datatype Report = Report(nodes: NodeSummary, edges: EdgeSummary, signals: Signals, truncated: bool,
                           findings: seq<Finding>)

  /** Loading both files, and the loop over the edges. */
  method Collect(nodeLines: seq<Line<Field>>, edgeLines: seq<Line<Edge>>, d: Display, maxFindings: int)
    returns (nodes: NodeSummary, edges: EdgeSummary, truncated: bool, findings: seq<Finding>)
    ensures NodeTotals(nodes, nodeLines) && EdgeTotals(edges, edgeLines, NodeIds(nodeLines))
    ensures var all := AllFindings(edgeLines, NodeIds(nodeLines), d);
            && findings == Reported(maxFindings, all)
            && (truncated <==> maxFindings != -1 && |all| > 0 && |all| > maxFindings)
  {
    var nodeIds;
    nodeIds, nodes := LoadNodes(nodeLines);
    var log := new FindingLog(maxFindings);
    edges, truncated := AuditEdges(edgeLines, nodeIds, d, log);
    findings := log.Finish();
  }

  lemma ReadyReport(nodeLines: seq<Line<Field>>, edgeLines: seq<Line<Edge>>, sourceKind: string, d: Display,
                    nodes: NodeSummary, edges: EdgeSummary, signals: Signals)
    requires NodeTotals(nodes, nodeLines) && EdgeTotals(edges, edgeLines, NodeIds(nodeLines))
    requires Signalled(signals, sourceKind, nodes, edges)
    ensures signals.strictNodeFkReady <==> FkReady(nodeLines, edgeLines, sourceKind)
    ensures signals.strictNodeFkReady ==>
              && AllFindings(edgeLines, NodeIds(nodeLines), d) == []
              && !signals.requiresCleanup && !signals.requiresPolicyDecision && !signals.looseReferenceSemanticsObserved
  {
    ReadyIff(nodeLines, edgeLines, sourceKind, nodes, edges);
    if signals.strictNodeFkReady {
      NoFindings(edgeLines, NodeIds(nodeLines), d);
    }
  }

  /** `evaluate_audit_data` */
  method Audit(nodeLines: seq<Line<Field>>, edgeLines: seq<Line<Edge>>, sourceKind: string, d: Display,
               maxFindings: int)
    returns (r: Report)
    ensures NodeTotals(r.nodes, nodeLines)
    ensures EdgeTotals(r.edges, edgeLines, NodeIds(nodeLines)) && Balanced(r.edges)
    ensures r.findings == Reported(maxFindings, AllFindings(edgeLines, NodeIds(nodeLines), d))
    ensures r.truncated <==>
              var all := AllFindings(edgeLines, NodeIds(nodeLines), d);
              maxFindings != -1 && |all| > 0 && |all| > maxFindings
    ensures Signalled(r.signals, sourceKind, r.nodes, r.edges)
    ensures r.signals.strictNodeFkReady <==> FkReady(nodeLines, edgeLines, sourceKind)
    ensures r.signals.strictNodeFkReady ==>
              && r.findings == [] && !r.truncated
              && !r.signals.requiresCleanup && !r.signals.requiresPolicyDecision && !r.signals.looseReferenceSemanticsObserved
  {
    var nodes, edges, truncated, findings := Collect(nodeLines, edgeLines, d, maxFindings);
    TotalsBalance(edges, edgeLines, NodeIds(nodeLines));
    var signals := PolicySignals(sourceKind, nodes, edges);
    ReadyReport(nodeLines, edgeLines, sourceKind, d, nodes, edges, signals);
    r := Report(nodes, edges, signals, truncated, findings);
  }

  /** Every side of every edge is hinted `node` or not at all, and resolves. */
  ghost predicate AllSidesResolve(lines: seq<Line<Edge>>, nodeIds: set<string>) {
    forall i :: 0 <= i < |lines| && lines[i].Record? && Auditable(lines[i].record) ==>
      var e := lines[i].record;
      && e.sourceId.text in nodeIds && (e.sourceType == Str("node") || Unhinted(e.sourceType))
      && e.targetId.text in nodeIds && (e.targetType == Str("node") || Unhinted(e.targetType))
  }

  /** What `strict_node_fk_ready` promises, read off the input. */
  ghost predicate FkReady(nodeLines: seq<Line<Field>>, edgeLines: seq<Line<Edge>>, sourceKind: string) {
    && sourceKind == "runtime"
    && HasAuditable(edgeLines)
    && NodesClean(nodeLines) && EdgesClean(edgeLines)
    && AllSidesResolve(edgeLines, NodeIds(nodeLines))
  }

  lemma NodeIsNoSpace()
    ensures !AllSpace("node")
  {
    assert "node"[0] == 'n';
  }

  lemma ResolvesIffReference(id: string, hint: Field, nodeIds: set<string>)
    ensures IsReference(Classify(id, hint, nodeIds)) <==> id in nodeIds && (hint == Str("node") || Unhinted(hint))
  {
    NodeIsNoSpace();
  }

  /** No side is of another class. */
  ghost predicate OnlyReferences(lines: seq<Line<Edge>>, nodeIds: set<string>) {
    && CountIn(lines, nodeIds, SidesOf(TypedNodeMissing)) == 0
    && CountIn(lines, nodeIds, SidesOf(TypedNonNode)) == 0
    && CountIn(lines, nodeIds, SidesOf(TypedUnknown)) == 0
    && CountIn(lines, nodeIds, SidesOf(UntypedMissing)) == 0
  }

  lemma LineResolves(l: Line<Edge>, nodeIds: set<string>)
    ensures AllSidesResolve([l], nodeIds) <==>
              && Amount(l, nodeIds, SidesOf(TypedNodeMissing)) == 0 && Amount(l, nodeIds, SidesOf(TypedNonNode)) == 0
              && Amount(l, nodeIds, SidesOf(TypedUnknown)) == 0 && Amount(l, nodeIds, SidesOf(UntypedMissing)) == 0
  {
    assert [l][0] == l;
    if l.Record? && Auditable(l.record) {
      ResolvesIffReference(l.record.sourceId.text, l.record.sourceType, nodeIds);
      ResolvesIffReference(l.record.targetId.text, l.record.targetType, nodeIds);
    }
  }

  /** No side is of another class exactly when every side resolves. */
  lemma {:induction false} OnlyReferencesIff(lines: seq<Line<Edge>>, nodeIds: set<string>)
    ensures OnlyReferences(lines, nodeIds) <==> AllSidesResolve(lines, nodeIds)
  {
    if |lines| > 0 {
      var init, l := lines[..|lines| - 1], lines[|lines| - 1];
      OnlyReferencesIff(init, nodeIds);
      assert lines == init + [l];
      AllSidesResolveMore(init, l, nodeIds);
      LineResolves(l, nodeIds);
    }
  }

  lemma EdgesCleanMore(lines: seq<Line<Edge>>, l: Line<Edge>)
    ensures EdgesClean(lines + [l]) <==> EdgesClean(lines) && (l.Blank? || (l.Record? && Auditable(l.record)))
  {
    var more := lines + [l];
    assert more[|lines|] == l;
    forall i | 0 <= i < |lines| ensures more[i] == lines[i] { }
  }

  lemma HasAuditableMore(lines: seq<Line<Edge>>, l: Line<Edge>)
    ensures HasAuditable(lines + [l]) <==> HasAuditable(lines) || (l.Record? && Auditable(l.record))
  {
    var more := lines + [l];
    assert more[|lines|] == l;
    if i :| 0 <= i < |lines| && lines[i].Record? && Auditable(lines[i].record) {
      assert more[i] == lines[i];
    }
  }

  lemma {:induction false} DefectsIff(lines: seq<Line<Edge>>, nodeIds: set<string>)
    ensures EdgesClean(lines) <==>
              && CountIn(lines, nodeIds, Malformed) == 0 && CountIn(lines, nodeIds, InvalidLines) == 0
              && CountIn(lines, nodeIds, NonObjects) == 0
  {
    if |lines| > 0 {
      var init, l := lines[..|lines| - 1], lines[|lines| - 1];
      DefectsIff(init, nodeIds);
      assert lines == init + [l];
      EdgesCleanMore(init, l);
    }
  }

  lemma {:induction false} AuditableIff(lines: seq<Line<Edge>>, nodeIds: set<string>)
    ensures HasAuditable(lines) <==> CountIn(lines, nodeIds, Audited) > 0
  {
    if |lines| > 0 {
      var init, l := lines[..|lines| - 1], lines[|lines| - 1];
      AuditableIff(init, nodeIds);
      assert lines == init + [l];
      HasAuditableMore(init, l);
    }
  }

  lemma AllSidesResolveMore(lines: seq<Line<Edge>>, l: Line<Edge>, nodeIds: set<string>)
    ensures AllSidesResolve(lines + [l], nodeIds) <==> AllSidesResolve(lines, nodeIds) && AllSidesResolve([l], nodeIds)
  {
    var more := lines + [l];
    assert more[|lines|] == l && [l][0] == l;
    forall i | 0 <= i < |lines| ensures more[i] == lines[i] { }
  }

  lemma ReadyIff(nodeLines: seq<Line<Field>>, edgeLines: seq<Line<Edge>>, sourceKind: string, n: NodeSummary,
                 s: EdgeSummary)
    requires NodeTotals(n, nodeLines) && EdgeTotals(s, edgeLines, NodeIds(nodeLines))
    ensures FkReady(nodeLines, edgeLines, sourceKind) <==>
              && sourceKind == "runtime" && s.auditable > 0 && n.Clean()
              && s.NoDefects()
              && OnlyReferenceCounts(s.sides)
  {
    OnlyReferencesIff(edgeLines, NodeIds(nodeLines));
    DefectsIff(edgeLines, NodeIds(nodeLines));
    AuditableIff(edgeLines, NodeIds(nodeLines));
  }

  lemma {:induction false} NoFindings(lines: seq<Line<Edge>>, nodeIds: set<string>, d: Display)
    requires EdgesClean(lines) && AllSidesResolve(lines, nodeIds)
    ensures AllFindings(lines, nodeIds, d) == []
  {
    if |lines| > 0 {
      var init, l := lines[..|lines| - 1], lines[|lines| - 1];
      assert lines == init + [l];
      AllSidesResolveMore(init, l, nodeIds);
      EdgesCleanMore(init, l);
      NoFindings(init, nodeIds, d);
      if l.Record? {
        assert [l][0] == l;
        ResolvesIffReference(l.record.sourceId.text, l.record.sourceType, nodeIds);
        ResolvesIffReference(l.record.targetId.text, l.record.targetType, nodeIds);
      }
    }
  }
}

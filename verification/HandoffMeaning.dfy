/** What the findings of a binding say, code by code, and the order in which they come. */
module HandoffMeaning {
  import opened Bytes
  import opened Wrappers
  import opened Text
  import opened Ordering
  import opened PathScope
  import opened HandoffBinding
  import opened HandoffTheorems

  /** The findings with a code, in their order. */
  ghost function OfCode(fs: seq<Finding>, code: Code): seq<Finding> {
    if |fs| == 0 then []
    else OfCode(fs[..|fs| - 1], code) + if fs[|fs| - 1].code == code then [fs[|fs| - 1]] else []
  }

  lemma {:induction false} OfCodeAppend(a: seq<Finding>, b: seq<Finding>, code: Code)
    ensures OfCode(a + b, code) == OfCode(a, code) + OfCode(b, code)
  {
    if |b| == 0 {
      assert a + b == a;
    } else {
      assert (a + b)[..|a + b| - 1] == a + b[..|b| - 1];
      OfCodeAppend(a, b[..|b| - 1], code);
    }
  }

  lemma {:induction false} AllOfCode(fs: seq<Finding>, code: Code)
    requires forall i :: 0 <= i < |fs| ==> fs[i].code == code
    ensures OfCode(fs, code) == fs
  {
    if |fs| > 0 {
      AllOfCode(fs[..|fs| - 1], code);
    }
  }

  lemma {:induction false} NoneOfCode(fs: seq<Finding>, code: Code)
    requires forall i :: 0 <= i < |fs| ==> fs[i].code != code
    ensures OfCode(fs, code) == []
  {
    if |fs| > 0 {
      NoneOfCode(fs[..|fs| - 1], code);
    }
  }

  lemma EachOfCode(c: Code, names: seq<string>, field: string, code: Code)
    ensures OfCode(Each(c, names, field), code) == if c == code then Each(c, names, field) else []
  {
    if c == code {
      AllOfCode(Each(c, names, field), code);
    } else {
      NoneOfCode(Each(c, names, field), code);
    }
  }

  // ----- what is wrong -----

  /** Some entry of the list stands for this file. */
  ghost predicate Lists(values: seq<string>, file: string) {
    exists v :: v in values && NormalizeRepoPath(v, false) == Some(file)
  }

  ghost predicate Covered(value: string, scopes: seq<string>) {
    exists s :: s in scopes && PathMatchesScope(value, s)
  }

  /** The file that the entry stands for is not there. */
  ghost predicate Absent(around: Surroundings, value: string) {
    exists p :: NormalizeRepoPath(value, false) == Some(p) && !around.isFile(p)
  }

  /** What is wrong with a listed entry. */
  ghost predicate Wrong(around: Surroundings, task: Task, code: Code, value: string) {
    match code
    case PathOutOfRepo => NormalizeRepoPath(value, false).None?
    case PathOutOfScope => NormalizeRepoPath(value, false).Some? && !Covered(value, task.allowedPaths)
    case ForbiddenPath => NormalizeRepoPath(value, false).Some? && Covered(value, task.forbiddenPaths)
    case EvidencePathInvalid => NormalizeRepoPath(value, false).None?
    case EvidenceNotFound => Absent(around, value)
    case _ => false
  }

  /** The wrong entries of a list, in its order, each as often as it is listed. */
  ghost function WrongEntries(around: Surroundings, task: Task, code: Code, values: seq<string>,
                              field: string): seq<Finding> {
    if |values| == 0 then []
    else
      var v := values[|values| - 1];
      WrongEntries(around, task, code, values[..|values| - 1], field)
      + if Wrong(around, task, code, v) then [Finding(code, v, field)] else []
  }

  lemma CoveredIff(value: string, scopes: seq<string>)
    requires NormalizeRepoPath(value, false).Some?
    ensures InSomeScope(NormalizeRepoPath(value, false).value, scopes) <==> Covered(value, scopes)
  {
    var p := NormalizeRepoPath(value, false).value;
    NormalizeIdempotent(value, false);
    if Covered(value, scopes) {
      var s :| s in scopes && PathMatchesScope(value, s);
      var i :| 0 <= i < |scopes| && scopes[i] == s;
      assert PathMatchesScope(p, scopes[i]);
    }
    if InSomeScope(p, scopes) {
      var i :| 0 <= i < |scopes| && PathMatchesScope(p, scopes[i]);
      assert scopes[i] in scopes && PathMatchesScope(value, scopes[i]);
    }
  }

  predicate AboutPaths(code: Code) {
    code == PathOutOfRepo || code == PathOutOfScope || code == ForbiddenPath
  }

  lemma SingleOfCode(f: Finding, code: Code)
    ensures OfCode([f], code) == (if f.code == code then [f] else []) && OfCode([], code) == []
  {
    assert [f][..0] == [];
  }

  /** Of at most two findings. */
  lemma TwoOfCode(one: bool, x: Finding, two: bool, y: Finding, code: Code)
    ensures OfCode((if one then [x] else []) + (if two then [y] else []), code) ==
            (if one && x.code == code then [x] else []) + (if two && y.code == code then [y] else [])
    ensures x.code != y.code ==>
              OfCode((if one then [x] else []) + (if two then [y] else []), code) ==
              if one && x.code == code then [x] else if two && y.code == code then [y] else []
  {
    SingleOfCode(x, code);
    SingleOfCode(y, code);
    OfCodeAppend(if one then [x] else [], if two then [y] else [], code);
  }

  lemma PathShape(task: Task, path: string, field: string)
    ensures NormalizeRepoPath(path, false).None? ==>
            PathFinding(task, path, field) == [Finding(PathOutOfRepo, path, field)]
    ensures NormalizeRepoPath(path, false).Some? ==>
              PathFinding(task, path, field) ==
              (if !Covered(path, task.allowedPaths) then [Finding(PathOutOfScope, path, field)] else [])
              + (if Covered(path, task.forbiddenPaths) then [Finding(ForbiddenPath, path, field)] else [])
  {
    if NormalizeRepoPath(path, false).Some? {
      CoveredIff(path, task.allowedPaths);
      CoveredIff(path, task.forbiddenPaths);
    }
  }

  lemma InvalidOfCode(around: Surroundings, task: Task, path: string, field: string, code: Code)
    requires NormalizeRepoPath(path, false).None?
    ensures OfCode(PathFinding(task, path, field), code) ==
            if AboutPaths(code) && Wrong(around, task, code, path) then [Finding(code, path, field)] else []
  {
    PathShape(task, path, field);
    SingleOfCode(Finding(PathOutOfRepo, path, field), code);
    assert AboutPaths(code) && Wrong(around, task, code, path) <==> code == PathOutOfRepo;
  }

  lemma OneOfTwo(fs: seq<Finding>, one: bool, x: Finding, two: bool, y: Finding, wanted: Finding, found: bool)
    requires fs == (if one then [x] else []) + (if two then [y] else []) && x.code != y.code
    requires (x.code == wanted.code ==> x == wanted) && (y.code == wanted.code ==> y == wanted)
    requires found <==> (one && x.code == wanted.code) || (two && y.code == wanted.code)
    ensures OfCode(fs, wanted.code) == if found then [wanted] else []
  {
    TwoOfCode(one, x, two, y, wanted.code);
  }

  lemma WrongInScope(around: Surroundings, task: Task, path: string, code: Code)
    requires NormalizeRepoPath(path, false).Some?
    ensures AboutPaths(code) && Wrong(around, task, code, path) <==>
              || (!Covered(path, task.allowedPaths) && code == PathOutOfScope)
              || (Covered(path, task.forbiddenPaths) && code == ForbiddenPath)
  { }

  lemma ScopeOfCode(around: Surroundings, task: Task, path: string, field: string, code: Code)
    requires NormalizeRepoPath(path, false).Some?
    ensures OfCode(PathFinding(task, path, field), code) ==
            if AboutPaths(code) && Wrong(around, task, code, path) then [Finding(code, path, field)] else []
  {
    PathShape(task, path, field);
    WrongInScope(around, task, path, code);
    OneOfTwo(PathFinding(task, path, field), !Covered(path, task.allowedPaths), Finding(PathOutOfScope, path, field),
             Covered(path, task.forbiddenPaths), Finding(ForbiddenPath, path, field), Finding(code, path, field),
             AboutPaths(code) && Wrong(around, task, code, path));
  }

  lemma PathOfCode(around: Surroundings, task: Task, path: string, field: string, code: Code)
    ensures OfCode(PathFinding(task, path, field), code) ==
            if AboutPaths(code) && Wrong(around, task, code, path) then [Finding(code, path, field)] else []
  {
    if NormalizeRepoPath(path, false).None? {
      InvalidOfCode(around, task, path, field, code);
    } else {
      ScopeOfCode(around, task, path, field, code);
    }
  }

  lemma {:induction false} DeclaredOfCode(around: Surroundings, task: Task, paths: seq<string>, field: string,
                                          code: Code)
    ensures OfCode(DeclaredFindings(task, paths, field), code) ==
            if AboutPaths(code) then WrongEntries(around, task, code, paths, field) else []
  {
    if |paths| > 0 {
      var init, last := paths[..|paths| - 1], paths[|paths| - 1];
      DeclaredOfCode(around, task, init, field, code);
      PathOfCode(around, task, last, field, code);
      OfCodeAppend(DeclaredFindings(task, init, field), PathFinding(task, last, field), code);
    }
  }

  lemma EntryShape(around: Surroundings, value: string, produced: bool, field: string)
    ensures EvidenceFinding(around, value, produced, field) ==
            if NormalizeRepoPath(value, false).None? then [Finding(EvidencePathInvalid, value, field)]
            else if produced && Absent(around, value) then [Finding(EvidenceNotFound, value, field)] else []
  { }

  lemma WrongEntry(around: Surroundings, task: Task, code: Code, value: string)
    ensures code == EvidencePathInvalid ==> (Wrong(around, task, code, value) <==> NormalizeRepoPath(value, false).None?)
    ensures code == EvidenceNotFound ==> (Wrong(around, task, code, value) <==> Absent(around, value))
    ensures Absent(around, value) ==> NormalizeRepoPath(value, false).Some?
  { }

  lemma EntryOfCode(around: Surroundings, task: Task, value: string, produced: bool, field: string, code: Code)
    ensures OfCode(EvidenceFinding(around, value, produced, field), code) ==
            if (code == EvidencePathInvalid || (produced && code == EvidenceNotFound)) && Wrong(around, task, code, value)
            then [Finding(code, value, field)] else []
  {
    EntryShape(around, value, produced, field);
    WrongEntry(around, task, code, value);
    SingleOfCode(Finding(EvidencePathInvalid, value, field), code);
    SingleOfCode(Finding(EvidenceNotFound, value, field), code);
  }

  lemma {:induction false} ListedOfCode(around: Surroundings, task: Task, values: seq<string>, produced: bool,
                                        field: string,
                                        code: Code)
    ensures OfCode(ListedEvidence(around, values, produced, field), code) ==
            if code == EvidencePathInvalid || (produced && code == EvidenceNotFound)
            then WrongEntries(around, task, code, values, field) else []
  {
    if |values| > 0 {
      var init, last := values[..|values| - 1], values[|values| - 1];
      ListedOfCode(around, task, init, produced, field, code);
      EntryOfCode(around, task, last, produced, field, code);
      OfCodeAppend(ListedEvidence(around, init, produced, field), EvidenceFinding(around, last, produced, field), code);
    }
  }

  // ----- what is missing or too much -----

  /** What a finding of this code, at most one for each subject, is about. */
  ghost predicate Amiss(task: Task, handoff: Handoff, code: Code, x: string) {
    match code
    case PathStateContradiction => Lists(handoff.changedPaths, x) && Lists(handoff.deletedPaths, x)
    case ClaimNotDeclared => x in handoff.claimsAddressed && x !in task.claims
    case ClaimNotAddressed => x in task.claims && x !in handoff.claimsAddressed
    case EvidenceStateContradiction => Lists(handoff.evidenceProduced, x) && Lists(handoff.missingEvidence, x)
    case ExpectedEvidenceUnaccounted =>
      Lists(task.expectedEvidence, x) && !Lists(handoff.evidenceProduced, x) && !Lists(handoff.missingEvidence, x)
    case UnexpectedMissingEvidence => Lists(handoff.missingEvidence, x) && !Lists(task.expectedEvidence, x)
    case ValidationResultMissing => x in task.validationCommands && !Recorded(handoff.results, x)
    case _ => false
  }

  ghost predicate Recorded(results: seq<Result>, command: string) {
    exists i :: 0 <= i < |results| && results[i].command == command
  }

  predicate AtMostOnce(code: Code) {
    || code == PathStateContradiction || code == ClaimNotDeclared || code == ClaimNotAddressed
    || code == EvidenceStateContradiction || code == ExpectedEvidenceUnaccounted || code == UnexpectedMissingEvidence
    || code == ValidationResultMissing
  }

  /** The field that such a finding names. */
  function FieldOf(code: Code): string {
    match code
    case PathStateContradiction => "deleted_paths"
    case ClaimNotDeclared => "claims_addressed"
    case ClaimNotAddressed => "claims_addressed"
    case ExpectedEvidenceUnaccounted => "evidence_produced"
    case ValidationResultMissing => "validation_results"
    case _ => "missing_evidence"
  }

  /** One finding for each subject that is amiss, in ascending order. */
  ghost predicate OneEach(fs: seq<Finding>, task: Task, handoff: Handoff, code: Code) {
    && (forall i :: 0 <= i < |fs| ==> fs[i] == Finding(code, fs[i].subject, FieldOf(code)))
    && (forall i, j :: 0 <= i < j < |fs| ==> TextLe(fs[i].subject, fs[j].subject) && fs[i].subject != fs[j].subject)
    && (forall x :: Amiss(task, handoff, code, x) <==> Finding(code, x, FieldOf(code)) in fs)
  }

  lemma FileSetLists(values: seq<string>, x: string)
    ensures x in FileSet(values) <==> Lists(values, x)
  {
    if x in FileSet(values) {
      var v :| v in values && NormalizeRepoPath(v, false).Some? && NormalizeRepoPath(v, false).value == x;
      assert NormalizeRepoPath(v, false) == Some(x);
    }
    if Lists(values, x) {
      var v :| v in values && NormalizeRepoPath(v, false) == Some(x);
      assert NormalizeRepoPath(v, false).value == x;
    }
  }

  lemma EachMembers(code: Code, names: seq<string>, field: string, x: string)
    ensures Finding(code, x, field) in Each(code, names, field) <==> x in names
  {
    var fs := Each(code, names, field);
    if x in names {
      var i :| 0 <= i < |names| && names[i] == x;
      assert fs[i] == Finding(code, x, field);
    }
    if Finding(code, x, field) in fs {
      var i :| 0 <= i < |fs| && fs[i] == Finding(code, x, field);
      assert names[i] == x;
    }
  }

  lemma EachAscends(code: Code, names: seq<string>, field: string)
    requires StrictlySorted(TextLe, names)
    ensures var fs := Each(code, names, field);
            forall i, j :: 0 <= i < j < |fs| ==> TextLe(fs[i].subject, fs[j].subject) && fs[i].subject != fs[j].subject
  {
    var fs := Each(code, names, field);
    forall i, j | 0 <= i < j < |fs| ensures TextLe(fs[i].subject, fs[j].subject) && fs[i].subject != fs[j].subject {
      assert fs[i].subject == names[i] && fs[j].subject == names[j];
    }
  }

  lemma EachIsOneEach(task: Task, handoff: Handoff, code: Code, names: set<string>)
    requires forall x :: x in names <==> Amiss(task, handoff, code, x)
    ensures OneEach(Each(code, SortedTexts(names), FieldOf(code)), task, handoff, code)
  {
    var sorted := SortedTexts(names);
    EachAscends(code, sorted, FieldOf(code));
    forall x
      ensures Amiss(task, handoff, code, x) <==> Finding(code, x, FieldOf(code)) in Each(code, sorted, FieldOf(code))
    {
      EachMembers(code, sorted, FieldOf(code), x);
    }
  }

  // ----- results and outcome -----

  /** One finding for each result whose command has a result before, naming its place. */
  ghost function RepeatedResults(results: seq<Result>): seq<Finding> {
    if |results| == 0 then []
    else
      var n := |results| - 1;
      RepeatedResults(results[..n])
      + if Recorded(results[..n], results[n].command)
        then [Finding(ValidationResultDuplicate, results[n].command, "validation_results[" + Decimal(n) + "]")] else []
  }

  lemma {:induction false} RepeatsAreRepeated(results: seq<Result>)
    ensures RepeatFindings(results) == RepeatedResults(results)
    ensures forall i :: 0 <= i < |RepeatFindings(results)| ==> RepeatFindings(results)[i].code == ValidationResultDuplicate
  {
    if |results| > 0 {
      RepeatsAreRepeated(results[..|results| - 1]);
      LastStatusKeys(results[..|results| - 1]);
    }
  }

  /** The last result of some command is not a pass. */
  ghost predicate Failing(results: seq<Result>) {
    exists i :: 0 <= i < |results| && LastOf(results, i) && results[i].status != "passed"
  }

  ghost predicate LastOf(results: seq<Result>, i: nat)
    requires i < |results|
  {
    forall j :: i < j < |results| ==> results[j].command != results[i].command
  }

  lemma LastOfLonger(init: seq<Result>, r: Result, i: nat)
    requires i < |init| && init[i].command != r.command
    ensures LastOf(init + [r], i) <==> LastOf(init, i)
  {
    var more := init + [r];
    if LastOf(more, i) {
      forall j | i < j < |init| ensures init[j].command != init[i].command {
        assert more[j] == init[j];
      }
    }
  }

  lemma {:induction false} LastStatusFound(results: seq<Result>, command: string)
    requires command in LastStatus(results)
    ensures exists i :: 0 <= i < |results| && LastOf(results, i) && results[i] == Result(command, LastStatus(results)[command])
  {
    var n := |results| - 1;
    if results[n].command == command {
      assert LastOf(results, n);
    } else {
      LastStatusFound(results[..n], command);
      var i :| 0 <= i < n && LastOf(results[..n], i) && results[..n][i] == Result(command, LastStatus(results[..n])[command]);
      LastOfLonger(results[..n], results[n], i);
      assert results == results[..n] + [results[n]];
    }
  }

  lemma {:induction false} LastStatusHolds(results: seq<Result>, i: nat)
    requires i < |results| && LastOf(results, i)
    ensures results[i].command in LastStatus(results) && LastStatus(results)[results[i].command] == results[i].status
  {
    var n := |results| - 1;
    if i < n {
      assert results == results[..n] + [results[n]];
      LastOfLonger(results[..n], results[n], i);
      LastStatusHolds(results[..n], i);
    }
  }

  lemma FailingIff(results: seq<Result>)
    ensures Failing(results) <==> NotPassed(results) != {}
  {
    if Failing(results) {
      var i :| 0 <= i < |results| && LastOf(results, i) && results[i].status != "passed";
      LastStatusHolds(results, i);
      assert results[i].command in NotPassed(results);
    }
    if NotPassed(results) != {} {
      var c :| c in NotPassed(results);
      LastStatusFound(results, c);
    }
  }

  /** Some result is not a pass, or a required one is missing. */
  ghost predicate Undone(task: Task, handoff: Handoff) {
    Failing(handoff.results) || exists c :: c in task.validationCommands && !Recorded(handoff.results, c)
  }

  lemma NotRecordedMeans(task: Task, handoff: Handoff, c: string)
    ensures c in NotRecorded(task, handoff) <==> c in task.validationCommands && !Recorded(handoff.results, c)
  {
    LastStatusKeys(handoff.results);
  }

  lemma UndoneIff(task: Task, handoff: Handoff)
    ensures Undone(task, handoff) <==> NotPassed(handoff.results) != {} || NotRecorded(task, handoff) != {}
  {
    FailingIff(handoff.results);
    forall c ensures c in NotRecorded(task, handoff) <==> c in task.validationCommands && !Recorded(handoff.results, c) {
      NotRecordedMeans(task, handoff, c);
    }
    if exists c :: c in task.validationCommands && !Recorded(handoff.results, c) {
      var c :| c in task.validationCommands && !Recorded(handoff.results, c);
      assert c in NotRecorded(task, handoff);
    }
    if NotRecorded(task, handoff) != {} {
      var c :| c in NotRecorded(task, handoff);
      assert c in task.validationCommands && !Recorded(handoff.results, c);
    }
  }

  /** How often the stated outcome contradicts the rest, and the field that is named. */
  ghost predicate OutcomeContradicted(fs: seq<Finding>, task: Task, handoff: Handoff) {
    && (handoff.outcome == "ready_for_review" ==>
          && |fs| == (if handoff.blockers != [] || handoff.missingEvidence != [] then 1 else 0)
                     + (if Undone(task, handoff) then 1 else 0)
          && forall i :: 0 <= i < |fs| ==> fs[i] == Finding(ContradictoryOutcome, "", "outcome"))
    && (handoff.outcome == "blocked" ==>
          fs == if handoff.blockers == [] then [Finding(ContradictoryOutcome, "", "blockers")] else [])
    && (handoff.outcome == "incomplete" ==>
          fs == if && handoff.missingEvidence == [] && handoff.residualGaps == [] && !Undone(task, handoff)
                   && forall c :: c in task.claims ==> c in handoff.claimsAddressed
                then [Finding(ContradictoryOutcome, "", "outcome")] else [])
    && (handoff.outcome != "ready_for_review" && handoff.outcome != "blocked" && handoff.outcome != "incomplete" ==> fs == [])
  }

  lemma ClaimsCovered(claims: seq<string>, addressed: seq<string>)
    ensures Elements(claims) - Elements(addressed) == {} <==> forall c :: c in claims ==> c in addressed
  {
    if Elements(claims) - Elements(addressed) == {} {
      forall c | c in claims ensures c in addressed {
        assert c in Elements(claims) && c !in Elements(claims) - Elements(addressed);
      }
    }
  }

  lemma OutcomeMeans(task: Task, handoff: Handoff)
    ensures OutcomeContradicted(OutcomeFindings(task, handoff), task, handoff)
    ensures forall i :: 0 <= i < |OutcomeFindings(task, handoff)| ==> OutcomeFindings(task, handoff)[i].code == ContradictoryOutcome
  {
    UndoneIff(task, handoff);
    ClaimsCovered(task.claims, handoff.claimsAddressed);
    assert handoff.outcome == "ready_for_review" ==> handoff.outcome != "blocked" && handoff.outcome != "incomplete";
    assert handoff.outcome == "blocked" ==> handoff.outcome != "incomplete";
  }

  // ----- the sections of a binding -----

  ghost function Contradictions(handoff: Handoff): set<string> {
    FileSet(handoff.changedPaths) * FileSet(handoff.deletedPaths)
  }

  ghost function Doubled(handoff: Handoff): set<string> {
    FileSet(handoff.evidenceProduced) * FileSet(handoff.missingEvidence)
  }

  ghost function Unaccounted(task: Task, handoff: Handoff): set<string> {
    FileSet(task.expectedEvidence) - FileSet(handoff.evidenceProduced) - FileSet(handoff.missingEvidence)
  }

  ghost function Unexpected(task: Task, handoff: Handoff): set<string> {
    FileSet(handoff.missingEvidence) - FileSet(task.expectedEvidence)
  }

  ghost function Deletion(task: Task, handoff: Handoff): seq<Finding> {
    if FileSet(handoff.deletedPaths) != {} && !task.deleteAllowed
    then [Finding(DeleteWithoutPermission, "", "deleted_paths")] else []
  }

  datatype Binding = Binding(around: Surroundings, task: Task, handoff: Handoff, bytes: Bytes)

  ghost function Flatten(parts: seq<seq<Finding>>): seq<Finding> {
    if |parts| == 0 then [] else Flatten(parts[..|parts| - 1]) + parts[|parts| - 1]
  }

  lemma {:induction false} FlattenAppend(a: seq<seq<Finding>>, b: seq<seq<Finding>>)
    ensures Flatten(a + b) == Flatten(a) + Flatten(b)
  {
    if |b| == 0 {
      assert a + b == a;
    } else {
      assert (a + b)[..|a + b| - 1] == a + b[..|b| - 1];
      FlattenAppend(a, b[..|b| - 1]);
    }
  }

  lemma FlattenNext(a: seq<seq<Finding>>, x: seq<Finding>)
    ensures Flatten(a + [x]) == Flatten(a) + x
  {
    assert (a + [x])[..|a|] == a;
  }

  lemma FlattenTwo(a: seq<Finding>, b: seq<Finding>)
    ensures Flatten([a, b]) == a + b
  {
    FlattenNext([], a);
    FlattenNext([a], b);
    assert [] + [a] == [a] && [a] + [b] == [a, b];
  }

  lemma FlattenThree(a: seq<Finding>, b: seq<Finding>, c: seq<Finding>)
    ensures Flatten([a, b, c]) == a + b + c
  {
    FlattenTwo(a, b);
    FlattenNext([a, b], c);
    assert [a, b] + [c] == [a, b, c];
  }

  lemma FlattenFour(a: seq<Finding>, b: seq<Finding>, c: seq<Finding>, d: seq<Finding>)
    ensures Flatten([a, b, c, d]) == a + b + c + d
  {
    FlattenThree(a, b, c);
    FlattenNext([a, b, c], d);
    assert [a, b, c] + [d] == [a, b, c, d];
  }

  lemma FlattenFive(a: seq<Finding>, b: seq<Finding>, c: seq<Finding>, d: seq<Finding>, e: seq<Finding>)
    ensures Flatten([a, b, c, d, e]) == a + b + c + d + e
  {
    FlattenFour(a, b, c, d);
    FlattenNext([a, b, c, d], e);
    assert [a, b, c, d] + [e] == [a, b, c, d, e];
  }

  lemma AppendParts(a: seq<seq<Finding>>, b: seq<seq<Finding>>, c: seq<seq<Finding>>, d: seq<seq<Finding>>,
                    e: seq<seq<Finding>>)
    ensures Flatten(a + b + c + d + e) == Flatten(a) + Flatten(b) + Flatten(c) + Flatten(d) + Flatten(e)
  {
    FlattenAppend(a, b);
    FlattenAppend(a + b, c);
    FlattenAppend(a + b + c, d);
    FlattenAppend(a + b + c + d, e);
  }

  ghost function IdentityParts(b: Binding): (r: seq<seq<Finding>>)
    ensures |r| == 2
  {
    [if b.handoff.taskId != b.task.id then [Finding(TaskIdMismatch, "", "task_id")] else [],
     if b.handoff.digest != b.around.sha256(b.bytes) then [Finding(TaskDigestMismatch, "", "task_contract_sha256")] else []]
  }

  ghost function PathParts(b: Binding): (r: seq<seq<Finding>>)
    ensures |r| == 4
  {
    [DeclaredFindings(b.task, b.handoff.changedPaths, "changed_paths"),
     DeclaredFindings(b.task, b.handoff.deletedPaths, "deleted_paths"),
     Each(PathStateContradiction, SortedTexts(Contradictions(b.handoff)), "deleted_paths"), Deletion(b.task, b.handoff)]
  }

  ghost function ClaimParts(b: Binding): (r: seq<seq<Finding>>)
    ensures |r| == 2
  {
    [Each(ClaimNotDeclared, SortedTexts(Elements(b.handoff.claimsAddressed) - Elements(b.task.claims)), "claims_addressed"),
     Each(ClaimNotAddressed, SortedTexts(Elements(b.task.claims) - Elements(b.handoff.claimsAddressed)), "claims_addressed")]
  }

  ghost function EvidenceParts(b: Binding): (r: seq<seq<Finding>>)
    ensures |r| == 5
  {
    [Each(EvidenceStateContradiction, SortedTexts(Doubled(b.handoff)), "missing_evidence"),
     Each(ExpectedEvidenceUnaccounted, SortedTexts(Unaccounted(b.task, b.handoff)), "evidence_produced"),
     Each(UnexpectedMissingEvidence, SortedTexts(Unexpected(b.task, b.handoff)), "missing_evidence"),
     ListedEvidence(b.around, b.handoff.evidenceProduced, true, "evidence_produced"),
     ListedEvidence(b.around, b.handoff.missingEvidence, false, "missing_evidence")]
  }

  ghost function ResultParts(b: Binding): (r: seq<seq<Finding>>)
    ensures |r| == 3
  {
    [RepeatFindings(b.handoff.results),
     Each(ValidationResultMissing, SortedTexts(NotRecorded(b.task, b.handoff)), "validation_results"),
     OutcomeFindings(b.task, b.handoff)]
  }

  ghost function Parts(b: Binding): (r: seq<seq<Finding>>)
    ensures |r| == 16
  {
    IdentityParts(b) + PathParts(b) + ClaimParts(b) + EvidenceParts(b) + ResultParts(b)
  }

  lemma IdentitySections(b: Binding)
    ensures Flatten(IdentityParts(b)) == IdentityFindings(b.around, b.task, b.handoff, b.bytes)
  {
    FlattenTwo(IdentityParts(b)[0], IdentityParts(b)[1]);
  }

  lemma PathSections(b: Binding)
    ensures Flatten(PathParts(b)) == PathFindings(b.task, b.handoff)
  {
    FlattenFour(PathParts(b)[0], PathParts(b)[1], PathParts(b)[2], PathParts(b)[3]);
  }

  lemma ClaimSections(b: Binding)
    ensures Flatten(ClaimParts(b)) == ClaimFindings(b.task, b.handoff)
  {
    FlattenTwo(ClaimParts(b)[0], ClaimParts(b)[1]);
  }

  lemma EvidenceSections(b: Binding)
    ensures Flatten(EvidenceParts(b)) == EvidenceFindings(b.around, b.task, b.handoff)
  {
    FlattenFive(EvidenceParts(b)[0], EvidenceParts(b)[1], EvidenceParts(b)[2], EvidenceParts(b)[3],
                EvidenceParts(b)[4]);
  }

  lemma ResultSections(b: Binding)
    ensures Flatten(ResultParts(b)) == ResultFindings(b.task, b.handoff)
  {
    FlattenThree(ResultParts(b)[0], ResultParts(b)[1], ResultParts(b)[2]);
  }

  lemma SectionsOfBinding(b: Binding)
    ensures BindingFindings(b.around, b.task, b.handoff, b.bytes) == Flatten(Parts(b))
  {
    AppendParts(IdentityParts(b), PathParts(b), ClaimParts(b), EvidenceParts(b), ResultParts(b));
    IdentitySections(b);
    PathSections(b);
    ClaimSections(b);
    EvidenceSections(b);
    ResultSections(b);
  }

  /** Where a finding stands in the report, read off its code and field. */
  function Place(f: Finding): nat {
    match f.code
    case TaskIdMismatch => 0
    case TaskDigestMismatch => 1
    case PathOutOfRepo => if f.field == "changed_paths" then 2 else 3
    case PathOutOfScope => if f.field == "changed_paths" then 2 else 3
    case ForbiddenPath => if f.field == "changed_paths" then 2 else 3
    case PathStateContradiction => 4
    case DeleteWithoutPermission => 5
    case ClaimNotDeclared => 6
    case ClaimNotAddressed => 7
    case EvidenceStateContradiction => 8
    case ExpectedEvidenceUnaccounted => 9
    case UnexpectedMissingEvidence => 10
    case EvidencePathInvalid => if f.field == "evidence_produced" then 11 else 12
    case EvidenceNotFound => 11
    case ValidationResultDuplicate => 13
    case ValidationResultMissing => 14
    case ContradictoryOutcome => 15
  }

  ghost predicate AllAt(fs: seq<Finding>, k: nat) {
    forall i :: 0 <= i < |fs| ==> Place(fs[i]) == k
  }

  /** Every part holds the findings of its place. */
  ghost predicate Placed(parts: seq<seq<Finding>>) {
    forall k :: 0 <= k < |parts| ==> AllAt(parts[k], k)
  }

  lemma {:induction false} PlacedInOrder(parts: seq<seq<Finding>>)
    requires Placed(parts)
    ensures forall i :: 0 <= i < |Flatten(parts)| ==> Place(Flatten(parts)[i]) < |parts|
    ensures forall i, j :: 0 <= i < j < |Flatten(parts)| ==> Place(Flatten(parts)[i]) <= Place(Flatten(parts)[j])
  {
    if |parts| > 0 {
      var n := |parts| - 1;
      PlacedInOrder(parts[..n]);
      assert AllAt(parts[n], n);
    }
  }

  /** The places that findings of a code can have: the k-th and perhaps the one after it. */
  ghost predicate Home(code: Code, k: nat) {
    forall f: Finding :: f.code == code ==> Place(f) == k || Place(f) == k + 1
  }

  lemma ElsewhereNone(fs: seq<Finding>, code: Code, k: nat, j: nat)
    requires Home(code, k) && j != k && j != k + 1 && AllAt(fs, j)
    ensures OfCode(fs, code) == []
  {
    NoneOfCode(fs, code);
  }

  /** The part at a place, none behind the last. */
  ghost function PartAt(parts: seq<seq<Finding>>, k: nat): seq<Finding> {
    if k < |parts| then parts[k] else []
  }

  lemma NextOfCode(before: seq<Finding>, next: seq<Finding>, code: Code, k: nat, n: nat, one: seq<Finding>,
                   two: seq<Finding>)
    requires Home(code, k) && AllAt(next, n)
    requires OfCode(before, code) == OfCode(one, code) + OfCode(two, code)
    requires (n <= k ==> one == []) && (n <= k + 1 ==> two == [])
    ensures OfCode(before + next, code) ==
            OfCode(if n == k then next else one, code) + OfCode(if n == k + 1 then next else two, code)
  {
    OfCodeAppend(before, next, code);
    if n != k && n != k + 1 {
      ElsewhereNone(next, code, k, n);
    }
  }

  lemma {:induction false} OfCodeFlatten(parts: seq<seq<Finding>>, code: Code, k: nat)
    requires Placed(parts) && Home(code, k)
    ensures OfCode(Flatten(parts), code) == OfCode(PartAt(parts, k), code) + OfCode(PartAt(parts, k + 1), code)
  {
    if |parts| > 0 {
      var n := |parts| - 1;
      OfCodeFlatten(parts[..n], code, k);
      assert AllAt(parts[n], n);
      NextOfCode(Flatten(parts[..n]), parts[n], code, k, n, PartAt(parts[..n], k), PartAt(parts[..n], k + 1));
    }
  }

  lemma AllAtAppend(a: seq<Finding>, b: seq<Finding>, k: nat)
    requires AllAt(a, k) && AllAt(b, k)
    ensures AllAt(a + b, k)
  { }

  lemma TwoAt(one: bool, x: Finding, two: bool, y: Finding, k: nat)
    requires Place(x) == k && Place(y) == k
    ensures AllAt((if one then [x] else []) + (if two then [y] else []), k)
  { }

  lemma PathPlace(task: Task, path: string, field: string)
    ensures AllAt(PathFinding(task, path, field), if field == "changed_paths" then 2 else 3)
  {
    PathShape(task, path, field);
    var k := if field == "changed_paths" then 2 else 3;
    TwoAt(true, Finding(PathOutOfRepo, path, field), false, Finding(PathOutOfRepo, path, field), k);
    TwoAt(!Covered(path, task.allowedPaths), Finding(PathOutOfScope, path, field),
          Covered(path, task.forbiddenPaths), Finding(ForbiddenPath, path, field), k);
  }

  lemma {:induction false} DeclaredPlace(task: Task, paths: seq<string>, field: string)
    ensures AllAt(DeclaredFindings(task, paths, field), if field == "changed_paths" then 2 else 3)
  {
    if |paths| > 0 {
      var init, last := paths[..|paths| - 1], paths[|paths| - 1];
      DeclaredPlace(task, init, field);
      PathPlace(task, last, field);
      AllAtAppend(DeclaredFindings(task, init, field), PathFinding(task, last, field),
                  if field == "changed_paths" then 2 else 3);
    }
  }

  lemma EntryPlace(around: Surroundings, value: string, produced: bool, field: string)
    requires field == if produced then "evidence_produced" else "missing_evidence"
    ensures AllAt(EvidenceFinding(around, value, produced, field), if produced then 11 else 12)
  {
    EntryShape(around, value, produced, field);
    assert "evidence_produced"[0] != "missing_evidence"[0];
  }

  lemma {:induction false} ListedPlace(around: Surroundings, values: seq<string>, produced: bool, field: string)
    requires field == if produced then "evidence_produced" else "missing_evidence"
    ensures AllAt(ListedEvidence(around, values, produced, field), if produced then 11 else 12)
  {
    if |values| > 0 {
      var init, last := values[..|values| - 1], values[|values| - 1];
      ListedPlace(around, init, produced, field);
      EntryPlace(around, last, produced, field);
      AllAtAppend(ListedEvidence(around, init, produced, field), EvidenceFinding(around, last, produced, field),
                  if produced then 11 else 12);
    }
  }

  ghost predicate PlacedFrom(parts: seq<seq<Finding>>, n: nat) {
    forall k :: 0 <= k < |parts| ==> AllAt(parts[k], n + k)
  }

  lemma PlacedAppend(a: seq<seq<Finding>>, b: seq<seq<Finding>>, n: nat)
    requires PlacedFrom(a, n) && PlacedFrom(b, n + |a|)
    ensures PlacedFrom(a + b, n)
  {
    forall k | 0 <= k < |a + b| ensures AllAt((a + b)[k], n + k) {
      if k >= |a| {
        assert AllAt(b[k - |a|], n + |a| + (k - |a|));
      }
    }
  }

  lemma PlacedFive(a: seq<Finding>, b: seq<Finding>, c: seq<Finding>, d: seq<Finding>, e: seq<Finding>, n: nat)
    requires AllAt(a, n) && AllAt(b, n + 1) && AllAt(c, n + 2) && AllAt(d, n + 3) && AllAt(e, n + 4)
    ensures PlacedFrom([a, b], n) && PlacedFrom([a, b, c], n) && PlacedFrom([a, b, c, d], n) && PlacedFrom([a, b, c, d, e], n)
  { }

  lemma EachPlace(code: Code, names: seq<string>, field: string, k: nat)
    requires Place(Finding(code, "", field)) == k && code != EvidencePathInvalid && !AboutPaths(code)
    ensures AllAt(Each(code, names, field), k)
  { }

  lemma IdentityPlaced(b: Binding)
    ensures PlacedFrom(IdentityParts(b), 0)
  { }

  lemma DeclaredPlaced(b: Binding)
    ensures AllAt(DeclaredFindings(b.task, b.handoff.changedPaths, "changed_paths"), 2)
    ensures AllAt(DeclaredFindings(b.task, b.handoff.deletedPaths, "deleted_paths"), 3)
  {
    DeclaredPlace(b.task, b.handoff.changedPaths, "changed_paths");
    DeclaredPlace(b.task, b.handoff.deletedPaths, "deleted_paths");
    assert "changed_paths"[0] != "deleted_paths"[0];
  }

  lemma ContradictionsPlaced(names: seq<string>)
    ensures AllAt(Each(PathStateContradiction, names, "deleted_paths"), 4)
  {
    EachPlace(PathStateContradiction, names, "deleted_paths", 4);
  }

  lemma DeletionPlaced(b: Binding)
    ensures AllAt(Deletion(b.task, b.handoff), 5)
  { }

  lemma PathsPlaced(b: Binding)
    ensures PlacedFrom(PathParts(b), 2)
  {
    DeclaredPlaced(b);
    ContradictionsPlaced(SortedTexts(Contradictions(b.handoff)));
    DeletionPlaced(b);
    PlacedFive(DeclaredFindings(b.task, b.handoff.changedPaths, "changed_paths"),
               DeclaredFindings(b.task, b.handoff.deletedPaths, "deleted_paths"),
               Each(PathStateContradiction, SortedTexts(Contradictions(b.handoff)), "deleted_paths"),
               Deletion(b.task, b.handoff), [], 2);
  }

  lemma ClaimsPlaced(b: Binding)
    ensures PlacedFrom(ClaimParts(b), 6)
  {
    EachPlace(ClaimNotDeclared, SortedTexts(Elements(b.handoff.claimsAddressed) - Elements(b.task.claims)),
              "claims_addressed", 6);
    EachPlace(ClaimNotAddressed, SortedTexts(Elements(b.task.claims) - Elements(b.handoff.claimsAddressed)),
              "claims_addressed", 7);
  }

  lemma ComparedPlaced(doubled: seq<string>, unaccounted: seq<string>, unexpected: seq<string>)
    ensures AllAt(Each(EvidenceStateContradiction, doubled, "missing_evidence"), 8)
    ensures AllAt(Each(ExpectedEvidenceUnaccounted, unaccounted, "evidence_produced"), 9)
    ensures AllAt(Each(UnexpectedMissingEvidence, unexpected, "missing_evidence"), 10)
  {
    EachPlace(EvidenceStateContradiction, doubled, "missing_evidence", 8);
    EachPlace(ExpectedEvidenceUnaccounted, unaccounted, "evidence_produced", 9);
    EachPlace(UnexpectedMissingEvidence, unexpected, "missing_evidence", 10);
  }

  lemma EvidencePlaced(b: Binding)
    ensures PlacedFrom(EvidenceParts(b), 8)
  {
    ComparedPlaced(SortedTexts(Doubled(b.handoff)), SortedTexts(Unaccounted(b.task, b.handoff)),
                   SortedTexts(Unexpected(b.task, b.handoff)));
    ListedPlace(b.around, b.handoff.evidenceProduced, true, "evidence_produced");
    ListedPlace(b.around, b.handoff.missingEvidence, false, "missing_evidence");
    PlacedFive(Each(EvidenceStateContradiction, SortedTexts(Doubled(b.handoff)), "missing_evidence"),
               Each(ExpectedEvidenceUnaccounted, SortedTexts(Unaccounted(b.task, b.handoff)), "evidence_produced"),
               Each(UnexpectedMissingEvidence, SortedTexts(Unexpected(b.task, b.handoff)), "missing_evidence"),
               ListedEvidence(b.around, b.handoff.evidenceProduced, true, "evidence_produced"),
               ListedEvidence(b.around, b.handoff.missingEvidence, false, "missing_evidence"), 8);
  }

  lemma RecordedPlaced(b: Binding)
    ensures AllAt(RepeatFindings(b.handoff.results), 13)
    ensures AllAt(Each(ValidationResultMissing, SortedTexts(NotRecorded(b.task, b.handoff)), "validation_results"), 14)
  {
    RepeatsAreRepeated(b.handoff.results);
    EachPlace(ValidationResultMissing, SortedTexts(NotRecorded(b.task, b.handoff)), "validation_results", 14);
  }

  lemma OutcomePlaced(b: Binding)
    ensures AllAt(OutcomeFindings(b.task, b.handoff), 15)
  {
    OutcomeMeans(b.task, b.handoff);
  }

  lemma ResultsPlaced(b: Binding)
    ensures PlacedFrom(ResultParts(b), 13)
  {
    RecordedPlaced(b);
    OutcomePlaced(b);
    PlacedFive(RepeatFindings(b.handoff.results),
               Each(ValidationResultMissing, SortedTexts(NotRecorded(b.task, b.handoff)), "validation_results"),
               OutcomeFindings(b.task, b.handoff), [], [], 13);
  }

  lemma AllPlaced(a: seq<seq<Finding>>, b: seq<seq<Finding>>, c: seq<seq<Finding>>, d: seq<seq<Finding>>,
                  e: seq<seq<Finding>>)
    requires |a| == 2 && |b| == 4 && |c| == 2 && |d| == 5
    requires PlacedFrom(a, 0) && PlacedFrom(b, 2) && PlacedFrom(c, 6) && PlacedFrom(d, 8) && PlacedFrom(e, 13)
    ensures Placed(a + b + c + d + e)
  {
    PlacedAppend(a, b, 0);
    PlacedAppend(a + b, c, 0);
    PlacedAppend(a + b + c, d, 0);
    PlacedAppend(a + b + c + d, e, 0);
  }

  lemma PartsPlaced(b: Binding)
    ensures Placed(Parts(b))
  {
    IdentityPlaced(b);
    PathsPlaced(b);
    ClaimsPlaced(b);
    EvidencePlaced(b);
    ResultsPlaced(b);
    AllPlaced(IdentityParts(b), PathParts(b), ClaimParts(b), EvidenceParts(b), ResultParts(b));
  }

  /** The first place that findings of a code can have. */
  function HomeOf(code: Code): nat {
    Place(Finding(code, "", if code == EvidencePathInvalid then "evidence_produced" else "changed_paths"))
  }

  lemma HomeIs(code: Code)
    ensures Home(code, HomeOf(code)) && HomeOf(code) < 16
  { }

  lemma OfCodeBinding(b: Binding, code: Code)
    ensures OfCode(BindingFindings(b.around, b.task, b.handoff, b.bytes), code) ==
            OfCode(PartAt(Parts(b), HomeOf(code)), code) + OfCode(PartAt(Parts(b), HomeOf(code) + 1), code)
  {
    SectionsOfBinding(b);
    PartsPlaced(b);
    HomeIs(code);
    OfCodeFlatten(Parts(b), code, HomeOf(code));
  }

  /** The two parts in which the findings of a code are. */
  ghost function Pair(i: seq<seq<Finding>>, p: seq<seq<Finding>>, c: seq<seq<Finding>>, e: seq<seq<Finding>>,
                      r: seq<seq<Finding>>, code: Code): (seq<Finding>, seq<Finding>)
    requires |i| == 2 && |p| == 4 && |c| == 2 && |e| == 5 && |r| == 3
  {
    match code
    case TaskIdMismatch => (i[0], i[1])
    case TaskDigestMismatch => (i[1], p[0])
    case PathOutOfRepo => (p[0], p[1])
    case PathOutOfScope => (p[0], p[1])
    case ForbiddenPath => (p[0], p[1])
    case PathStateContradiction => (p[2], p[3])
    case DeleteWithoutPermission => (p[3], c[0])
    case ClaimNotDeclared => (c[0], c[1])
    case ClaimNotAddressed => (c[1], e[0])
    case EvidenceStateContradiction => (e[0], e[1])
    case ExpectedEvidenceUnaccounted => (e[1], e[2])
    case UnexpectedMissingEvidence => (e[2], e[3])
    case EvidencePathInvalid => (e[3], e[4])
    case EvidenceNotFound => (e[3], e[4])
    case ValidationResultDuplicate => (r[0], r[1])
    case ValidationResultMissing => (r[1], r[2])
    case ContradictoryOutcome => (r[2], [])
  }

  lemma PairIs(i: seq<seq<Finding>>, p: seq<seq<Finding>>, c: seq<seq<Finding>>, e: seq<seq<Finding>>,
               r: seq<seq<Finding>>, code: Code)
    requires |i| == 2 && |p| == 4 && |c| == 2 && |e| == 5 && |r| == 3
    ensures Pair(i, p, c, e, r, code) ==
            (PartAt(i + p + c + e + r, HomeOf(code)), PartAt(i + p + c + e + r, HomeOf(code) + 1))
  { }

  ghost function At(b: Binding, code: Code): (seq<Finding>, seq<Finding>) {
    Pair(IdentityParts(b), PathParts(b), ClaimParts(b), EvidenceParts(b), ResultParts(b), code)
  }

  lemma OfCodeAt(b: Binding, code: Code)
    ensures OfCode(BindingFindings(b.around, b.task, b.handoff, b.bytes), code) ==
            OfCode(At(b, code).0, code) + OfCode(At(b, code).1, code)
  {
    OfCodeBinding(b, code);
    PairIs(IdentityParts(b), PathParts(b), ClaimParts(b), EvidenceParts(b), ResultParts(b), code);
  }

  // ----- every finding of a binding -----

  /** What the findings of one code are, for all seventeen codes. */
  ghost predicate Told(b: Binding, code: Code, fs: seq<Finding>) {
    match code
    case TaskIdMismatch => fs == if b.handoff.taskId != b.task.id then [Finding(code, "", "task_id")] else []
    case TaskDigestMismatch =>
      fs == if b.handoff.digest != b.around.sha256(b.bytes) then [Finding(code, "", "task_contract_sha256")] else []
    case PathOutOfRepo => fs == WrongPaths(b, code)
    case PathOutOfScope => fs == WrongPaths(b, code)
    case ForbiddenPath => fs == WrongPaths(b, code)
    case DeleteWithoutPermission =>
      fs == if !b.task.deleteAllowed && exists x :: Lists(b.handoff.deletedPaths, x)
            then [Finding(code, "", "deleted_paths")] else []
    case EvidencePathInvalid =>
      fs == WrongEntries(b.around, b.task, code, b.handoff.evidenceProduced, "evidence_produced")
            + WrongEntries(b.around, b.task, code, b.handoff.missingEvidence, "missing_evidence")
    case EvidenceNotFound => fs == WrongEntries(b.around, b.task, code, b.handoff.evidenceProduced, "evidence_produced")
    case ValidationResultDuplicate => fs == RepeatedResults(b.handoff.results)
    case ContradictoryOutcome => OutcomeContradicted(fs, b.task, b.handoff)
    case _ => OneEach(fs, b.task, b.handoff, code)
  }

  ghost function WrongPaths(b: Binding, code: Code): seq<Finding> {
    WrongEntries(b.around, b.task, code, b.handoff.changedPaths, "changed_paths")
    + WrongEntries(b.around, b.task, code, b.handoff.deletedPaths, "deleted_paths")
  }

  // What the parts of a code hold.
  lemma IdentityTold(b: Binding, code: Code)
    requires code == TaskIdMismatch || code == TaskDigestMismatch
    ensures Told(b, code, OfCode(At(b, code).0, code) + OfCode(At(b, code).1, code))
  {
    SingleOfCode(Finding(TaskIdMismatch, "", "task_id"), code);
    SingleOfCode(Finding(TaskDigestMismatch, "", "task_contract_sha256"), code);
    DeclaredOfCode(b.around, b.task, b.handoff.changedPaths, "changed_paths", code);
  }

  /** A group of one code, all of whose findings are about these names. */
  lemma GroupOfCode(task: Task, handoff: Handoff, group: Code, names: set<string>, code: Code)
    requires forall x :: x in names <==> Amiss(task, handoff, group, x)
    ensures code == group ==> OneEach(OfCode(Each(group, SortedTexts(names), FieldOf(group)), code), task, handoff, code)
    ensures code != group ==> OfCode(Each(group, SortedTexts(names), FieldOf(group)), code) == []
  {
    EachOfCode(group, SortedTexts(names), FieldOf(group), code);
    EachIsOneEach(task, handoff, group, names);
  }

  lemma ContradictionMeans(task: Task, handoff: Handoff, x: string)
    ensures x in Contradictions(handoff) <==> Amiss(task, handoff, PathStateContradiction, x)
  {
    FileSetLists(handoff.changedPaths, x);
    FileSetLists(handoff.deletedPaths, x);
  }

  lemma ContradictionsOfCode(b: Binding, code: Code)
    ensures code == PathStateContradiction ==> OneEach(OfCode(PathParts(b)[2], code), b.task, b.handoff, code)
    ensures code != PathStateContradiction ==> OfCode(PathParts(b)[2], code) == []
  {
    forall x ensures x in Contradictions(b.handoff) <==> Amiss(b.task, b.handoff, PathStateContradiction, x) {
      ContradictionMeans(b.task, b.handoff, x);
    }
    GroupOfCode(b.task, b.handoff, PathStateContradiction, Contradictions(b.handoff), code);
  }

  lemma DeletionIff(values: seq<string>)
    ensures FileSet(values) != {} <==> exists x :: Lists(values, x)
  {
    forall x ensures x in FileSet(values) <==> Lists(values, x) {
      FileSetLists(values, x);
    }
    if FileSet(values) != {} {
      var x :| x in FileSet(values);
      assert Lists(values, x);
    }
  }

  lemma DeletionOfCode(b: Binding, code: Code)
    ensures OfCode(PathParts(b)[3], code) ==
            if code == DeleteWithoutPermission && !b.task.deleteAllowed && exists x :: Lists(b.handoff.deletedPaths, x)
            then [Finding(code, "", "deleted_paths")] else []
  {
    DeletionIff(b.handoff.deletedPaths);
    SingleOfCode(Finding(DeleteWithoutPermission, "", "deleted_paths"), code);
  }

  lemma ClaimsMean(task: Task, handoff: Handoff)
    ensures forall x :: x in Elements(handoff.claimsAddressed) - Elements(task.claims) <==>
            Amiss(task, handoff, ClaimNotDeclared, x)
    ensures forall x :: x in Elements(task.claims) - Elements(handoff.claimsAddressed) <==>
            Amiss(task, handoff, ClaimNotAddressed, x)
  { }

  lemma UndeclaredOfCode(b: Binding, code: Code)
    ensures code == ClaimNotDeclared ==> OneEach(OfCode(ClaimParts(b)[0], code), b.task, b.handoff, code)
    ensures code != ClaimNotDeclared ==> OfCode(ClaimParts(b)[0], code) == []
  {
    ClaimsMean(b.task, b.handoff);
    GroupOfCode(b.task, b.handoff, ClaimNotDeclared, Elements(b.handoff.claimsAddressed) - Elements(b.task.claims),
                code);
  }

  lemma UnaddressedOfCode(b: Binding, code: Code)
    ensures code == ClaimNotAddressed ==> OneEach(OfCode(ClaimParts(b)[1], code), b.task, b.handoff, code)
    ensures code != ClaimNotAddressed ==> OfCode(ClaimParts(b)[1], code) == []
  {
    ClaimsMean(b.task, b.handoff);
    GroupOfCode(b.task, b.handoff, ClaimNotAddressed, Elements(b.task.claims) - Elements(b.handoff.claimsAddressed),
                code);
  }

  lemma DoubledMeans(task: Task, handoff: Handoff, x: string)
    ensures x in Doubled(handoff) <==> Amiss(task, handoff, EvidenceStateContradiction, x)
  {
    FileSetLists(handoff.evidenceProduced, x);
    FileSetLists(handoff.missingEvidence, x);
  }

  lemma DoubledOfCode(b: Binding, code: Code)
    ensures code == EvidenceStateContradiction ==> OneEach(OfCode(EvidenceParts(b)[0], code), b.task, b.handoff, code)
    ensures code != EvidenceStateContradiction ==> OfCode(EvidenceParts(b)[0], code) == []
  {
    forall x ensures x in Doubled(b.handoff) <==> Amiss(b.task, b.handoff, EvidenceStateContradiction, x) {
      DoubledMeans(b.task, b.handoff, x);
    }
    GroupOfCode(b.task, b.handoff, EvidenceStateContradiction, Doubled(b.handoff), code);
  }

  lemma UnaccountedMeans(task: Task, handoff: Handoff, x: string)
    ensures x in Unaccounted(task, handoff) <==> Amiss(task, handoff, ExpectedEvidenceUnaccounted, x)
  {
    FileSetLists(task.expectedEvidence, x);
    FileSetLists(handoff.evidenceProduced, x);
    FileSetLists(handoff.missingEvidence, x);
  }

  lemma UnaccountedOfCode(b: Binding, code: Code)
    ensures code == ExpectedEvidenceUnaccounted ==> OneEach(OfCode(EvidenceParts(b)[1], code), b.task, b.handoff, code)
    ensures code != ExpectedEvidenceUnaccounted ==> OfCode(EvidenceParts(b)[1], code) == []
  {
    forall x ensures x in Unaccounted(b.task, b.handoff) <==> Amiss(b.task, b.handoff, ExpectedEvidenceUnaccounted, x) {
      UnaccountedMeans(b.task, b.handoff, x);
    }
    GroupOfCode(b.task, b.handoff, ExpectedEvidenceUnaccounted, Unaccounted(b.task, b.handoff), code);
  }

  lemma UnexpectedMeans(task: Task, handoff: Handoff, x: string)
    ensures x in Unexpected(task, handoff) <==> Amiss(task, handoff, UnexpectedMissingEvidence, x)
  {
    FileSetLists(task.expectedEvidence, x);
    FileSetLists(handoff.missingEvidence, x);
  }

  lemma UnexpectedOfCode(b: Binding, code: Code)
    ensures code == UnexpectedMissingEvidence ==> OneEach(OfCode(EvidenceParts(b)[2], code), b.task, b.handoff, code)
    ensures code != UnexpectedMissingEvidence ==> OfCode(EvidenceParts(b)[2], code) == []
  {
    forall x ensures x in Unexpected(b.task, b.handoff) <==> Amiss(b.task, b.handoff, UnexpectedMissingEvidence, x) {
      UnexpectedMeans(b.task, b.handoff, x);
    }
    GroupOfCode(b.task, b.handoff, UnexpectedMissingEvidence, Unexpected(b.task, b.handoff), code);
  }

  lemma UniformOfCode(fs: seq<Finding>, group: Code, code: Code)
    requires forall i :: 0 <= i < |fs| ==> fs[i].code == group
    ensures OfCode(fs, code) == if code == group then fs else []
  {
    if code == group {
      AllOfCode(fs, code);
    } else {
      NoneOfCode(fs, code);
    }
  }

  lemma RepeatsOfCode(b: Binding, code: Code)
    ensures OfCode(ResultParts(b)[0], code) ==
            if code == ValidationResultDuplicate then RepeatedResults(b.handoff.results) else []
  {
    RepeatsAreRepeated(b.handoff.results);
    UniformOfCode(RepeatFindings(b.handoff.results), ValidationResultDuplicate, code);
  }

  lemma UnrecordedOfCode(b: Binding, code: Code)
    ensures code == ValidationResultMissing ==> OneEach(OfCode(ResultParts(b)[1], code), b.task, b.handoff, code)
    ensures code != ValidationResultMissing ==> OfCode(ResultParts(b)[1], code) == []
  {
    forall x ensures x in NotRecorded(b.task, b.handoff) <==> Amiss(b.task, b.handoff, ValidationResultMissing, x) {
      NotRecordedMeans(b.task, b.handoff, x);
    }
    GroupOfCode(b.task, b.handoff, ValidationResultMissing, NotRecorded(b.task, b.handoff), code);
  }

  lemma OutcomeOfCode(b: Binding, code: Code)
    ensures code == ContradictoryOutcome ==> OutcomeContradicted(OfCode(ResultParts(b)[2], code), b.task, b.handoff)
    ensures code != ContradictoryOutcome ==> OfCode(ResultParts(b)[2], code) == []
  {
    OutcomeMeans(b.task, b.handoff);
    UniformOfCode(OutcomeFindings(b.task, b.handoff), ContradictoryOutcome, code);
  }

  lemma ChangedOfCode(b: Binding, code: Code)
    ensures OfCode(PathParts(b)[0], code) ==
            if AboutPaths(code) then WrongEntries(b.around, b.task, code, b.handoff.changedPaths, "changed_paths") else []
  {
    DeclaredOfCode(b.around, b.task, b.handoff.changedPaths, "changed_paths", code);
  }

  lemma DeletedOfCode(b: Binding, code: Code)
    ensures OfCode(PathParts(b)[1], code) ==
            if AboutPaths(code) then WrongEntries(b.around, b.task, code, b.handoff.deletedPaths, "deleted_paths") else []
  {
    DeclaredOfCode(b.around, b.task, b.handoff.deletedPaths, "deleted_paths", code);
  }

  lemma ProducedOfCode(b: Binding, code: Code)
    ensures OfCode(EvidenceParts(b)[3], code) ==
            if code == EvidencePathInvalid || code == EvidenceNotFound
            then WrongEntries(b.around, b.task, code, b.handoff.evidenceProduced, "evidence_produced") else []
  {
    ListedOfCode(b.around, b.task, b.handoff.evidenceProduced, true, "evidence_produced", code);
  }

  lemma MissingOfCode(b: Binding, code: Code)
    ensures OfCode(EvidenceParts(b)[4], code) ==
            if code == EvidencePathInvalid
            then WrongEntries(b.around, b.task, code, b.handoff.missingEvidence, "missing_evidence") else []
  {
    ListedOfCode(b.around, b.task, b.handoff.missingEvidence, false, "missing_evidence", code);
  }

  lemma PathsTold(b: Binding, code: Code)
    requires AboutPaths(code)
    ensures Told(b, code, OfCode(PathParts(b)[0], code) + OfCode(PathParts(b)[1], code))
  {
    ChangedOfCode(b, code);
    DeletedOfCode(b, code);
  }

  lemma ListedTold(b: Binding, code: Code)
    requires code == EvidencePathInvalid || code == EvidenceNotFound
    ensures Told(b, code, OfCode(EvidenceParts(b)[3], code) + OfCode(EvidenceParts(b)[4], code))
  {
    ProducedOfCode(b, code);
    MissingOfCode(b, code);
  }

  lemma DeletionTold(b: Binding)
    ensures Told(b, DeleteWithoutPermission,
                 OfCode(PathParts(b)[3], DeleteWithoutPermission) + OfCode(ClaimParts(b)[0], DeleteWithoutPermission))
  {
    DeletionOfCode(b, DeleteWithoutPermission);
    UndeclaredOfCode(b, DeleteWithoutPermission);
  }

  lemma RepeatsTold(b: Binding)
    ensures Told(b, ValidationResultDuplicate,
                 OfCode(ResultParts(b)[0], ValidationResultDuplicate) + OfCode(ResultParts(b)[1], ValidationResultDuplicate))
  {
    RepeatsOfCode(b, ValidationResultDuplicate);
    UnrecordedOfCode(b, ValidationResultDuplicate);
  }

  lemma OutcomeTold(b: Binding)
    ensures Told(b, ContradictoryOutcome, OfCode(ResultParts(b)[2], ContradictoryOutcome) + OfCode([], ContradictoryOutcome))
  {
    OutcomeOfCode(b, ContradictoryOutcome);
    assert OfCode(ResultParts(b)[2], ContradictoryOutcome) + [] == OfCode(ResultParts(b)[2], ContradictoryOutcome);
  }

  lemma TellOneEach(b: Binding, code: Code, one: seq<Finding>, two: seq<Finding>)
    requires AtMostOnce(code) && OneEach(one, b.task, b.handoff, code) && two == []
    ensures Told(b, code, one + two)
  {
    assert one + two == one;
  }

  lemma PathContradictionTold(b: Binding)
    ensures Told(b, PathStateContradiction,
                 OfCode(PathParts(b)[2], PathStateContradiction) + OfCode(PathParts(b)[3], PathStateContradiction))
  {
    var code := PathStateContradiction;
    ContradictionsOfCode(b, code);
    DeletionOfCode(b, code);
    TellOneEach(b, code, OfCode(PathParts(b)[2], code), OfCode(PathParts(b)[3], code));
  }

  lemma UndeclaredTold(b: Binding)
    ensures Told(b, ClaimNotDeclared,
                 OfCode(ClaimParts(b)[0], ClaimNotDeclared) + OfCode(ClaimParts(b)[1], ClaimNotDeclared))
  {
    var code := ClaimNotDeclared;
    UndeclaredOfCode(b, code);
    UnaddressedOfCode(b, code);
    TellOneEach(b, code, OfCode(ClaimParts(b)[0], code), OfCode(ClaimParts(b)[1], code));
  }

  lemma UnaddressedTold(b: Binding)
    ensures Told(b, ClaimNotAddressed,
                 OfCode(ClaimParts(b)[1], ClaimNotAddressed) + OfCode(EvidenceParts(b)[0], ClaimNotAddressed))
  {
    var code := ClaimNotAddressed;
    UnaddressedOfCode(b, code);
    DoubledOfCode(b, code);
    TellOneEach(b, code, OfCode(ClaimParts(b)[1], code), OfCode(EvidenceParts(b)[0], code));
  }

  lemma DoubledTold(b: Binding)
    ensures Told(b, EvidenceStateContradiction,
                 OfCode(EvidenceParts(b)[0], EvidenceStateContradiction)
                 + OfCode(EvidenceParts(b)[1], EvidenceStateContradiction))
  {
    var code := EvidenceStateContradiction;
    DoubledOfCode(b, code);
    UnaccountedOfCode(b, code);
    TellOneEach(b, code, OfCode(EvidenceParts(b)[0], code), OfCode(EvidenceParts(b)[1], code));
  }

  lemma UnaccountedTold(b: Binding)
    ensures Told(b, ExpectedEvidenceUnaccounted,
                 OfCode(EvidenceParts(b)[1], ExpectedEvidenceUnaccounted)
                 + OfCode(EvidenceParts(b)[2], ExpectedEvidenceUnaccounted))
  {
    var code := ExpectedEvidenceUnaccounted;
    UnaccountedOfCode(b, code);
    UnexpectedOfCode(b, code);
    TellOneEach(b, code, OfCode(EvidenceParts(b)[1], code), OfCode(EvidenceParts(b)[2], code));
  }

  lemma UnexpectedTold(b: Binding)
    ensures Told(b, UnexpectedMissingEvidence,
                 OfCode(EvidenceParts(b)[2], UnexpectedMissingEvidence)
                 + OfCode(EvidenceParts(b)[3], UnexpectedMissingEvidence))
  {
    var code := UnexpectedMissingEvidence;
    UnexpectedOfCode(b, code);
    ProducedOfCode(b, code);
    TellOneEach(b, code, OfCode(EvidenceParts(b)[2], code), OfCode(EvidenceParts(b)[3], code));
  }

  lemma UnrecordedTold(b: Binding)
    ensures Told(b, ValidationResultMissing,
                 OfCode(ResultParts(b)[1], ValidationResultMissing) + OfCode(ResultParts(b)[2], ValidationResultMissing))
  {
    var code := ValidationResultMissing;
    UnrecordedOfCode(b, code);
    OutcomeOfCode(b, code);
    TellOneEach(b, code, OfCode(ResultParts(b)[1], code), OfCode(ResultParts(b)[2], code));
  }

  lemma PartsTold(b: Binding, code: Code)
    ensures Told(b, code, OfCode(At(b, code).0, code) + OfCode(At(b, code).1, code))
  {
    match code
    case TaskIdMismatch => IdentityTold(b, code);
    case TaskDigestMismatch => IdentityTold(b, code);
    case PathOutOfRepo => PathsTold(b, code);
    case PathOutOfScope => PathsTold(b, code);
    case ForbiddenPath => PathsTold(b, code);
    case PathStateContradiction => PathContradictionTold(b);
    case DeleteWithoutPermission => DeletionTold(b);
    case ClaimNotDeclared => UndeclaredTold(b);
    case ClaimNotAddressed => UnaddressedTold(b);
    case EvidenceStateContradiction => DoubledTold(b);
    case ExpectedEvidenceUnaccounted => UnaccountedTold(b);
    case UnexpectedMissingEvidence => UnexpectedTold(b);
    case EvidencePathInvalid => ListedTold(b, code);
    case EvidenceNotFound => ListedTold(b, code);
    case ValidationResultDuplicate => RepeatsTold(b);
    case ValidationResultMissing => UnrecordedTold(b);
    case ContradictoryOutcome => OutcomeTold(b);
  }

  /** The findings of each code are about what is wrong in that way: all of it, in the order of the lists or of the names. */
  lemma BindingMeans(around: Surroundings, task: Task, handoff: Handoff, bytes: Bytes, code: Code)
    ensures Told(Binding(around, task, handoff, bytes), code, OfCode(BindingFindings(around, task, handoff, bytes), code))
  {
    var b := Binding(around, task, handoff, bytes);
    OfCodeAt(b, code);
    PartsTold(b, code);
  }

  /** And the report goes through the codes and fields in the order of their places. */
  lemma BindingInOrder(around: Surroundings, task: Task, handoff: Handoff, bytes: Bytes)
    ensures var fs := BindingFindings(around, task, handoff, bytes);
            forall i, j :: 0 <= i < j < |fs| ==> Place(fs[i]) <= Place(fs[j])
  {
    var b := Binding(around, task, handoff, bytes);
    SectionsOfBinding(b);
    PartsPlaced(b);
    PlacedInOrder(Parts(b));
  }
}

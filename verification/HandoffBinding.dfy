/** validate_handoff: the binding of a handoff to its task, and the handoff that run_task builds. */
module HandoffBinding {
  import opened Bytes
  import opened Text
  import opened Ordering
  import opened PathScope

  /** The parts of a schema-valid task that the binding looks at. */
  datatype Task = Task(id: string, allowedPaths: seq<string>, forbiddenPaths: seq<string>, deleteAllowed: bool,
                       claims: seq<string>, expectedEvidence: seq<string>, validationCommands: seq<string>)

  datatype Result = Result(command: string, status: string)

  datatype Handoff = Handoff(taskId: string, digest: string, outcome: string, changedPaths: seq<string>,
                             deletedPaths: seq<string>,
                             claimsAddressed: seq<string>, evidenceProduced: seq<string>, missingEvidence: seq<string>,
                             results: seq<Result>, blockers: seq<string>, residualGaps: seq<string>)

  datatype Code =
    | TaskIdMismatch | TaskDigestMismatch
    | PathOutOfRepo | PathOutOfScope | ForbiddenPath | PathStateContradiction | DeleteWithoutPermission
    | ClaimNotDeclared | ClaimNotAddressed
    | EvidenceStateContradiction | ExpectedEvidenceUnaccounted | UnexpectedMissingEvidence
    | EvidencePathInvalid | EvidenceNotFound
    | ValidationResultDuplicate | ValidationResultMissing | ContradictoryOutcome

  /** A finding: its code, what it is about, and the field it names. */
  datatype Finding = Finding(code: Code, subject: string, field: string)

  /** What lies outside the handoff: the hash, and which normalised paths are files inside the repository. */
  datatype Surroundings = Surroundings(sha256: Bytes -> string, isFile: string -> bool)

  function FileSet(values: seq<string>): set<string> {
    set v | v in values && NormalizeRepoPath(v, false).Some? :: NormalizeRepoPath(v, false).value
  }

  function Elements(values: seq<string>): set<string> {
    set v | v in values
  }

  /** One finding per name, in the order of the names. */
  function Each(code: Code, names: seq<string>, field: string): (r: seq<Finding>)
    ensures |r| == |names|
  {
    seq(|names|, i requires 0 <= i < |names| => Finding(code, names[i], field))
  }

  // ----- paths -----

  predicate InSomeScope(path: string, scopes: seq<string>) {
    exists i :: 0 <= i < |scopes| && PathMatchesScope(path, scopes[i])
  }

  function PathFinding(task: Task, path: string, field: string): seq<Finding> {
    match NormalizeRepoPath(path, false)
    case None => [Finding(PathOutOfRepo, path, field)]
    case Some(p) =>
      (if InSomeScope(p, task.allowedPaths) then [] else [Finding(PathOutOfScope, path, field)]) +
      (if InSomeScope(p, task.forbiddenPaths) then [Finding(ForbiddenPath, path, field)] else [])
  }

  function DeclaredFindings(task: Task, paths: seq<string>, field: string): seq<Finding> {
    if |paths| == 0 then []
    else DeclaredFindings(task, paths[..|paths| - 1], field) + PathFinding(task, paths[|paths| - 1], field)
  }

  ghost function PathFindings(task: Task, handoff: Handoff): seq<Finding> {
    DeclaredFindings(task, handoff.changedPaths, "changed_paths") +
    DeclaredFindings(task, handoff.deletedPaths, "deleted_paths") +
    Each(PathStateContradiction, SortedTexts(FileSet(handoff.changedPaths) * FileSet(handoff.deletedPaths)),
         "deleted_paths") +
    if FileSet(handoff.deletedPaths) != {} && !task.deleteAllowed
    then [Finding(DeleteWithoutPermission, "", "deleted_paths")] else []
  }

  method DeclaredPart(task: Task, paths: seq<string>, field: string) returns (findings: seq<Finding>)
    ensures findings == DeclaredFindings(task, paths, field)
  {
    findings := [];
    for i := 0 to |paths|
      invariant findings == DeclaredFindings(task, paths[..i], field)
    {
      assert paths[..i + 1][..i] == paths[..i];
      findings := findings + PathFinding(task, paths[i], field);
    }
    assert paths[..|paths|] == paths;
  }

  method EachPart(code: Code, names: set<string>, field: string) returns (findings: seq<Finding>)
    ensures findings == Each(code, SortedTexts(names), field)
  {
    var sorted := SortTexts(names);
    findings := EachOf(code, sorted, field);
  }

  method EachOf(code: Code, names: seq<string>, field: string) returns (findings: seq<Finding>)
    ensures findings == Each(code, names, field)
  {
    findings := [];
    for i := 0 to |names|
      invariant |findings| == i && forall j :: 0 <= j < i ==> findings[j] == Finding(code, names[j], field)
    {
      findings := findings + [Finding(code, names[i], field)];
    }
  }

  method ValidatePaths(task: Task, handoff: Handoff) returns (findings: seq<Finding>)
    ensures findings == PathFindings(task, handoff)
  {
    var changed, deleted := FileSet(handoff.changedPaths), FileSet(handoff.deletedPaths);
    var ofChanged := DeclaredPart(task, handoff.changedPaths, "changed_paths");
    var ofDeleted := DeclaredPart(task, handoff.deletedPaths, "deleted_paths");
    var contradictions := EachPart(PathStateContradiction, changed * deleted, "deleted_paths");
    findings := ofChanged + ofDeleted + contradictions
                + if deleted != {} && !task.deleteAllowed
                  then [Finding(DeleteWithoutPermission, "", "deleted_paths")] else [];
  }

  // ----- claims -----

  ghost function ClaimFindings(task: Task, handoff: Handoff): seq<Finding> {
    Each(ClaimNotDeclared, SortedTexts(Elements(handoff.claimsAddressed) - Elements(task.claims)), "claims_addressed") +
    Each(ClaimNotAddressed, SortedTexts(Elements(task.claims) - Elements(handoff.claimsAddressed)), "claims_addressed")
  }

  method ValidateClaims(task: Task, handoff: Handoff) returns (findings: seq<Finding>)
    ensures findings == ClaimFindings(task, handoff)
  {
    var claims, addressed := Elements(task.claims), Elements(handoff.claimsAddressed);
    findings := EachPart(ClaimNotDeclared, addressed - claims, "claims_addressed");
    var unaddressed := EachPart(ClaimNotAddressed, claims - addressed, "claims_addressed");
    findings := findings + unaddressed;
  }

  // ----- evidence -----

  function EvidenceFinding(around: Surroundings, value: string, produced: bool, field: string): seq<Finding> {
    match NormalizeRepoPath(value, false)
    case None => [Finding(EvidencePathInvalid, value, field)]
    case Some(p) => if produced && !around.isFile(p) then [Finding(EvidenceNotFound, value, field)] else []
  }

  function ListedEvidence(around: Surroundings, values: seq<string>, produced: bool, field: string): seq<Finding> {
    if |values| == 0 then []
    else
      ListedEvidence(around, values[..|values| - 1], produced, field)
      + EvidenceFinding(around, values[|values| - 1], produced, field)
  }

  ghost function EvidenceFindings(around: Surroundings, task: Task, handoff: Handoff): seq<Finding> {
    var expected, produced, missing :=
      FileSet(task.expectedEvidence), FileSet(handoff.evidenceProduced), FileSet(handoff.missingEvidence);
    Each(EvidenceStateContradiction, SortedTexts(produced * missing), "missing_evidence") +
    Each(ExpectedEvidenceUnaccounted, SortedTexts(expected - produced - missing), "evidence_produced") +
    Each(UnexpectedMissingEvidence, SortedTexts(missing - expected), "missing_evidence") +
    ListedEvidence(around, handoff.evidenceProduced, true, "evidence_produced") +
    ListedEvidence(around, handoff.missingEvidence, false, "missing_evidence")
  }

  method ListedPart(around: Surroundings, values: seq<string>, produced: bool, field: string)
    returns (findings: seq<Finding>)
    ensures findings == ListedEvidence(around, values, produced, field)
  {
    findings := [];
    for i := 0 to |values|
      invariant findings == ListedEvidence(around, values[..i], produced, field)
    {
      assert values[..i + 1][..i] == values[..i];
      findings := findings + EvidenceFinding(around, values[i], produced, field);
    }
    assert values[..|values|] == values;
  }

  method ValidateEvidence(around: Surroundings, task: Task, handoff: Handoff) returns (findings: seq<Finding>)
    ensures findings == EvidenceFindings(around, task, handoff)
  {
    var expected, produced, missing :=
      FileSet(task.expectedEvidence), FileSet(handoff.evidenceProduced), FileSet(handoff.missingEvidence);
    var contradictions := EachPart(EvidenceStateContradiction, produced * missing, "missing_evidence");
    var unaccounted := EachPart(ExpectedEvidenceUnaccounted, expected - produced - missing, "evidence_produced");
    var unexpected := EachPart(UnexpectedMissingEvidence, missing - expected, "missing_evidence");
    var ofProduced := ListedPart(around, handoff.evidenceProduced, true, "evidence_produced");
    var ofMissing := ListedPart(around, handoff.missingEvidence, false, "missing_evidence");
    findings := contradictions + unaccounted + unexpected + ofProduced + ofMissing;
  }

  // ----- results and outcome -----

  /** The last status recorded for each command. */
  function LastStatus(results: seq<Result>): map<string, string> {
    if |results| == 0 then map[]
    else
      var last := results[|results| - 1];
      LastStatus(results[..|results| - 1])[last.command := last.status]
  }

  function ResultField(i: nat): string {
    "validation_results[" + Decimal(i) + "]"
  }

  /** One finding for each result whose command has a result before. */
  function RepeatFindings(results: seq<Result>): seq<Finding> {
    if |results| == 0 then []
    else
      var n := |results| - 1;
      RepeatFindings(results[..n]) +
      (if results[n].command in LastStatus(results[..n])
       then [Finding(ValidationResultDuplicate, results[n].command, ResultField(n))] else [])
  }

  function NotPassed(results: seq<Result>): set<string> {
    set c | c in LastStatus(results) && LastStatus(results)[c] != "passed"
  }

  function NotRecorded(task: Task, handoff: Handoff): set<string> {
    Elements(task.validationCommands) - LastStatus(handoff.results).Keys
  }

  function Contradiction(field: string): Finding {
    Finding(ContradictoryOutcome, "", field)
  }

  function OutcomeFindings(task: Task, handoff: Handoff): seq<Finding> {
    var notPassed, notRecorded := NotPassed(handoff.results), NotRecorded(task, handoff);
    if handoff.outcome == "ready_for_review" then
      (if handoff.blockers != [] || handoff.missingEvidence != [] then [Contradiction("outcome")] else []) +
      (if notPassed != {} || notRecorded != {} then [Contradiction("outcome")] else [])
    else if handoff.outcome == "blocked" && handoff.blockers == [] then
      [Contradiction("blockers")]
    else if handoff.outcome == "incomplete" && handoff.missingEvidence == [] && handoff.residualGaps == [] && notPassed == {}
            && notRecorded == {} && Elements(task.claims) - Elements(handoff.claimsAddressed) == {} then
      [Contradiction("outcome")]
    else []
  }

  ghost function ResultFindings(task: Task, handoff: Handoff): seq<Finding> {
    RepeatFindings(handoff.results) +
    Each(ValidationResultMissing, SortedTexts(NotRecorded(task, handoff)), "validation_results") +
    OutcomeFindings(task, handoff)
  }

  method RecordResults(results: seq<Result>) returns (findings: seq<Finding>, resultMap: map<string, string>)
    ensures findings == RepeatFindings(results) && resultMap == LastStatus(results)
  {
    findings, resultMap := [], map[];
    for i := 0 to |results|
      invariant findings == RepeatFindings(results[..i]) && resultMap == LastStatus(results[..i])
    {
      assert results[..i + 1][..i] == results[..i];
      if results[i].command in resultMap {
        findings := findings + [Finding(ValidationResultDuplicate, results[i].command, ResultField(i))];
      }
      resultMap := resultMap[results[i].command := results[i].status];
    }
    assert results[..|results|] == results;
  }

  method ValidateResults(task: Task, handoff: Handoff) returns (findings: seq<Finding>)
    ensures findings == ResultFindings(task, handoff)
  {
    var resultMap;
    findings, resultMap := RecordResults(handoff.results);
    var missing := Elements(task.validationCommands) - resultMap.Keys;
    var unrecorded := EachPart(ValidationResultMissing, missing, "validation_results");
    var notPassed := set c | c in resultMap && resultMap[c] != "passed";
    var unaddressed := Elements(task.claims) - Elements(handoff.claimsAddressed);
    var outcome := [];
    if handoff.outcome == "ready_for_review" {
      if handoff.blockers != [] || handoff.missingEvidence != [] {
        outcome := outcome + [Contradiction("outcome")];
      }
      if notPassed != {} || missing != {} {
        outcome := outcome + [Contradiction("outcome")];
      }
    } else if handoff.outcome == "blocked" && handoff.blockers == [] {
      outcome := [Contradiction("blockers")];
    } else if handoff.outcome == "incomplete" && handoff.missingEvidence == [] && handoff.residualGaps == []
              && notPassed == {} && missing == {} && unaddressed == {} {
      outcome := [Contradiction("outcome")];
    }
    findings := findings + unrecorded + outcome;
  }

  // ----- the binding -----

  function IdentityFindings(around: Surroundings, task: Task, handoff: Handoff, taskBytes: Bytes): seq<Finding> {
    (if handoff.taskId != task.id then [Finding(TaskIdMismatch, "", "task_id")] else []) +
    (if handoff.digest != around.sha256(taskBytes) then [Finding(TaskDigestMismatch, "", "task_contract_sha256")] else [])
  }

  ghost function BindingFindings(around: Surroundings, task: Task, handoff: Handoff, taskBytes: Bytes): seq<Finding> {
    IdentityFindings(around, task, handoff, taskBytes) + PathFindings(task, handoff) + ClaimFindings(task, handoff)
    + EvidenceFindings(around, task, handoff) + ResultFindings(task, handoff)
  }

  method ValidateBinding(around: Surroundings, task: Task, handoff: Handoff, taskBytes: Bytes)
    returns (findings: seq<Finding>)
    ensures findings == BindingFindings(around, task, handoff, taskBytes)
  {
    findings := IdentityFindings(around, task, handoff, taskBytes);
    var paths := ValidatePaths(task, handoff);
    var claims := ValidateClaims(task, handoff);
    var evidence := ValidateEvidence(around, task, handoff);
    var results := ValidateResults(task, handoff);
    findings := findings + paths + claims + evidence + results;
  }
}

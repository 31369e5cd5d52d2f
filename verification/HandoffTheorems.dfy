/** What a handoff without findings promises, and what binding finds in the handoff of a dry run. */
module HandoffTheorems {
  import opened Bytes
  import opened Wrappers
  import opened Ordering
  import opened PathScope
  import opened HandoffBinding

  // ----- a clean binding -----

  predicate PathAllowed(task: Task, path: string) {
    && NormalizeRepoPath(path, false).Some?
    && InSomeScope(NormalizeRepoPath(path, false).value, task.allowedPaths)
    && !InSomeScope(NormalizeRepoPath(path, false).value, task.forbiddenPaths)
  }

  predicate PathsOk(task: Task, handoff: Handoff) {
    && (forall p :: p in handoff.changedPaths ==> PathAllowed(task, p))
    && (forall p :: p in handoff.deletedPaths ==> PathAllowed(task, p))
    && FileSet(handoff.changedPaths) * FileSet(handoff.deletedPaths) == {}
    && (FileSet(handoff.deletedPaths) == {} || task.deleteAllowed)
  }

  predicate EvidencePresent(around: Surroundings, value: string, produced: bool) {
    && NormalizeRepoPath(value, false).Some?
    && (produced ==> around.isFile(NormalizeRepoPath(value, false).value))
  }

  predicate EvidenceOk(around: Surroundings, task: Task, handoff: Handoff) {
    && FileSet(handoff.evidenceProduced) * FileSet(handoff.missingEvidence) == {}
    && FileSet(task.expectedEvidence) <= FileSet(handoff.evidenceProduced) + FileSet(handoff.missingEvidence)
    && FileSet(handoff.missingEvidence) <= FileSet(task.expectedEvidence)
    && (forall v :: v in handoff.evidenceProduced ==> EvidencePresent(around, v, true))
    && (forall v :: v in handoff.missingEvidence ==> EvidencePresent(around, v, false))
  }

  predicate CommandsDistinct(results: seq<Result>) {
    forall i, j :: 0 <= i < j < |results| ==> results[i].command != results[j].command
  }

  predicate AllPassed(task: Task, handoff: Handoff) {
    NotPassed(handoff.results) == {} && NotRecorded(task, handoff) == {}
  }

  predicate OutcomeOk(task: Task, handoff: Handoff) {
    && (handoff.outcome == "ready_for_review" ==>
          handoff.blockers == [] && handoff.missingEvidence == [] && AllPassed(task, handoff))
    && (handoff.outcome == "blocked" ==> handoff.blockers != [])
    && (handoff.outcome == "incomplete" ==>
          || handoff.missingEvidence != [] || handoff.residualGaps != [] || !AllPassed(task, handoff)
          || !(Elements(task.claims) <= Elements(handoff.claimsAddressed)))
  }

  predicate Consistent(around: Surroundings, task: Task, handoff: Handoff, taskBytes: Bytes) {
    && handoff.taskId == task.id && handoff.digest == around.sha256(taskBytes)
    && PathsOk(task, handoff)
    && Elements(handoff.claimsAddressed) == Elements(task.claims)
    && EvidenceOk(around, task, handoff)
    && CommandsDistinct(handoff.results) && NotRecorded(task, handoff) == {}
    && OutcomeOk(task, handoff)
  }

  lemma PathClean(task: Task, path: string, field: string)
    ensures PathFinding(task, path, field) == [] <==> PathAllowed(task, path)
  { }

  lemma {:induction false} DeclaredClean(task: Task, paths: seq<string>, field: string)
    ensures DeclaredFindings(task, paths, field) == [] <==> forall p :: p in paths ==> PathAllowed(task, p)
  {
    if |paths| > 0 {
      var init, last := paths[..|paths| - 1], paths[|paths| - 1];
      InitLast(paths);
      DeclaredClean(task, init, field);
      PathClean(task, last, field);
    }
  }

  lemma EntryClean(around: Surroundings, value: string, produced: bool, field: string)
    ensures EvidenceFinding(around, value, produced, field) == [] <==> EvidencePresent(around, value, produced)
  { }

  lemma {:induction false} ListedClean(around: Surroundings, values: seq<string>, produced: bool, field: string)
    ensures ListedEvidence(around, values, produced, field) == [] <==>
            forall v :: v in values ==> EvidencePresent(around, v, produced)
  {
    if |values| > 0 {
      var init, last := values[..|values| - 1], values[|values| - 1];
      InitLast(values);
      ListedClean(around, init, produced, field);
      EntryClean(around, last, produced, field);
    }
  }

  lemma {:induction false} LastStatusKeys(results: seq<Result>)
    ensures forall c :: c in LastStatus(results) <==> exists i :: 0 <= i < |results| && results[i].command == c
  {
    if |results| > 0 {
      var init := results[..|results| - 1];
      LastStatusKeys(init);
      forall c ensures c in LastStatus(results) <==> exists i :: 0 <= i < |results| && results[i].command == c {
        if c in LastStatus(init) {
          var i :| 0 <= i < |init| && init[i].command == c;
          assert results[i].command == c;
        }
      }
    }
  }

  lemma {:induction false} RepeatsClean(results: seq<Result>)
    ensures RepeatFindings(results) == [] <==> CommandsDistinct(results)
  {
    if |results| > 0 {
      var n := |results| - 1;
      RepeatsClean(results[..n]);
      LastStatusKeys(results[..n]);
    }
  }

  lemma EachClean(code: Code, names: set<string>, field: string)
    ensures Each(code, SortedTexts(names), field) == [] <==> names == {}
  {
    var sorted := SortedTexts(names);
    if |sorted| > 0 {
      assert sorted[0] in sorted;
    }
    if names != {} {
      var x :| x in names;
      assert x in sorted;
    }
  }

  lemma PathsClean(task: Task, handoff: Handoff)
    ensures PathFindings(task, handoff) == [] <==> PathsOk(task, handoff)
  {
    DeclaredClean(task, handoff.changedPaths, "changed_paths");
    DeclaredClean(task, handoff.deletedPaths, "deleted_paths");
    EachClean(PathStateContradiction, FileSet(handoff.changedPaths) * FileSet(handoff.deletedPaths), "deleted_paths");
  }

  lemma ClaimsClean(task: Task, handoff: Handoff)
    ensures ClaimFindings(task, handoff) == [] <==> Elements(handoff.claimsAddressed) == Elements(task.claims)
  {
    var claims, addressed := Elements(task.claims), Elements(handoff.claimsAddressed);
    EachClean(ClaimNotDeclared, addressed - claims, "claims_addressed");
    EachClean(ClaimNotAddressed, claims - addressed, "claims_addressed");
    assert addressed == claims <==> addressed - claims == {} && claims - addressed == {};
  }

  lemma AllEmpty(a: seq<Finding>, b: seq<Finding>, c: seq<Finding>, d: seq<Finding>, e: seq<Finding>)
    ensures a + b + c + d + e == [] <==> a == [] && b == [] && c == [] && d == [] && e == []
  {
    assert |a + b + c + d + e| == |a| + |b| + |c| + |d| + |e|;
  }

  lemma EvidenceClean(around: Surroundings, task: Task, handoff: Handoff)
    ensures EvidenceFindings(around, task, handoff) == [] <==> EvidenceOk(around, task, handoff)
  {
    var expected, produced, missing :=
      FileSet(task.expectedEvidence), FileSet(handoff.evidenceProduced), FileSet(handoff.missingEvidence);
    EachClean(EvidenceStateContradiction, produced * missing, "missing_evidence");
    EachClean(ExpectedEvidenceUnaccounted, expected - produced - missing, "evidence_produced");
    EachClean(UnexpectedMissingEvidence, missing - expected, "missing_evidence");
    ListedClean(around, handoff.evidenceProduced, true, "evidence_produced");
    ListedClean(around, handoff.missingEvidence, false, "missing_evidence");
    SetsAgree(expected, produced, missing);
    AllEmpty(Each(EvidenceStateContradiction, SortedTexts(produced * missing), "missing_evidence"),
             Each(ExpectedEvidenceUnaccounted, SortedTexts(expected - produced - missing), "evidence_produced"),
             Each(UnexpectedMissingEvidence, SortedTexts(missing - expected), "missing_evidence"),
             ListedEvidence(around, handoff.evidenceProduced, true, "evidence_produced"),
             ListedEvidence(around, handoff.missingEvidence, false, "missing_evidence"));
  }

  lemma SetsAgree(expected: set<string>, produced: set<string>, missing: set<string>)
    ensures expected - produced - missing == {} <==> expected <= produced + missing
    ensures missing - expected == {} <==> missing <= expected
  {
    if expected - produced - missing == {} {
      forall x | x in expected ensures x in produced + missing {
        assert x !in expected - produced - missing;
      }
    }
    if missing - expected == {} {
      forall x | x in missing ensures x in expected {
        assert x !in missing - expected;
      }
    }
  }

  lemma OutcomeClean(task: Task, handoff: Handoff)
    ensures OutcomeFindings(task, handoff) == [] <==> OutcomeOk(task, handoff)
  {
    var claims, addressed := Elements(task.claims), Elements(handoff.claimsAddressed);
    assert claims - addressed == {} <==> claims <= addressed by {
      SetsAgree(addressed, {}, claims);
    }
    assert handoff.outcome == "ready_for_review" ==> handoff.outcome != "blocked" && handoff.outcome != "incomplete";
    assert handoff.outcome == "blocked" ==> handoff.outcome != "incomplete";
  }

  lemma ResultsClean(task: Task, handoff: Handoff)
    ensures ResultFindings(task, handoff) == [] <==>
            CommandsDistinct(handoff.results) && NotRecorded(task, handoff) == {} && OutcomeOk(task, handoff)
  {
    RepeatsClean(handoff.results);
    EachClean(ValidationResultMissing, NotRecorded(task, handoff), "validation_results");
    OutcomeClean(task, handoff);
  }

  /** Binding finds nothing exactly when handoff and task are consistent. */
  lemma CleanIffConsistent(around: Surroundings, task: Task, handoff: Handoff, taskBytes: Bytes)
    ensures BindingFindings(around, task, handoff, taskBytes) == [] <==> Consistent(around, task, handoff, taskBytes)
  {
    PathsClean(task, handoff);
    ClaimsClean(task, handoff);
    EvidenceClean(around, task, handoff);
    ResultsClean(task, handoff);
  }

  /** A handoff that is ready for review and has no findings: every required command passed, every expected file is there. */
  lemma ReadyMeansDone(around: Surroundings, task: Task, handoff: Handoff, taskBytes: Bytes, command: string,
                       evidence: string)
    requires BindingFindings(around, task, handoff, taskBytes) == [] && handoff.outcome == "ready_for_review"
    ensures command in task.validationCommands ==>
              command in LastStatus(handoff.results) && LastStatus(handoff.results)[command] == "passed"
    ensures evidence in FileSet(task.expectedEvidence) ==> around.isFile(evidence)
    ensures Elements(task.claims) == Elements(handoff.claimsAddressed)
  {
    CleanIffConsistent(around, task, handoff, taskBytes);
    if command in task.validationCommands {
      assert command in Elements(task.validationCommands);
      assert command !in NotRecorded(task, handoff);
      assert command !in NotPassed(handoff.results);
    }
    if evidence in FileSet(task.expectedEvidence) {
      assert evidence in FileSet(handoff.evidenceProduced);
      var v :| v in handoff.evidenceProduced && NormalizeRepoPath(v, false) == Some(evidence);
      assert EvidencePresent(around, v, true);
    }
  }

  // ----- the handoff of a dry run -----

  /** The limits that every dry run states; what matters here is that there are some. */
  const RESIDUAL_GAPS := ["limits of a dry run"]

  function NotRun(commands: seq<string>): (r: seq<Result>)
    ensures |r| == |commands|
  {
    seq(|commands|, i requires 0 <= i < |commands| => Result(commands[i], "not_run"))
  }

  /** `_handoff` */
  function DryRunHandoff(task: Task, digest: string): Handoff {
    Handoff(task.id, digest, "incomplete", [], [], task.claims, [], task.expectedEvidence,
            NotRun(task.validationCommands),
            [], RESIDUAL_GAPS)
  }

  /** One finding for each expected evidence entry that does not normalise. */
  function InvalidEvidence(values: seq<string>): seq<Finding> {
    if |values| == 0 then []
    else
      var last := values[|values| - 1];
      InvalidEvidence(values[..|values| - 1]) +
      (if NormalizeRepoPath(last, false) == None then [Invalid(last)] else [])
  }

  function Invalid(value: string): Finding {
    Finding(EvidencePathInvalid, value, "missing_evidence")
  }

  /** One finding for each command that occurs before in the list. */
  function RepeatedCommands(commands: seq<string>): seq<Finding> {
    if |commands| == 0 then []
    else
      var n := |commands| - 1;
      RepeatedCommands(commands[..n]) +
      (if commands[n] in commands[..n] then [Finding(ValidationResultDuplicate, commands[n], ResultField(n))] else [])
  }

  lemma {:induction false} MissingIsInvalid(around: Surroundings, values: seq<string>)
    ensures ListedEvidence(around, values, false, "missing_evidence") == InvalidEvidence(values)
  {
    if |values| > 0 {
      MissingIsInvalid(around, values[..|values| - 1]);
    }
  }

  lemma {:induction false} NotRunRepeats(commands: seq<string>)
    ensures RepeatFindings(NotRun(commands)) == RepeatedCommands(commands)
  {
    if |commands| > 0 {
      var n := |commands| - 1;
      var init := commands[..n];
      NotRunRepeats(init);
      assert NotRun(commands)[..n] == NotRun(init);
      LastStatusKeys(NotRun(init));
      if commands[n] in init {
        var i :| 0 <= i < n && init[i] == commands[n];
        assert NotRun(init)[i].command == commands[n];
      }
    }
  }

  lemma NothingMissing(task: Task, digest: string)
    ensures NotRecorded(task, DryRunHandoff(task, digest)) == {}
  {
    var results := NotRun(task.validationCommands);
    LastStatusKeys(results);
    forall c | c in task.validationCommands ensures c in LastStatus(results) {
      var i :| 0 <= i < |task.validationCommands| && task.validationCommands[i] == c;
      assert results[i].command == c;
    }
  }

  lemma {:induction false} NotRunStatus(commands: seq<string>, c: string)
    ensures c in LastStatus(NotRun(commands)) ==> LastStatus(NotRun(commands))[c] == "not_run"
  {
    if |commands| > 0 {
      var n := |commands| - 1;
      NotRunStatus(commands[..n], c);
      assert NotRun(commands)[..n] == NotRun(commands[..n]);
    }
  }

  /** A dry run claims no passed command: every required one counts as not passed. */
  lemma NothingPassed(task: Task, digest: string)
    ensures NotPassed(DryRunHandoff(task, digest).results) == Elements(task.validationCommands)
  {
    var results := NotRun(task.validationCommands);
    NothingMissing(task, digest);
    LastStatusKeys(results);
    assert "not_run"[0] != "passed"[0];
    forall c ensures c in NotPassed(results) <==> c in Elements(task.validationCommands) {
      NotRunStatus(task.validationCommands, c);
      assert c !in NotRecorded(task, DryRunHandoff(task, digest));
      if c in LastStatus(results) {
        var i :| 0 <= i < |results| && results[i].command == c;
        assert task.validationCommands[i] == c;
      }
    }
  }

  lemma DryRunPaths(task: Task, digest: string)
    ensures PathFindings(task, DryRunHandoff(task, digest)) == []
    ensures ClaimFindings(task, DryRunHandoff(task, digest)) == []
  {
    PathsClean(task, DryRunHandoff(task, digest));
    ClaimsClean(task, DryRunHandoff(task, digest));
  }

  lemma DryRunEvidence(around: Surroundings, task: Task, digest: string)
    ensures EvidenceFindings(around, task, DryRunHandoff(task, digest)) == InvalidEvidence(task.expectedEvidence)
  {
    var expected, none := FileSet(task.expectedEvidence), FileSet([]);
    assert none == {};
    assert none * expected == {} && expected - none - expected == {} && expected - expected == {};
    EachClean(EvidenceStateContradiction, {}, "missing_evidence");
    EachClean(ExpectedEvidenceUnaccounted, {}, "evidence_produced");
    EachClean(UnexpectedMissingEvidence, {}, "missing_evidence");
    MissingIsInvalid(around, task.expectedEvidence);
  }

  lemma DryRunResults(task: Task, digest: string)
    ensures ResultFindings(task, DryRunHandoff(task, digest)) == RepeatedCommands(task.validationCommands)
  {
    NotRunRepeats(task.validationCommands);
    NothingMissing(task, digest);
    EachClean(ValidationResultMissing, {}, "validation_results");
  }

  lemma FirstThreeEmpty(a: seq<Finding>, b: seq<Finding>, c: seq<Finding>, d: seq<Finding>, e: seq<Finding>)
    requires a == [] && b == [] && c == []
    ensures a + b + c + d + e == d + e
  { }

  /** Bound to the same bytes, the handoff of a dry run has these findings and no others. */
  lemma DryRunFindings(around: Surroundings, task: Task, taskBytes: Bytes)
    ensures BindingFindings(around, task, DryRunHandoff(task, around.sha256(taskBytes)), taskBytes) ==
            InvalidEvidence(task.expectedEvidence) + RepeatedCommands(task.validationCommands)
  {
    var digest := around.sha256(taskBytes);
    var handoff := DryRunHandoff(task, digest);
    DryRunPaths(task, digest);
    DryRunEvidence(around, task, digest);
    DryRunResults(task, digest);
    FirstThreeEmpty(IdentityFindings(around, task, handoff, taskBytes), PathFindings(task, handoff),
                    ClaimFindings(task, handoff),
                    EvidenceFindings(around, task, handoff), ResultFindings(task, handoff));
  }

  // ----- how many -----

  /** Every entry that does not normalise is reported as often as it is listed, and nothing else is. */
  lemma {:induction false} InvalidMultiplicity(values: seq<string>, v: string)
    ensures multiset(InvalidEvidence(values))[Invalid(v)] ==
            if NormalizeRepoPath(v, false) == None then multiset(values)[v] else 0
  {
    if |values| > 0 {
      var init, last := values[..|values| - 1], values[|values| - 1];
      InvalidMultiplicity(init, v);
      InitLast(values);
      CountAppend(init, last, v);
      CountAppend(InvalidEvidence(init), Invalid(last), Invalid(v));
      assert Invalid(last) == Invalid(v) <==> last == v;
    }
  }

  lemma InitLast<T>(s: seq<T>)
    requires |s| > 0
    ensures s == s[..|s| - 1] + [s[|s| - 1]]
  { }

  lemma CountAppend<T>(init: seq<T>, last: T, x: T)
    ensures multiset(init + [last])[x] == multiset(init)[x] + if last == x then 1 else 0
  { }

  lemma {:induction false} InvalidEmpty(values: seq<string>)
    ensures InvalidEvidence(values) == [] <==> forall v :: v in values ==> NormalizeRepoPath(v, false).Some?
  {
    if |values| > 0 {
      var init, last := values[..|values| - 1], values[|values| - 1];
      InvalidEmpty(init);
      InitLast(values);
    }
  }

  lemma {:induction false} RepeatedCount(commands: seq<string>)
    ensures |RepeatedCommands(commands)| == |commands| - |Elements(commands)|
  {
    if |commands| > 0 {
      var init, last := commands[..|commands| - 1], commands[|commands| - 1];
      RepeatedCount(init);
      InitLast(commands);
      ElementsAppend(init, last);
    }
  }

  lemma ElementsAppend(init: seq<string>, last: string)
    ensures |Elements(init + [last])| == |Elements(init)| + if last in init then 0 else 1
  {
    assert Elements(init + [last]) == Elements(init) + {last};
    assert last in init <==> last in Elements(init);
  }

  /** A dry run's handoff is clean exactly when every expected evidence path normalises and no command is repeated. */
  lemma DryRunClean(around: Surroundings, task: Task, taskBytes: Bytes)
    ensures BindingFindings(around, task, DryRunHandoff(task, around.sha256(taskBytes)), taskBytes) == [] <==>
            && (forall v :: v in task.expectedEvidence ==> NormalizeRepoPath(v, false).Some?)
            && |Elements(task.validationCommands)| == |task.validationCommands|
  {
    DryRunFindings(around, task, taskBytes);
    RepeatedCount(task.validationCommands);
    InvalidEmpty(task.expectedEvidence);
    var one, other := InvalidEvidence(task.expectedEvidence), RepeatedCommands(task.validationCommands);
    assert |one + other| == |one| + |other|;
  }
}

/** run_task: `_run_dry_run`, from the first reading of the repository to the outcome. */
module DryRun {
  import opened Bytes
  import opened Wrappers
  import opened FileSystem
  import opened DirectoryWalk
  import opened PublicationLog
  import opened EvidenceFiles
  import opened Confirmation
  import opened EvidencePublication

  datatype DryOutcome = Planned(evidencePath: Option<string>) | Blocked | Failed(error: RunnerError) | FailedForeign

  const GUARDED_CODES := {"REPO_MUTATED_DURING_DRY_RUN", "SOURCE_REVISION_CHANGED_DURING_DRY_RUN"}

  /** An error of a step that makes none of the modelled system calls. */
  datatype Failure = RunnerFailure(code: string) | OsFailure(detail: string) | OtherFailure

  /** Loading the task and the registry, checking the schema and running the guard. */
  datatype Loading = Clear | Findings | Refused(failure: Failure)

  /** What publishing does before it stages: payload checks, and opening the parent directory. */
  datatype Entry = Ready(parentFd: Fd, run: Run) | NotReady(failure: Failure)

  /** Where and when to persist: the run id, the two times, and what publishing finds first. */
  datatype Persist = Persist(runId: string, startedAt: int, completedAt: int, entry: Entry)

  function FlowOfFailure(f: Failure): Flow {
    match f
    case RunnerFailure(code) => Runner(Fail(code))
    case OsFailure(detail) => Os(detail)
    case OtherFailure => Foreign
  }

  predicate Digits(s: string) {
    forall i :: 0 <= i < |s| ==> '0' <= s[i] <= '9'
  }

  predicate LowerHex(s: string) {
    forall i :: 0 <= i < |s| ==> '0' <= s[i] <= '9' || 'a' <= s[i] <= 'f'
  }

  /** `RUN_ID_RE` */
  predicate IsRunId(s: string) {
    && |s| == 33 && s[..4] == "RUN-" && Digits(s[4..12]) && s[12] == 'T' && Digits(s[13..19])
    && s[19] == 'Z' && s[20] == '-' && LowerHex(s[21..])
  }

  /** `SOURCE_REVISION_RE` */
  predicate IsRevision(s: string) {
    |s| == 40 && LowerHex(s)
  }

  /** A revision is forty of these characters. */
  lemma RevisionMeans(s: string)
    ensures IsRevision(s) <==> |s| == 40 && forall c :: c in s ==> c in "0123456789abcdef"
  {
    HexMeans(s);
  }

  lemma HexMeans(s: string)
    ensures LowerHex(s) <==> forall c :: c in s ==> c in "0123456789abcdef"
  {
    forall c: char ensures c in "0123456789abcdef" <==> '0' <= c <= '9' || 'a' <= c <= 'f' {
      HexCharacter(c);
    }
    if forall c :: c in s ==> c in "0123456789abcdef" {
      forall i | 0 <= i < |s| ensures '0' <= s[i] <= '9' || 'a' <= s[i] <= 'f' {
        assert s[i] in s;
      }
    }
  }

  lemma HexCharacter(c: char)
    ensures c in "0123456789abcdef" <==> '0' <= c <= '9' || 'a' <= c <= 'f'
  {
    var hex := "0123456789abcdef";
    if '0' <= c <= '9' {
      assert hex[c as int - '0' as int] == c;
    }
    if 'a' <= c <= 'f' {
      assert hex[c as int - 'a' as int + 10] == c;
    }
  }

  ghost predicate RunIdParts(s: string, date: string, time: string, tail: string) {
    && s == "RUN-" + date + "T" + time + "Z-" + tail
    && |date| == 8 && Digits(date) && |time| == 6 && Digits(time) && |tail| == 12 && LowerHex(tail)
  }

  /** A run id is a date, a time of day and twelve hexadecimal digits, between these separators. */
  lemma RunIdMeans(s: string)
    ensures IsRunId(s) <==> exists date, time, tail :: RunIdParts(s, date, time, tail)
  {
    if IsRunId(s) {
      assert RunIdParts(s, s[4..12], s[13..19], s[21..]);
    }
    if date, time, tail :| RunIdParts(s, date, time, tail) {
      assert s[..4] == "RUN-" && s[4..12] == date && s[13..19] == time && s[21..] == tail;
    }
  }

  /** The checks before publication passed. */
  predicate MayPersist(persist: Persist) {
    IsRunId(persist.runId) && persist.startedAt <= persist.completedAt && persist.entry.Ready?
  }

  ghost predicate CanPersist(k: Kernel, persist: Option<Persist>)
    reads k
  {
    persist.Some? && persist.value.entry.Ready? ==>
      && persist.value.entry.parentFd in k.descriptors
      && persist.value.entry.run.staging != persist.value.entry.run.target
  }

  ghost predicate ChecksOnly(log: seq<Event>, n0: nat) {
    forall i :: n0 <= i < |log| ==> log[i].action.ReadRevision? || log[i].action.ReadState?
  }

  /** The last two calls found the repository as expected. */
  ghost predicate JustChecked(log: seq<Event>, n0: nat, expected: Expectation) {
    && |log| >= n0 + 2
    && log[|log| - 2].action == ReadRevision(Some(expected.revision))
    && log[|log| - 1].action == ReadState(Some(expected.state))
  }

  /** The check of the exception handler did not find the expected state. */
  ghost predicate RecheckFailed(log: seq<Event>, expected: Expectation) {
    && |log| > 0
    && log[|log| - 1].action.ReadState?
    && log[|log| - 1].action.state != Some(expected.state)
  }

  /** This reading is the expected one. */
  predicate AsExpected(a: Action, x: Expectation) {
    a == ReadRevision(Some(x.revision)) || a == ReadState(Some(x.state))
  }

  /** One of the first readings failed or found something else. */
  ghost predicate WrongReading(log: seq<Event>, n0: nat, count: nat, x: Expectation) {
    exists i :: n0 <= i < |log| && i < n0 + count && !AsExpected(log[i].action, x)
  }

  /** `_assert_repository_unchanged` */
  method AssertUnchanged(k: Kernel, before: Bytes) returns (flow: Flow)
    requires k.Valid()
    modifies k`world, k`log
    ensures k.Valid() && |k.log| == |old(k.log)| + 1 && old(k.log) <= k.log
    ensures k.log[|old(k.log)|].action.ReadState?
    ensures flow.Completed? <==> k.log[|old(k.log)|].action == ReadState(Some(before))
    ensures k.log[|old(k.log)|].action.state.Some? && !flow.Completed? ==>
            flow == Runner(Fail("REPO_MUTATED_DURING_DRY_RUN"))
    ensures flow.Runner? ==> flow.error.evidencePath == None
  {
    var state := k.ReadState();
    flow := ReadingFlow(state, before, "REPO_MUTATED_DURING_DRY_RUN");
  }

  /** Revision, then state: the check before the result is built, and the last one without persistence. */
  method CheckRepository(k: Kernel, expected: Expectation) returns (flow: Flow)
    requires k.Valid()
    modifies k`world, k`log
    ensures k.Valid() && old(k.log) < k.log && ChecksOnly(k.log, |old(k.log)|)
    ensures flow.Completed? ==> JustChecked(k.log, |old(k.log)|, expected) && |k.log| == |old(k.log)| + 2
    ensures flow.Completed? <==> !WrongReading(k.log, |old(k.log)|, 2, expected)
    // a value that is read and differs has its own code
    ensures !flow.Completed? ==>
              match k.log[|k.log| - 1].action
              case ReadRevision(Some(_)) => flow == Runner(Fail("SOURCE_REVISION_CHANGED_DURING_DRY_RUN"))
              case ReadState(Some(_)) => flow == Runner(Fail("REPO_MUTATED_DURING_DRY_RUN"))
              case _ => true
    ensures flow.Runner? ==> flow.error.evidencePath == None
  {
    var revision := k.ReadRevision();
    flow := ReadingFlow(revision, expected.revision, "SOURCE_REVISION_CHANGED_DURING_DRY_RUN");
    if !flow.Completed? {
      assert !AsExpected(k.log[|old(k.log)|].action, expected);
      return;
    }
    ghost var log := k.log;
    flow := AssertUnchanged(k, expected.state);
    assert k.log[|old(k.log)|] == log[|old(k.log)|];
    assert flow.Completed? <==> AsExpected(k.log[|log|].action, expected);
  }

  /** A publication, if any, found the repository as expected in the two calls before it. */
  ghost predicate PublishedChecked(log: seq<Event>, n0: nat, expected: Expectation) {
    forall i :: n0 <= i < |log| && IsPublication(log[i].action) ==> Rechecked(log, n0, i, Some(expected))
  }

  /** How publishing ends, seen from the caller. */
  ghost predicate PersistEnds(log: seq<Event>, n0: nat, flow: Flow, path: Option<string>, display: string) {
    && (flow.Completed? ==> PublishedIn(log, n0) && path == Some(display))
    && (!flow.Completed? && PublishedIn(log, n0) ==> flow.Runner? && flow.error.evidencePath == Some(display))
    && (flow.Runner? && !PublishedIn(log, n0) ==> flow.error.evidencePath == None)
    && (PublishedIn(log, n0) ==> |log| > 0 && log[|log| - 1].action.Close?)
  }

  /** The call of `publish_evidence_bundle` with the parent directory open. */
  method Publication(k: Kernel, expected: Expectation, parentFd: Fd, run: Run)
    returns (flow: Flow, path: Option<string>, ghost dir: Inode)
    requires k.Valid() && k.staged == None && parentFd in k.descriptors && run.staging != run.target
    modifies k`world, k`staged, k`descriptors, k`nextFd, k`log
    ensures k.Valid() && old(k.log) < k.log
    ensures PublishedChecked(k.log, |old(k.log)|, expected)
    ensures PersistEnds(k.log, |old(k.log)|, flow, path, run.display)
    ensures flow.Completed? <==> Clean(k.log, |old(k.log)|, Case(run, Some(expected), old(k.descriptors)[parentFd], dir))
  {
    var outcome, exit;
    ghost var p, listed, m, tried;
    outcome, exit, dir, p, listed, m, tried := PublishEvidenceBundle(k, parentFd, run, Some(expected));
    flow, path := FlowOf(outcome), if outcome.Returned? then Some(run.display) else None;
    Persisted(k.log, |old(k.log)|, m, parentFd, run, dir, p, listed, exit, expected, outcome);
  }

  /** The directory behind the parent descriptor, if there is to be a publication. */
  ghost function Parent(descriptors: map<Fd, Inode>, persist: Option<Persist>): Inode {
    if persist.Some? && persist.value.entry.Ready? && persist.value.entry.parentFd in descriptors
    then descriptors[persist.value.entry.parentFd] else 0
  }

  /** Persisting is refused, or the publication runs into something. */
  ghost predicate BadPersist(log: seq<Event>, n0: nat, expected: Expectation, persist: Persist, parent: Inode,
                             dir: Inode) {
    !MayPersist(persist) || !Clean(log, n0, Case(persist.entry.run, Some(expected), parent, dir))
  }

  /** The persisting branch: run id and clock are checked first. */
  method PersistEvidence(k: Kernel, expected: Expectation, persist: Persist)
    returns (flow: Flow, path: Option<string>, ghost dir: Inode)
    requires k.Valid() && k.staged == None && CanPersist(k, Some(persist))
    modifies k`world, k`staged, k`descriptors, k`nextFd, k`log
    ensures k.Valid() && old(k.log) <= k.log
    ensures PublishedChecked(k.log, |old(k.log)|, expected)
    ensures !MayPersist(persist) ==> k.log == old(k.log) && path == None && !flow.Completed?
    ensures flow.Completed? <==>
            !BadPersist(k.log, |old(k.log)|, expected, persist, Parent(old(k.descriptors), Some(persist)), dir)
    ensures !IsRunId(persist.runId) ==> flow == Runner(Fail("RUN_ID_INVALID"))
    ensures IsRunId(persist.runId) && persist.completedAt < persist.startedAt ==>
              flow == Runner(Fail("CLOCK_MOVED_BACKWARDS"))
    ensures IsRunId(persist.runId) && persist.startedAt <= persist.completedAt && persist.entry.NotReady? ==>
              flow == FlowOfFailure(persist.entry.failure)
    ensures MayPersist(persist) ==> PersistEnds(k.log, |old(k.log)|, flow, path, persist.entry.run.display)
  {
    path, dir := None, 0;
    if !IsRunId(persist.runId) { return Runner(Fail("RUN_ID_INVALID")), path, dir; }
    if persist.completedAt < persist.startedAt { return Runner(Fail("CLOCK_MOVED_BACKWARDS")), path, dir; }
    match persist.entry {
      case NotReady(failure) => flow := FlowOfFailure(failure);
      case Ready(parentFd, run) => flow, path, dir := Publication(k, expected, parentFd, run);
    }
  }

  function FlowOf(outcome: Outcome): Flow {
    match outcome
    case Returned => Completed
    case Raised(e) => Runner(e)
    case PropagatedForeign => Foreign
  }

  lemma Persisted(log: seq<Event>, n0: nat, m: nat, parentFd: Fd, run: Run, dir: Inode, p: Progress,
                  listed: Option<seq<Name>>, exit: Exit, expected: Expectation, outcome: Outcome)
    requires m <= |log| && SafeRun(log, n0, run, dir, Some(expected)) && Accounted(log, n0, run, p, parentFd, exit)
    requires Actions(log[m..]) == FinallyActions(run, dir, p, parentFd, listed, exit)
    requires outcome.Raised? ==> outcome.error.evidencePath == if p.published then Some(run.display) else None
    requires outcome.PropagatedForeign? ==> !p.published
    requires outcome.Returned? ==> p.published
    ensures PublishedChecked(log, n0, expected)
    ensures PersistEnds(log, n0, FlowOf(outcome), if outcome.Returned? then Some(run.display) else None, run.display)
  {
    LastCallIsNoCheck(log, m, run, dir, p, parentFd, listed, exit);
    PublishedEnds(log, n0, outcome, p.published, run.display);
  }

  lemma PublishedEnds(log: seq<Event>, n0: nat, outcome: Outcome, published: bool, display: string)
    requires published <==> PublishedIn(log, n0)
    requires outcome.Raised? ==> outcome.error.evidencePath == if published then Some(display) else None
    requires outcome.PropagatedForeign? ==> !published
    requires outcome.Returned? ==> published
    requires published ==> |log| > 0 && log[|log| - 1].action.Close?
    ensures PersistEnds(log, n0, FlowOf(outcome), if outcome.Returned? then Some(display) else None, display)
  { }

  /** How the try statement's body ends: persisted only after a publication, checked in any case. */
  ghost predicate BodyEnds(log: seq<Event>, n0: nat, flow: Flow, path: Option<string>, persist: Option<Persist>,
                           expected: Expectation)
  {
    && PublishedChecked(log, n0, expected)
    && (PublishedIn(log, n0) ==> persist.Some? && MayPersist(persist.value))
    && (persist.None? && flow.Completed? ==> JustChecked(log, n0, expected) && path == None)
    && (persist.Some? && flow.Completed? ==> PublishedIn(log, n0))
    && (PublishedIn(log, n0) ==> PersistEnds(log, n0, flow, path, persist.value.entry.run.display))
    && (flow.Runner? && !PublishedIn(log, n0) ==> flow.error.evidencePath == None)
  }

  /** A reading is wrong from here on, or persisting goes wrong. */
  ghost predicate BadEnd(log: seq<Event>, n0: nat, expected: Expectation, persist: Option<Persist>, parent: Inode,
                         dir: Inode)
  {
    match persist
    case None => WrongReading(log, n0, 4, expected)
    case Some(p) =>
      WrongReading(log, n0, 2, expected) || (|log| >= n0 + 2 && BadPersist(log, n0 + 2, expected, p, parent, dir))
  }

  /** From the check of the repository to the end of the try statement. */
  method CheckAndPersist(k: Kernel, expected: Expectation, persist: Option<Persist>)
    returns (flow: Flow, path: Option<string>, ghost dir: Inode)
    requires k.Valid() && k.staged == None && CanPersist(k, persist)
    modifies k`world, k`staged, k`descriptors, k`nextFd, k`log
    ensures k.Valid() && old(k.log) < k.log
    ensures BodyEnds(k.log, |old(k.log)|, flow, path, persist, expected)
    ensures flow.Completed? <==> !BadEnd(k.log, |old(k.log)|, expected, persist, Parent(old(k.descriptors), persist), dir)
  {
    path, dir := None, 0;
    flow := CheckRepository(k, expected);
    if !flow.Completed? {
      WrongEarly(k.log, |old(k.log)|, expected, persist, Parent(old(k.descriptors), persist), dir);
      return;
    }
    ghost var checked := k.log;
    if persist == None {
      flow := CheckRepository(k, expected);
      CheckedTwice(checked, k.log, |old(k.log)|, flow, expected);
    } else {
      flow, path, dir := PersistEvidence(k, expected, persist.value);
      LogGrows(checked, k.log, |old(k.log)|, expected);
      RightReadings(checked, k.log, |old(k.log)|, expected);
    }
  }

  lemma WrongEarly(log: seq<Event>, n0: nat, expected: Expectation, persist: Option<Persist>, parent: Inode, dir: Inode)
    requires WrongReading(log, n0, 2, expected)
    ensures BadEnd(log, n0, expected, persist, parent, dir)
  {
    var i :| n0 <= i < |log| && i < n0 + 2 && !AsExpected(log[i].action, expected);
    assert i < n0 + 4;
  }

  lemma CheckedTwice(log: seq<Event>, log': seq<Event>, n0: nat, flow: Flow, expected: Expectation)
    requires |log| == n0 + 2 && log <= log' && ChecksOnly(log, n0) && ChecksOnly(log', |log|)
    requires !WrongReading(log, n0, 2, expected) && (flow.Completed? <==> !WrongReading(log', |log|, 2, expected))
    requires flow.Completed? ==> JustChecked(log', |log|, expected)
    requires flow.Runner? ==> flow.error.evidencePath == None
    ensures BodyEnds(log', n0, flow, None, None, expected)
    ensures flow.Completed? <==> !WrongReading(log', n0, 4, expected)
  {
    forall i | n0 <= i < |log| ensures log'[i] == log[i] { }
    WrongInTwoSteps(log, log', n0, expected);
  }

  lemma RightReadings(log: seq<Event>, log': seq<Event>, n0: nat, expected: Expectation)
    requires |log| == n0 + 2 && log <= log'
    ensures WrongReading(log', n0, 2, expected) <==> WrongReading(log, n0, 2, expected)
  {
    forall i | n0 <= i < n0 + 2 ensures log'[i] == log[i] { }
    if WrongReading(log, n0, 2, expected) {
      var i :| n0 <= i < |log| && i < n0 + 2 && !AsExpected(log[i].action, expected);
      assert !AsExpected(log'[i].action, expected);
    }
  }

  lemma WrongInTwoSteps(log: seq<Event>, log': seq<Event>, n0: nat, expected: Expectation)
    requires |log| == n0 + 2 && log <= log' && !WrongReading(log, n0, 2, expected)
    ensures WrongReading(log', n0, 4, expected) <==> WrongReading(log', n0 + 2, 2, expected)
  {
    RightReadings(log, log', n0, expected);
    if WrongReading(log', n0, 4, expected) {
      var i :| n0 <= i < |log'| && i < n0 + 4 && !AsExpected(log'[i].action, expected);
      assert i >= n0 + 2;
    }
    if WrongReading(log', n0 + 2, 2, expected) {
      var i :| n0 + 2 <= i < |log'| && i < n0 + 2 + 2 && !AsExpected(log'[i].action, expected);
      assert n0 <= i < n0 + 4;
    }
  }

  /** `revision_resolver` and `validate_source_revision` */
  method ResolveRevision(k: Kernel) returns (flow: Flow, revision: string)
    requires k.Valid()
    modifies k`world, k`log
    ensures k.Valid() && |k.log| == |old(k.log)| + 1 && old(k.log) <= k.log && k.log[|old(k.log)|].action.ReadRevision?
    ensures flow.Completed? <==> k.log[|old(k.log)|].action == ReadRevision(Some(revision)) && IsRevision(revision)
    ensures k.log[|old(k.log)|].action.revision.Some? && !flow.Completed? ==>
            flow == Runner(Fail("SOURCE_REVISION_INVALID"))
    ensures !flow.Completed? ==> !IsRevision(revision)
    ensures k.log[|old(k.log)|].action.revision.Some? ==> k.log[|old(k.log)|].action.revision == Some(revision)
    ensures flow.Runner? ==> flow.error.evidencePath == None
  {
    revision := "";
    var read := k.ReadRevision();
    match read {
      case Unavailable(code) => flow := Runner(Fail(code));
      case OsError(detail) => flow := Os(detail);
      case OtherError => flow := Foreign;
      case Value(v) =>
        revision := v;
        flow := if IsRevision(v) then Completed else Runner(Fail("SOURCE_REVISION_INVALID"));
    }
  }

  /** The body of the try statement once the task is loaded; `planning` is an error of the steps from the execution plan
      to the validation of the handoff. */
  method Body(k: Kernel, state: Bytes, planning: Option<Failure>, persist: Option<Persist>)
    returns (flow: Flow, path: Option<string>, ghost expected: Expectation, ghost dir: Inode)
    requires k.Valid() && k.staged == None && CanPersist(k, persist)
    modifies k`world, k`staged, k`descriptors, k`nextFd, k`log
    ensures k.Valid() && old(k.log) < k.log && expected.state == state
    ensures BodyEnds(k.log, |old(k.log)|, flow, path, persist, expected)
    ensures flow.Completed? || PublishedIn(k.log, |old(k.log)|) ==>
              && k.log[|old(k.log)|].action == ReadRevision(Some(expected.revision)) && IsRevision(expected.revision)
              && planning == None
    ensures k.log[|old(k.log)|].action.ReadRevision?
    ensures k.log[|old(k.log)|].action.revision.Some? ==> k.log[|old(k.log)|].action.revision == Some(expected.revision)
    ensures flow.Completed? <==>
              && IsRevision(expected.revision) && planning == None
              && !BadEnd(k.log, |old(k.log)| + 1, expected, persist, Parent(old(k.descriptors), persist), dir)
    ensures IsRevision(expected.revision) && planning.Some? ==> flow == FlowOfFailure(planning.value)
    ensures k.log[|old(k.log)|].action.revision.Some? && !IsRevision(expected.revision) ==>
              flow == Runner(Fail("SOURCE_REVISION_INVALID"))
  {
    var revision;
    path, dir := None, 0;
    flow, revision := ResolveRevision(k);
    expected := Expectation(revision, state);
    if flow.Completed? && planning.Some? {
      flow := FlowOfFailure(planning.value);
    }
    if !flow.Completed? { return; }
    ghost var resolved := k.log;
    flow, path, dir := CheckAndPersist(k, Expectation(revision, state), persist);
    BodyGrows(resolved, k.log, |old(k.log)|, flow, path, persist, expected);
  }

  lemma BodyGrows(before: seq<Event>, log: seq<Event>, n0: nat, flow: Flow, path: Option<string>,
                  persist: Option<Persist>,
                  expected: Expectation)
    requires n0 < |before| && before <= log && ChecksOnly(before, n0)
    requires BodyEnds(log, |before|, flow, path, persist, expected)
    ensures BodyEnds(log, n0, flow, path, persist, expected) && log[n0] == before[n0]
  {
    LogGrows(before, log, n0, expected);
  }

  lemma LogGrows(checked: seq<Event>, log: seq<Event>, n0: nat, expected: Expectation)
    requires n0 <= |checked| && checked <= log && ChecksOnly(checked, n0)
    requires PublishedChecked(log, |checked|, expected)
    ensures PublishedChecked(log, n0, expected)
    ensures PublishedIn(log, n0) <==> PublishedIn(log, |checked|)
  {
    forall i | n0 <= i < |checked| ensures log[i] == checked[i] { }
  }

  lemma LastCallIsNoCheck(log: seq<Event>, m: nat, run: Run, dir: Inode, p: Progress, parentFd: Fd,
                          listed: Option<seq<Name>>, exit: Exit)
    requires m <= |log| && Actions(log[m..]) == FinallyActions(run, dir, p, parentFd, listed, exit)
    requires p.published ==> p.stagingFd.Some?
    ensures p.published ==> |log| > 0 && log[|log| - 1].action.Close?
  {
    if p.published {
      var actions := Actions(log[m..]);
      assert |actions| > 0 && actions[|actions| - 1].Close?;
      assert log[|log| - 1].action == actions[|actions| - 1];
    }
  }

  /** What the handler makes of an error: most are followed by one more check of the state, and a failure of that check
      replaces them. */
  ghost predicate HandledAs(ended: seq<Event>, log: seq<Event>, flow: Flow, before: Bytes, outcome: DryOutcome) {
    && !flow.Completed? && (outcome.Failed? || outcome.FailedForeign?)
    && if flow.Runner? && flow.error.code in GUARDED_CODES then log == ended && outcome == DryOutcome.Failed(flow.error)
       else
         && |log| == |ended| + 1 && ended <= log && log[|ended|].action.ReadState?
         && match log[|ended|].action.state
            case None => outcome.Failed? ==> outcome.error.evidencePath == None
            case Some(state) =>
              outcome == if state != before then DryOutcome.Failed(Fail("REPO_MUTATED_DURING_DRY_RUN"))
                         else if flow.Runner? then DryOutcome.Failed(flow.error) else FailedForeign
  }

  method Handle(k: Kernel, flow: Flow, before: Bytes) returns (outcome: DryOutcome)
    requires k.Valid() && !flow.Completed?
    modifies k`world, k`log
    ensures k.Valid() && old(k.log) <= k.log
    ensures HandledAs(old(k.log), k.log, flow, before, outcome)
  {
    if flow.Runner? && flow.error.code in GUARDED_CODES { return DryOutcome.Failed(flow.error); }
    var again := AssertUnchanged(k, before);
    if again.Runner? { return DryOutcome.Failed(again.error); }
    if !again.Completed? { return FailedForeign; }
    return if flow.Runner? then DryOutcome.Failed(flow.error) else FailedForeign;
  }

  /** The state was read first, and the revision right after it. */
  ghost predicate StartedFrom(log: seq<Event>, n0: nat, expected: Expectation) {
    && n0 + 1 < |log| && IsRevision(expected.revision)
    && log[n0].action == ReadState(Some(expected.state))
    && log[n0 + 1].action == ReadRevision(Some(expected.revision))
  }

  /** What the result of a dry run says about its calls. */
  ghost predicate Reported(log: seq<Event>, n0: nat, outcome: DryOutcome, persist: Option<Persist>,
                           expected: Expectation) {
    && PublishedChecked(log, n0, expected)
    && (outcome.Planned? && persist.Some? ==>
          PublishedIn(log, n0) && MayPersist(persist.value) && outcome.evidencePath == Some(persist.value.entry.run.display))
    && (outcome.Planned? && persist.None? ==> JustChecked(log, n0, expected) && outcome.evidencePath == None)
    && (outcome.Planned? || PublishedIn(log, n0) ==> StartedFrom(log, n0, expected))
    // a published bundle is reported exactly when the handler's check did not fail
    && (PublishedIn(log, n0) ==>
          && persist.Some? && MayPersist(persist.value)
          && (!RecheckFailed(log, expected) <==>
                (outcome.Planned? && outcome.evidencePath == Some(persist.value.entry.run.display)) ||
                (outcome.Failed? && outcome.error.evidencePath == Some(persist.value.entry.run.display))))
    && (!PublishedIn(log, n0) && outcome.Failed? ==> outcome.error.evidencePath == None)
    // an error outside the guarded codes is reported only after a last look at the state
    && (outcome.Failed? && outcome.error.code !in GUARDED_CODES ==>
          && |log| > 0
          && (log[|log| - 1].action == ReadState(Some(expected.state)) || RecheckFailed(log, expected)))
    && (outcome.Blocked? ==>
          && |log| == n0 + 2
          && log[n0].action == ReadState(Some(expected.state)) && log[n0 + 1].action == log[n0].action)
  }

  /** Something keeps the run from planning. */
  ghost predicate Hindered(log: seq<Event>, n0: nat, loading: Loading, planning: Option<Failure>,
                           persist: Option<Persist>,
                           expected: Expectation, parent: Inode, dir: Inode)
  {
    || !loading.Clear? || planning.Some? || !IsRevision(expected.revision)
    || WrongReading(log, n0, 1, expected) || BadEnd(log, n0 + 2, expected, persist, parent, dir)
  }

  /** How the steps that make no calls show in the error of the try statement. */
  ghost predicate ToldBySteps(log: seq<Event>, n0: nat, loading: Loading, planning: Option<Failure>, tried: Flow) {
    match loading
    case Refused(failure) => tried == FlowOfFailure(failure)
    case Findings => true
    case Clear =>
      && |log| > n0 + 1 && log[n0 + 1].action.ReadRevision?
      && match log[n0 + 1].action.revision
         case None => true
         case Some(revision) =>
           if !IsRevision(revision) then tried == Runner(Fail("SOURCE_REVISION_INVALID"))
           else planning.Some? ==> tried == FlowOfFailure(planning.value)
  }

  /** How a dry run ends once the state was read; m is where its try statement ended, and tried is how. */
  ghost predicate RunEnds(log: seq<Event>, n0: nat, loading: Loading, planning: Option<Failure>,
                          persist: Option<Persist>,
                          expected: Expectation, parent: Inode, dir: Inode, outcome: DryOutcome, m: nat, tried: Flow)
  {
    // planned exactly when nothing is in the way
    && (outcome.Planned? <==> !Hindered(log, n0, loading, planning, persist, expected, parent, dir))
    // blocked exactly when there are findings and the state was read a second time and had not changed
    && (outcome.Blocked? <==>
          loading.Findings? && |log| > n0 + 1 && log[n0 + 1].action == ReadState(Some(expected.state)))
    // otherwise what the handler makes of the error
    && (!outcome.Planned? && !outcome.Blocked? ==>
          && m <= |log| && HandledAs(log[..m], log, tried, expected.state, outcome)
          && ToldBySteps(log, n0, loading, planning, tried))
  }

  /** `_run_dry_run` */
  method RunDryRun(k: Kernel, loading: Loading, planning: Option<Failure>, persist: Option<Persist>)
    returns (outcome: DryOutcome, ghost expected: Expectation, ghost dir: Inode, ghost m: nat, ghost tried: Flow)
    requires k.Valid() && k.staged == None && CanPersist(k, persist)
    modifies k`world, k`staged, k`descriptors, k`nextFd, k`log
    ensures k.Valid() && old(k.log) < k.log
    ensures Reported(k.log, |old(k.log)|, outcome, persist, expected)
    ensures match k.log[|old(k.log)|].action
            case ReadState(Some(state)) =>
              && state == expected.state
              && RunEnds(k.log, |old(k.log)|, loading, planning, persist, expected, Parent(old(k.descriptors), persist), dir,
                         outcome, m, tried)
            case ReadState(None) => |k.log| == |old(k.log)| + 1 && !outcome.Planned? && !outcome.Blocked?
            case _ => false
  {
    var state := k.ReadState();
    if !state.Value? {
      expected, dir, m, tried := Expectation("", []), 0, 0, Completed;
      outcome := if state.Unavailable? then DryOutcome.Failed(Fail(state.code)) else FailedForeign;
      return;
    }
    ghost var captured := k.log;
    outcome, expected, dir, m, tried := TryAndHandle(k, state.value, loading, planning, persist, |old(k.log)|);
    assert k.log[|old(k.log)|] == captured[|old(k.log)|];
  }

  /** The try statement and its handler. */
  method TryAndHandle(k: Kernel, state: Bytes, loading: Loading, planning: Option<Failure>, persist: Option<Persist>,
                      ghost n0: nat)
    returns (outcome: DryOutcome, ghost expected: Expectation, ghost dir: Inode, ghost m: nat, ghost tried: Flow)
    requires k.Valid() && k.staged == None && CanPersist(k, persist)
    requires |k.log| == n0 + 1 && k.log[n0].action == ReadState(Some(state))
    modifies k`world, k`staged, k`descriptors, k`nextFd, k`log
    ensures k.Valid() && old(k.log) <= k.log && expected.state == state
    ensures Reported(k.log, n0, outcome, persist, expected)
    ensures RunEnds(k.log, n0, loading, planning, persist, expected, Parent(old(k.descriptors), persist), dir, outcome, m,
                    tried)
  {
    var flow, path, blocked;
    flow, path, blocked, expected, dir := Try(k, state, loading, planning, persist, n0);
    ghost var parent := Parent(old(k.descriptors), persist);
    ghost var ended := k.log;
    m, tried := |k.log|, flow;
    if blocked {
      outcome := Blocked;
    } else if flow.Completed? {
      PlannedReported(k.log, n0, path, persist, expected);
      outcome := Planned(path);
    } else {
      outcome := Handle(k, flow, state);
      Handled(ended, k.log, n0, flow, path, persist, expected, outcome, loading, planning, parent, dir);
    }
  }

  /** The try statement, without its handler; blocked is the return with findings. */
  method Try(k: Kernel, state: Bytes, loading: Loading, planning: Option<Failure>, persist: Option<Persist>,
             ghost n0: nat)
    returns (flow: Flow, path: Option<string>, blocked: bool, ghost expected: Expectation, ghost dir: Inode)
    requires k.Valid() && k.staged == None && CanPersist(k, persist)
    requires |k.log| == n0 + 1 && k.log[n0].action == ReadState(Some(state))
    modifies k`world, k`staged, k`descriptors, k`nextFd, k`log
    ensures k.Valid() && old(k.log) <= k.log && expected.state == state
    ensures blocked <==> loading.Findings? && |k.log| > n0 + 1 && k.log[n0 + 1].action == ReadState(Some(state))
    ensures loading.Findings? ==> |k.log| == n0 + 2
    ensures !blocked ==> BodyEnds(k.log, n0, flow, path, persist, expected)
    ensures !blocked ==>
              (flow.Completed? <==>
                 !Hindered(k.log, n0, loading, planning, persist, expected, Parent(old(k.descriptors), persist), dir))
    ensures !blocked ==> ToldBySteps(k.log, n0, loading, planning, flow)
    ensures !blocked && (flow.Completed? || PublishedIn(k.log, n0)) ==> StartedFrom(k.log, n0, expected)
  {
    ghost var captured := k.log;
    expected, path, blocked, dir := Expectation("", state), None, false, 0;
    match loading {
      case Refused(failure) => flow := FlowOfFailure(failure);
      case Findings =>
        flow := AssertUnchanged(k, state);
        blocked := flow.Completed?;
      case Clear =>
        flow, path, expected, dir := Body(k, state, planning, persist);
        StartsBody(captured, k.log, n0, flow, path, persist, expected);
        FirstIsRight(captured, k.log, n0, expected);
    }
  }

  lemma FirstIsRight(captured: seq<Event>, log: seq<Event>, n0: nat, expected: Expectation)
    requires |captured| == n0 + 1 && captured < log && captured[n0].action == ReadState(Some(expected.state))
    ensures !WrongReading(log, n0, 1, expected) && log[n0] == captured[n0]
  { }

  /** After the handler all is still as the try statement left it. */
  lemma Handled(ended: seq<Event>, log: seq<Event>, n0: nat, flow: Flow, path: Option<string>, persist: Option<Persist>,
                expected: Expectation, outcome: DryOutcome, loading: Loading, planning: Option<Failure>, parent: Inode,
                dir: Inode)
    requires n0 < |ended| && BodyEnds(ended, n0, flow, path, persist, expected)
    requires (PublishedIn(ended, n0) ==> StartedFrom(ended, n0, expected))
    requires ended <= log && HandledAs(ended, log, flow, expected.state, outcome)
    requires ToldBySteps(ended, n0, loading, planning, flow)
    requires Hindered(ended, n0, loading, planning, persist, expected, parent, dir)
    ensures Reported(log, n0, outcome, persist, expected) && log[..|ended|] == ended && log[n0] == ended[n0]
    ensures ToldBySteps(log, n0, loading, planning, flow)
    ensures Hindered(log, n0, loading, planning, persist, expected, parent, dir)
    ensures |ended| > n0 + 1 ==> log[n0 + 1] == ended[n0 + 1]
  {
    PrefixOf(log, ended);
    HandledReported(ended, log, n0, flow, path, persist, expected, outcome);
    StillHindered(ended, log, n0, loading, planning, persist, expected, parent, dir);
  }

  lemma StillWrong(log: seq<Event>, log': seq<Event>, n0: nat, count: nat, x: Expectation)
    requires log <= log' && WrongReading(log, n0, count, x)
    ensures WrongReading(log', n0, count, x)
  {
    var i :| n0 <= i < |log| && i < n0 + count && !AsExpected(log[i].action, x);
    assert !AsExpected(log'[i].action, x);
  }

  lemma StillUnclean(log: seq<Event>, log': seq<Event>, n0: nat, x: Case)
    requires log <= log' && !Clean(log, n0, x)
    ensures !Clean(log', n0, x)
  {
    if !AllRight(log, n0, x) {
      var i :| n0 <= i < |log| && !(!log[i].failed && Matches(log[i].action, x));
      assert log'[i] == log[i];
    } else {
      var n: nat, h :| n0 <= n && Walked(log, n, x.run.parentParts, h) && h.inode != x.parent;
      WalkedPrefix(log, log', n, x.run.parentParts, h);
    }
  }

  lemma StillHindered(log: seq<Event>, log': seq<Event>, n0: nat, loading: Loading, planning: Option<Failure>,
                      persist: Option<Persist>, expected: Expectation, parent: Inode, dir: Inode)
    requires log <= log' && Hindered(log, n0, loading, planning, persist, expected, parent, dir)
    ensures Hindered(log', n0, loading, planning, persist, expected, parent, dir)
  {
    if WrongReading(log, n0, 1, expected) {
      StillWrong(log, log', n0, 1, expected);
    } else if BadEnd(log, n0 + 2, expected, persist, parent, dir) {
      match persist {
        case None => StillWrong(log, log', n0 + 2, 4, expected);
        case Some(p) =>
          if WrongReading(log, n0 + 2, 2, expected) {
            StillWrong(log, log', n0 + 2, 2, expected);
          } else if MayPersist(p) {
            StillUnclean(log, log', n0 + 4, Case(p.entry.run, Some(expected), parent, dir));
          }
      }
    }
  }

  lemma StartsBody(captured: seq<Event>, log: seq<Event>, n0: nat, flow: Flow, path: Option<string>,
                   persist: Option<Persist>, expected: Expectation)
    requires |captured| == n0 + 1 && captured < log && captured[n0].action == ReadState(Some(expected.state))
    requires BodyEnds(log, n0 + 1, flow, path, persist, expected)
    requires flow.Completed? || PublishedIn(log, n0 + 1) ==>
               log[n0 + 1].action == ReadRevision(Some(expected.revision)) && IsRevision(expected.revision)
    ensures BodyEnds(log, n0, flow, path, persist, expected)
    ensures flow.Completed? || PublishedIn(log, n0) ==> StartedFrom(log, n0, expected)
  {
    BodyGrows(captured, log, n0, flow, path, persist, expected);
    LogGrows(captured, log, n0, expected);
  }

  lemma PlannedReported(log: seq<Event>, n0: nat, path: Option<string>, persist: Option<Persist>, expected: Expectation)
    requires BodyEnds(log, n0, Completed, path, persist, expected) && StartedFrom(log, n0, expected)
    ensures Reported(log, n0, Planned(path), persist, expected)
  { }

  lemma HandledReported(ended: seq<Event>, log: seq<Event>, n0: nat, flow: Flow, path: Option<string>,
                        persist: Option<Persist>, expected: Expectation, outcome: DryOutcome)
    requires n0 < |ended| && ended <= log && BodyEnds(ended, n0, flow, path, persist, expected)
    requires PublishedIn(ended, n0) ==> StartedFrom(ended, n0, expected)
    requires HandledAs(ended, log, flow, expected.state, outcome)
    ensures Reported(log, n0, outcome, persist, expected)
  {
    if log != ended {
      HandlerCheck(ended, log, n0, expected);
    }
  }

  lemma HandlerCheck(ended: seq<Event>, log: seq<Event>, n0: nat, expected: Expectation)
    requires n0 <= |ended| && ended <= log && |log| == |ended| + 1 && log[|ended|].action.ReadState?
    requires PublishedChecked(ended, n0, expected)
    ensures PublishedChecked(log, n0, expected)
    ensures PublishedIn(log, n0) <==> PublishedIn(ended, n0)
  {
    forall i | n0 <= i < |ended| ensures log[i] == ended[i] { }
  }
}

/** Complete logs on which a close is lost in the walk, and on which the evidence path is lost. */
module ExampleRuns {
  import opened Bytes
  import opened Wrappers
  import opened FileSystem
  import opened DirectoryWalk
  import opened PublicationLog
  import opened EvidenceFiles
  import opened Confirmation
  import opened EvidencePublication
  import opened DryRun

  /** A call that succeeds and changes nothing. */
  function Seen(a: Action, w: World): Event {
    Event(a, w, w, false)
  }

  // ----- a walk to one component below the root -----

  function WalkLog(part: Name, inode: Inode, w: World, fails: bool): seq<Event> {
    [Seen(OpenRoot(Some(0)), w), Seen(OpenPart(0, ROOT, part, Some(Handle(1, inode))), w), Event(Close(0), w, w, fails)] +
    if fails then [Event(Close(0), w, w, true)] else []
  }

  /** When the close of the root succeeds, the walk has arrived; when it fails, the root is closed twice and the component
      stays open. */
  lemma WalkBothWays(part: Name, inode: Inode, w: World, fails: bool)
    requires (ROOT, part) in w.elsewhere && w.elsewhere[(ROOT, part)] == inode
    ensures var log := WalkLog(part, inode, w, fails);
            && WalkCalls(log, 0, 0, 2)
            && (CloseLost(log, 0) <==> fails) && (ClosesOnce(log, 0) <==> !fails)
            && (fails ==> Ended(log, 0, Broken("bad descriptor"), map[], map[1 := inode], 0))
            && (!fails ==> Walking(log, 0, [part], Handle(1, inode), 0))
  {
    var log := WalkLog(part, inode, w, fails);
    if fails {
      assert Lost(log, 2);
      assert log[2].action == log[3].action;
      Leaks(map[], Handle(1, inode), 0);
      assert map[1 := inode] == map[][1 := inode];
    } else {
      assert StepsTo(log, 0, 0, part);
      assert forall i :: 0 <= i < |log| ==> !Lost(log, i);
    }
  }

  /** A payload name that came to stand for a directory: it is opened, but not wrapped, and stays open. */
  lemma DirectoryStaysOpen(dir: Inode, name: Name, inode: Inode, w: World)
    requires w.Names(dir, name, inode) && w.IsDirectory(inode)
    ensures var log := [Seen(OpenFile(dir, name, Some(Handle(2, inode))), w), Event(Wrap(2), w, w, true)];
            && ReadCalls(log, 0, dir) && Unwrapped(log, 0) && !CloseLost(log, 0)
            && HeldOn(map[], map[2 := inode], Leaked(log, 0), 2)
  {
    var log := [Seen(OpenFile(dir, name, Some(Handle(2, inode))), w), Event(Wrap(2), w, w, true)];
    LeftOpen(log[1..], 0, map[], Handle(2, inode), 2);
    assert WrapFailed(log[1]);
    assert map[2 := inode] == map[][2 := inode];
  }

  // ----- a publication whose parent cannot be synced -----

  datatype Example = Example(revision: string, state: Bytes, run: Run) {
    predicate Valid() {
      IsRevision(revision) && run.staging != run.target
    }

    function Expected(): Expectation {
      Expectation(revision, state)
    }
  }

  const PARENT: Fd := 0
  const STAGING: Fd := 1
  const DIR: Inode := 1
  const HOME: Inode := 9

  function Start(x: Example): World {
    World(map[], map[], map[], x.revision, x.state)
  }

  /** A new file of the staging directory, empty. */
  function Create(w: World, name: Name, inode: Inode): (r: World)
    requires w.IsDirectory(DIR)
    ensures r.entries == w.entries
  {
    w.(objects := w.objects[inode := File([])][DIR := Directory(w.objects[DIR].files[name := inode])])
  }

  function Store(w: World, inode: Inode, data: Bytes): World {
    w.(objects := w.objects[inode := File(data)])
  }

  /** The first files are there. */
  function Stored(x: Example, j: nat): (w: World)
    requires j <= 4
    ensures w.entries == map[x.run.staging := DIR] && w.IsDirectory(DIR)
  {
    if j == 0 then World(map[x.run.staging := DIR], map[DIR := Directory(map[])], map[], x.revision, x.state)
    else Store(Create(Stored(x, j - 1), EVIDENCE_FILES[j - 1], j + 1), j + 1, x.run.bundle.Payloads()[j - 1])
  }

  function WriteCalls(x: Example, j: nat): seq<Event>
    requires j < 4
  {
    var name, w := EVIDENCE_FILES[j], Create(Stored(x, j), EVIDENCE_FILES[j], j + 2);
    [Event(CreateFile(DIR, name, Some(Handle(j + 2, j + 2))), Stored(x, j), w, false),
     Seen(Wrap(j + 2), w),
     Event(WriteFile(DIR, name, x.run.bundle.Payloads()[j]), w, Stored(x, j + 1), false)]
  }

  function ReadCallsOf(x: Example, j: nat): seq<Event>
    requires j < 4
  {
    var name, h, w := EVIDENCE_FILES[j], Handle(j + 6, j + 2), Stored(x, 4);
    [Seen(OpenFile(DIR, name, Some(h)), w), Seen(Wrap(h.fd), w),
     Seen(ReadFile(h, name, Some(x.run.bundle.Payloads()[j])), w)]
  }

  function Writes(x: Example, n: nat): seq<Event>
    requires n <= 4
  {
    if n == 0 then [] else Writes(x, n - 1) + WriteCalls(x, n - 1)
  }

  function Reads(x: Example, n: nat): seq<Event>
    requires n <= 4
  {
    if n == 0 then [] else Reads(x, n - 1) + ReadCallsOf(x, n - 1)
  }

  /** The calls before anything is staged, and the staging directory. */
  function Head(x: Example): seq<Event> {
    [Seen(ReadState(Some(x.state)), Start(x)), Seen(ReadRevision(Some(x.revision)), Start(x)),
     Seen(ReadRevision(Some(x.revision)), Start(x)), Seen(ReadState(Some(x.state)), Start(x)),
     Event(MakeDir(x.run.staging, true), Start(x), Stored(x, 0), false),
     Seen(OpenDir(x.run.staging, Some(DIR)), Stored(x, 0))]
  }

  function Guard(x: Example): seq<Event> {
    [Seen(Sync(DIR), Stored(x, 4)),
     Seen(ReadRevision(Some(x.revision)), Stored(x, 4)), Seen(ReadState(Some(x.state)), Stored(x, 4))]
  }

  /** The four files are written, listed, read back and synced, and the repository is looked at again. */
  function Filling(x: Example): seq<Event> {
    (Writes(x, 4) + [Seen(ListDir(DIR, Some(EVIDENCE_FILES)), Stored(x, 4))]) + (Reads(x, 4) + Guard(x))
  }

  function Prepared(x: Example): seq<Event> {
    Head(x) + Filling(x)
  }

  function Published(x: Example): World {
    Stored(x, 4).(entries := map[x.run.target := DIR])
  }

  /** The rename succeeds, but the parent cannot be synced. */
  function Attempted(x: Example): seq<Event> {
    Prepared(x) + RenameThenSync(x.run, Stored(x, 4))
  }

  function RenameThenSync(run: Run, w: World): seq<Event> {
    var w' := w.(entries := map[run.target := DIR]);
    [Event(Rename(run.staging, run.target, true), w, w', false), Event(Sync(HOME), w', w', true)]
  }

  /** Syncing the parent failed; both descriptors are closed. */
  function Finished(x: Example): seq<Event> {
    Attempted(x) + Closes(Published(x))
  }

  /** The handler finds this state. */
  function RunLog(x: Example, last: Bytes): seq<Event> {
    Finished(x) + [Seen(ReadState(Some(last)), Published(x).(state := last))]
  }

  // ----- the log is one of a publication -----

  /** A file more: the others stay. */
  lemma FileAdded(w: World, name: Name, inode: Inode, data: Bytes)
    requires w.IsDirectory(DIR) && inode != DIR && name !in w.objects[DIR].files
    requires forall n :: n in w.objects[DIR].files ==> w.objects[DIR].files[n] != inode && w.objects[DIR].files[n] != DIR
    ensures var r := Store(Create(w, name, inode), inode, data);
            && r.IsDirectory(DIR) && r.objects[DIR].files == w.objects[DIR].files[name := inode]
            && FileIs(r, DIR, name, data)
            && forall n, d :: FileIs(w, DIR, n, d) ==> FileIs(r, DIR, n, d)
  { }

  lemma NamesDiffer()
    ensures forall i, j :: 0 <= i < j < 4 ==> EVIDENCE_FILES[i] != EVIDENCE_FILES[j]
  {
    assert EVIDENCE_FILES[0][0] == 't' && EVIDENCE_FILES[1][0] == 'h' && EVIDENCE_FILES[2][0] == 'v';
    assert EVIDENCE_FILES[3][0] == 'r';
  }

  lemma {:induction false} StoredHolds(x: Example, j: nat)
    requires j <= 4
    ensures forall i :: 0 <= i < j ==> FileIs(Stored(x, j), DIR, EVIDENCE_FILES[i], x.run.bundle.Payloads()[i])
  {
    if j > 0 {
      var w, name := Stored(x, j - 1), EVIDENCE_FILES[j - 1];
      StoredHolds(x, j - 1);
      StoredNames(x, j - 1);
      NamesDiffer();
      assert name !in EVIDENCE_FILES[..j - 1];
      FileAdded(w, name, j + 1, x.run.bundle.Payloads()[j - 1]);
    }
  }

  lemma {:induction false} StoredNames(x: Example, j: nat)
    requires j <= 4
    ensures forall n :: n in Stored(x, j).objects[DIR].files <==> n in EVIDENCE_FILES[..j]
    ensures forall n :: n in Stored(x, j).objects[DIR].files ==> 2 <= Stored(x, j).objects[DIR].files[n] < j + 2
  {
    if j > 0 {
      StoredNames(x, j - 1);
      assert EVIDENCE_FILES[..j] == EVIDENCE_FILES[..j - 1] + [EVIDENCE_FILES[j - 1]];
    }
  }

  lemma StoredContains(x: Example)
    ensures Stored(x, 4).Contains(DIR, x.run.bundle.Files())
  {
    StoredHolds(x, 4);
    StoredNames(x, 4);
    assert EVIDENCE_FILES[..4] == EVIDENCE_FILES;
    assert Stored(x, 4).objects[DIR].files.Keys == set n | n in EVIDENCE_FILES;
    FilesByContents(Stored(x, 4), DIR, x.run.bundle);
  }

  lemma Joined(a: seq<Event>, b: seq<Event>)
    requires StagingCalls(a, 0, DIR) && StagingCalls(b, 0, DIR) && !Unwrapped(a, 0) && !Unwrapped(b, 0)
    ensures StagingCalls(a + b, 0, DIR) && !Unwrapped(a + b, 0)
  {
    forall i | 0 <= i < |a + b| ensures !WrapFailed((a + b)[i]) {
      if i < |a| {
        assert !WrapFailed(a[i]);
      } else {
        assert !WrapFailed(b[i - |a|]);
      }
    }
  }

  lemma {:induction false} WritesStage(x: Example, n: nat)
    requires n <= 4
    ensures StagingCalls(Writes(x, n), 0, DIR) && !Unwrapped(Writes(x, n), 0)
  {
    if n > 0 {
      WritesStage(x, n - 1);
      Joined(Writes(x, n - 1), WriteCalls(x, n - 1));
    }
  }

  lemma {:induction false} ReadsStage(x: Example, n: nat)
    requires n <= 4
    ensures StagingCalls(Reads(x, n), 0, DIR) && !Unwrapped(Reads(x, n), 0)
  {
    if n > 0 {
      ReadsStage(x, n - 1);
      Joined(Reads(x, n - 1), ReadCallsOf(x, n - 1));
    }
  }

  lemma FillingStages(x: Example)
    ensures StagingCalls(Filling(x), 0, DIR) && !Unwrapped(Filling(x), 0)
    ensures ReadyToRename(Filling(x), 0, Some(x.Expected()), DIR)
  {
    var listing := [Seen(ListDir(DIR, Some(EVIDENCE_FILES)), Stored(x, 4))];
    WritesStage(x, 4);
    ReadsStage(x, 4);
    Joined(Writes(x, 4), listing);
    Joined(Reads(x, 4), Guard(x));
    Joined(Writes(x, 4) + listing, Reads(x, 4) + Guard(x));
  }

  lemma Shifted(head: seq<Event>, rest: seq<Event>, guard: Option<Expectation>)
    requires StagingCalls(rest, 0, DIR) && !Unwrapped(rest, 0) && ReadyToRename(rest, 0, guard, DIR)
    ensures StagingCalls(head + rest, |head|, DIR) && !Unwrapped(head + rest, |head|)
    ensures ReadyToRename(head + rest, |head|, guard, DIR)
  {
    var log := head + rest;
    forall i | |head| <= i < |log| ensures log[i] == rest[i - |head|] && !WrapFailed(log[i]) {
      assert !WrapFailed(rest[i - |head|]);
    }
  }

  lemma PreparedCalls(x: Example)
    requires x.Valid()
    ensures PreparationCalls(Prepared(x), 4, x.run, DIR) && MadeDir(Prepared(x), 4, x.run, DIR)
    ensures !Unwrapped(Prepared(x), 4) && ReadyToRename(Prepared(x), 4, Some(x.Expected()), DIR)
  {
    FillingStages(x);
    Shifted(Head(x), Filling(x), Some(x.Expected()));
    PreparationExtends(Head(x), Prepared(x), 4, x.run, DIR);
    ReadyLater(Head(x), Prepared(x), 4, Some(x.Expected()), DIR);
  }

  const WHOLE := Progress(true, Some(STAGING), true)

  lemma AttemptedCalls(x: Example)
    requires x.Valid()
    ensures AttemptLog(Attempted(x), 4, x.run, DIR, Some(x.Expected()), WHOLE, STAGING)
    ensures Attempted(x)[4].action == MakeDir(x.run.staging, true)
  {
    PreparedCalls(x);
    StoredContains(x);
    RenameDone(Prepared(x), Stored(x, 4), x.run, Some(x.Expected()));
  }

  lemma RenameDone(prepared: seq<Event>, w: World, run: Run, guard: Option<Expectation>)
    requires 4 < |prepared| && PreparationCalls(prepared, 4, run, DIR) && MadeDir(prepared, 4, run, DIR)
    requires !Unwrapped(prepared, 4) && ReadyToRename(prepared, 4, guard, DIR) && run.staging != run.target
    requires w.entries == map[run.staging := DIR] && w.Contains(DIR, run.bundle.Files())
    ensures var log := prepared + RenameThenSync(run, w);
            AttemptLog(log, 4, run, DIR, guard, WHOLE, STAGING) && log[4].action == MakeDir(run.staging, true)
  {
    var tail := RenameThenSync(run, w);
    RenamePublishes(w, run);
    OneSync(prepared, tail);
    AttemptFromParts(prepared + tail, prepared, 4, run, DIR, guard, WHOLE, STAGING);
  }

  lemma RenamePublishes(w: World, run: Run)
    requires w.entries == map[run.staging := DIR] && w.Contains(DIR, run.bundle.Files()) && run.staging != run.target
    ensures Publishes(RenameThenSync(run, w)[0], run, DIR)
  {
    assert RenameThenSync(run, w)[0].after.Contains(DIR, run.bundle.Files());
  }

  lemma OneSync(prepared: seq<Event>, tail: seq<Event>)
    requires |tail| == 2 && tail[1].action.Sync? && EntriesKept(tail[1])
    ensures ConfirmCalls(prepared + tail, |prepared| + 1, STAGING + 1) && (prepared + tail)[|prepared|] == tail[0]
  { }

  /** Staging and parent closed. */
  function Closes(w: World): seq<Event> {
    [Seen(Close(STAGING), w), Seen(Close(PARENT), w)]
  }

  lemma ClosesAreFinally(w: World, run: Run)
    ensures Actions(Closes(w)) == FinallyActions(run, DIR, WHOLE, PARENT, None, Exit.Finished)
  {
    assert Actions(Closes(w)) == [Close(STAGING)] + [Close(PARENT)];
    assert FinallyActions(run, DIR, WHOLE, PARENT, None, Exit.Finished) == [Close(STAGING)] + [Close(PARENT)];
  }

  lemma ClosesClean(attempted: seq<Event>, w: World, run: Run)
    ensures CleanupCalls(attempted + Closes(w), |attempted|, run, DIR)
    ensures (attempted + Closes(w))[|attempted|..] == Closes(w)
  { }

  lemma BothClosed(attempted: seq<Event>, w: World, n0: nat, run: Run, guard: Option<Expectation>)
    requires n0 < |attempted| && AttemptLog(attempted, n0, run, DIR, guard, WHOLE, STAGING)
    requires attempted[n0].action == MakeDir(run.staging, true)
    ensures var log := attempted + Closes(w);
            && SafeRun(log, n0, run, DIR, guard) && Accounted(log, n0, run, WHOLE, PARENT, Exit.Finished)
            && Actions(log[|attempted|..]) == FinallyActions(run, DIR, WHOLE, PARENT, None, Exit.Finished)
  {
    var log := attempted + Closes(w);
    ClosesClean(attempted, w, run);
    ClosesAreFinally(w, run);
    WholeRun(log, attempted, n0, run, DIR, guard, WHOLE, PARENT, STAGING, None, Exit.Finished);
  }

  // ----- what the dry run reports -----

  /** What the publication raises, and what comes out of the handler. */
  function Unsynced(x: Example, detail: string): RunnerError {
    PublishedError("OUTPUT_DURABILITY_UNCONFIRMED", x.run, [detail])
  }

  function Result(x: Example, detail: string, last: Bytes): DryOutcome {
    DryOutcome.Failed(if last == x.state then Unsynced(x, detail) else Fail("REPO_MUTATED_DURING_DRY_RUN"))
  }

  /** The four calls before the publication. */
  ghost predicate Begins(log: seq<Event>, expected: Expectation) {
    && |log| > 4 && IsRevision(expected.revision)
    && log[0].action == ReadState(Some(expected.state)) && log[1].action == ReadRevision(Some(expected.revision))
    && log[2].action.ReadRevision? && log[3].action.ReadState?
  }

  lemma BodyOf(log: seq<Event>, m: nat, run: Run, expected: Expectation, persist: Persist, error: RunnerError)
    requires Begins(log, expected) && m <= |log| && SafeRun(log, 4, run, DIR, Some(expected))
    requires Accounted(log, 4, run, WHOLE, PARENT, Exit.Finished)
    requires Actions(log[m..]) == FinallyActions(run, DIR, WHOLE, PARENT, None, Exit.Finished)
    requires MayPersist(persist) && persist.entry == Ready(PARENT, run) && error.evidencePath == Some(run.display)
    ensures BodyEnds(log, 4, Runner(error), None, Some(persist), expected) && PublishedIn(log, 4)
  {
    Persisted(log, 4, m, PARENT, run, DIR, WHOLE, None, Exit.Finished, expected, Raised(error));
  }

  lemma FromTheBeginning(log: seq<Event>, expected: Expectation, persist: Persist, error: RunnerError)
    requires Begins(log, expected) && BodyEnds(log, 4, Runner(error), None, Some(persist), expected) && PublishedIn(log, 4)
    ensures BodyEnds(log, 0, Runner(error), None, Some(persist), expected)
    ensures PublishedIn(log, 0) && StartedFrom(log, 0, expected)
  {
    var four, one := log[..4], log[..1];
    BodyGrows(four, log, 1, Runner(error), None, Some(persist), expected);
    LogGrows(four, log, 1, expected);
    StartsBody(one, log, 0, Runner(error), None, Some(persist), expected);
    LogGrows(one, log, 0, expected);
  }

  /** From a try block that published to what the handler reports. */
  lemma ToTheEnd(attempted: seq<Event>, w: World, w': World, run: Run, expected: Expectation, persist: Persist,
                 error: RunnerError, last: Bytes, outcome: DryOutcome)
    requires AttemptLog(attempted, 4, run, DIR, Some(expected), WHOLE, STAGING) && Begins(attempted, expected)
    requires attempted[4].action == MakeDir(run.staging, true)
    requires MayPersist(persist) && persist.entry == Ready(PARENT, run) && error.evidencePath == Some(run.display)
    requires error.code !in GUARDED_CODES && outcome.Failed?
    requires outcome.error == if last == expected.state then error else Fail("REPO_MUTATED_DURING_DRY_RUN")
    ensures var ended := attempted + Closes(w);
            var log := ended + [Seen(ReadState(Some(last)), w')];
            && SafeRun(ended, 4, run, DIR, Some(expected))
            && PublishedIn(log, 0) && Reported(log, 0, outcome, Some(persist), expected)
            && (RecheckFailed(log, expected) <==> last != expected.state)
  {
    var ended := attempted + Closes(w);
    BothClosed(attempted, w, 4, run, Some(expected));
    BodyOf(ended, |attempted|, run, expected, persist, error);
    FromTheBeginning(ended, expected, persist, error);
    Handled(ended, w', persist, expected, error, last, outcome);
  }

  /** The calls of the publication are those of a run over which the target changes once. */
  lemma FinishedIsSafe(x: Example)
    requires x.Valid()
    ensures SafeRun(Finished(x), 4, x.run, DIR, Some(x.Expected()))
    ensures TargetChangesOnce(Finished(x), 4, x.run, DIR, Some(x.Expected()))
  {
    AttemptedCalls(x);
    BothClosed(Attempted(x), Published(x), 4, x.run, Some(x.Expected()));
    SafeRunChangesOnce(Finished(x), 4, x.run, DIR, Some(x.Expected()));
  }

  /** One published bundle, reported with its path when the state is as before, and without when it has changed. */
  lemma PathLostAfterPublication(x: Example, persist: Persist, detail: string, last: Bytes)
    requires x.Valid() && MayPersist(persist) && persist.entry == Ready(PARENT, x.run)
    ensures var log, outcome := RunLog(x, last), Result(x, detail, last);
            && PublishedIn(log, 0) && Reported(log, 0, outcome, Some(persist), x.Expected())
            && (RecheckFailed(log, x.Expected()) <==> last != x.state)
            && outcome.error.evidencePath == if last == x.state then Some(x.run.display) else None
  {
    AttemptedCalls(x);
    Began(x);
    ToTheEnd(Attempted(x), Published(x), Published(x).(state := last), x.run, x.Expected(), persist,
             Unsynced(x, detail), last, Result(x, detail, last));
  }

  lemma Began(x: Example)
    requires x.Valid()
    ensures Begins(Attempted(x), x.Expected())
  {
    assert Head(x) <= Prepared(x) <= Attempted(x);
  }

  lemma Handled(ended: seq<Event>, w: World, persist: Persist, expected: Expectation, error: RunnerError, last: Bytes,
                outcome: DryOutcome)
    requires 0 < |ended| && BodyEnds(ended, 0, Runner(error), None, Some(persist), expected)
    requires PublishedIn(ended, 0) && StartedFrom(ended, 0, expected) && error.code !in GUARDED_CODES
    requires outcome.Failed? && (outcome.error == if last == expected.state then error else Fail("REPO_MUTATED_DURING_DRY_RUN"))
    ensures var log := ended + [Seen(ReadState(Some(last)), w)];
            && PublishedIn(log, 0) && Reported(log, 0, outcome, Some(persist), expected)
            && (RecheckFailed(log, expected) <==> last != expected.state)
  {
    var log := ended + [Seen(ReadState(Some(last)), w)];
    HandlerCheck(ended, log, 0, expected);
    HandledReported(ended, log, 0, Runner(error), None, Some(persist), expected, outcome);
  }
}

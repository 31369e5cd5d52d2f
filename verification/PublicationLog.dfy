/** run_task: what the calls of one publication may be, and what explains the way it ends. */
module PublicationLog {
  import opened Bytes
  import opened Wrappers
  import opened FileSystem
  import opened DirectoryWalk

  datatype RunnerError = RunnerError(code: string, evidencePath: Option<string>, cleanupErrors: seq<string>)

  /** How a block ends: normally, with a runner error, an OSError, or an exception of another kind. */
  datatype Flow = Completed | Runner(error: RunnerError) | Os(detail: string) | Foreign

  const EVIDENCE_FILES: seq<Name> := ["task.yml", "handoff.json", "validation.json", "run-result.json"]

  datatype Bundle = Bundle(task: Bytes, handoff: Bytes, validation: Bytes, runResult: Bytes) {
    function Payloads(): seq<Bytes> {
      [task, handoff, validation, runResult]
    }

    function Files(): map<Name, Bytes> {
      map["task.yml" := task, "handoff.json" := handoff, "validation.json" := validation, "run-result.json" := runResult]
    }
  }

  /** One publication: its names in the parent directory, the components of the parent's path, the path shown to the
      user, the bytes. */
  datatype Run = Run(staging: Name, target: Name, parentParts: seq<Name>, display: string, bundle: Bundle)

  /** What the guard of `_run_dry_run` compares the repository with. */
  datatype Expectation = Expectation(revision: string, state: Bytes)

  function Fail(code: string): RunnerError {
    RunnerError(code, None, [])
  }

  function PublishedError(code: string, run: Run, details: seq<string>): RunnerError {
    RunnerError(code, Some(run.display), details)
  }

  // ----- what a log of system calls may contain -----

  ghost predicate TargetKept(e: Event, target: Name) {
    && (target in e.before.entries <==> target in e.after.entries)
    && (target in e.before.entries ==> e.after.entries[target] == e.before.entries[target])
  }

  /** The atomic step: the target name goes from absent to the directory with exactly the four payloads. */
  ghost predicate Publishes(e: Event, run: Run, dir: Inode) {
    && e.action == Rename(run.staging, run.target, true)
    && run.target !in e.before.entries
    && e.before.Holds(run.staging, dir, run.bundle.Files())
    && e.after.Holds(run.target, dir, run.bundle.Files())
  }

  predicate IsPublication(a: Action) {
    a.Rename? && a.done
  }

  predicate IsRemoval(a: Action) {
    a.Unlink? || a.RemoveDir?
  }

  /** The directory this run made, if its first call made one. */
  ghost predicate MadeDir(log: seq<Event>, n0: nat, run: Run, dir: Inode) {
    && n0 < |log|
    && log[n0].action == MakeDir(run.staging, true)
    && dir !in log[n0].before.objects
    && run.staging in log[n0].after.entries && log[n0].after.entries[run.staging] == dir
  }

  /** The repository was read, and equal to the expectation, in the two calls before position i. */
  ghost predicate Rechecked(log: seq<Event>, n0: nat, i: nat, guard: Option<Expectation>)
    requires i < |log|
  {
    guard.Some? ==>
      && n0 + 2 <= i
      && log[i - 2].action == ReadRevision(Some(guard.value.revision))
      && log[i - 1].action == ReadState(Some(guard.value.state))
  }

  /** The directory was synced just before the recheck. */
  ghost predicate SyncedAt(log: seq<Event>, n0: nat, i: nat, guard: Option<Expectation>, dir: Inode)
    requires i < |log|
  {
    var j := i - if guard.Some? then 3 else 1;
    n0 <= j && log[j].action == Sync(dir) && !log[j].failed
  }

  /** The target name changes only by publication, of which there is at most one, synced and rechecked just before. */
  ghost predicate TargetDiscipline(log: seq<Event>, n0: nat, run: Run, dir: Inode, guard: Option<Expectation>) {
    && (forall i :: n0 <= i < |log| ==> TargetKept(log[i], run.target) || Publishes(log[i], run, dir))
    && (forall i :: n0 <= i < |log| && IsPublication(log[i].action) ==>
          Publishes(log[i], run, dir) && Rechecked(log, n0, i, guard) && SyncedAt(log, n0, i, guard, dir))
    && (forall i, j :: n0 <= i < j < |log| && IsPublication(log[i].action) ==> !IsPublication(log[j].action))
  }

  ghost predicate PublishedIn(log: seq<Event>, n0: nat) {
    exists i :: n0 <= i < |log| && IsPublication(log[i].action)
  }

  ghost predicate NoRemovals(log: seq<Event>, n0: nat) {
    forall i :: n0 <= i < |log| ==> !IsRemoval(log[i].action)
  }

  /** Files and directories are removed only in the directory this run made, while it has its staging name. */
  ghost predicate RemovesOnlyOwn(log: seq<Event>, n0: nat, run: Run, dir: Inode) {
    forall i :: n0 <= i < |log| ==>
      match log[i].action
      case Unlink(d, _) => d == dir
      case RemoveDir(name) =>
        name == run.staging && name in log[i].before.entries && log[i].before.entries[name] == dir
      case CreateFile(d, _, _) => d == dir
      case WriteFile(d, _, _) => d == dir
      case _ => true
  }

  ghost predicate ClosedIn(log: seq<Event>, n0: nat, fd: Fd) {
    exists i :: n0 <= i < |log| && log[i].action == Close(fd)
  }

  // ----- descriptors that stay open -----

  /** A file was opened, and no file object took its descriptor. */
  ghost predicate WrapFailed(e: Event) {
    e.action.Wrap? && e.failed
  }

  ghost predicate Unwrapped(log: seq<Event>, n0: nat) {
    exists i :: n0 <= i < |log| && WrapFailed(log[i])
  }

  /** A descriptor is lost: by a close that fails in the walk, or by a file that could not be wrapped. */
  ghost predicate Leaked(log: seq<Event>, n0: nat) {
    CloseLost(log, n0) || Unwrapped(log, n0)
  }

  /** The descriptors are as before, but for one that is left open. */
  ghost predicate HeldOn(before: map<Fd, Inode>, after: map<Fd, Inode>, lost: bool, fd0: Fd) {
    if lost then LeaksOne(before, after, fd0) else after == before
  }

  lemma UnwrappedExtends(log: seq<Event>, log': seq<Event>, n0: nat)
    requires n0 <= |log| && log <= log' && !Unwrapped(log, n0)
    ensures Unwrapped(log', n0) <==> Unwrapped(log', |log|)
  {
    forall i | n0 <= i < |log| ensures !WrapFailed(log'[i]) {
      assert log'[i] == log[i];
    }
    if Unwrapped(log', |log|) {
      var i :| |log| <= i < |log'| && WrapFailed(log'[i]);
      assert n0 <= i;
    }
  }

  // ----- what a run runs into -----

  /** What decides how a publication ends: the run, the guard, and the two directories. */
  datatype Case = Case(run: Run, guard: Option<Expectation>, parent: Inode, dir: Inode)

  /** What this call found is what it should find. */
  predicate Matches(a: Action, x: Case) {
    match a
    case ReadRevision(revision) => x.guard.Some? ==> revision == Some(x.guard.value.revision)
    case ReadState(state) => x.guard.Some? ==> state == Some(x.guard.value.state)
    case ReadFile(_, name, bytes) => name in x.run.bundle.Files() ==> bytes == Some(x.run.bundle.Files()[name])
    case OpenDir(name, inode) => name == x.run.target ==> inode == Some(x.dir)
    case _ => true
  }

  ghost predicate AllRight(log: seq<Event>, n0: nat, x: Case) {
    forall i :: n0 <= i < |log| ==> !log[i].failed && Matches(log[i].action, x)
  }

  /** A walk along the parent's path arrived in another directory. */
  ghost predicate LedElsewhere(log: seq<Event>, n0: nat, x: Case) {
    exists n: nat, h :: n0 <= n && Walked(log, n, x.run.parentParts, h) && h.inode != x.parent
  }

  /** No call failed, and all found what they should. */
  ghost predicate Clean(log: seq<Event>, n0: nat, x: Case) {
    AllRight(log, n0, x) && !LedElsewhere(log, n0, x)
  }

  /** The call is why the block ends this way, before or after the rename. */
  predicate Blames(e: Event, x: Case, published: bool, flow: Flow) {
    match flow
    case Completed => false
    case Foreign => e.failed && (e.action.ReadRevision? || e.action.ReadState?)
    case Os(_) =>
      e.failed &&
      (match e.action
       case Rename(_, _, _) => false
       case OpenPart(_, _, _, _) => false
       case OpenDir(name, _) => name != x.run.target
       case Sync(_) => !published
       case _ => true)
    case Runner(error) =>
      match e.action
      case ReadRevision(_) =>
        e.failed || (!Matches(e.action, x) && error.code == "SOURCE_REVISION_CHANGED_DURING_DRY_RUN")
      case ReadState(_) => e.failed || (!Matches(e.action, x) && error.code == "REPO_MUTATED_DURING_DRY_RUN")
      case ReadFile(_, _, _) => !e.failed && !Matches(e.action, x) && error.code == "RUN_EVIDENCE_WRITE_MISMATCH"
      case Rename(_, _, _) =>
        && e.failed
        && (error.code == "OUTPUT_ATOMIC_PUBLISH_UNAVAILABLE" || error.code == "OUTPUT_DIR_EXISTS"
            || error.code == "OUTPUT_WRITE_FAILED")
      case Sync(_) => e.failed && published && error.code == "OUTPUT_DURABILITY_UNCONFIRMED"
      case OpenPart(_, _, _, _) =>
        e.failed && (error.code == "OUTPUT_LOCATION_CHANGED" || error.code == "OUTPUT_FINALIZATION_UNCONFIRMED")
      case OpenDir(name, _) =>
        name == x.run.target && (e.failed || !Matches(e.action, x)) && error.code == "OUTPUT_LOCATION_CHANGED"
      case _ => false
  }

  ghost predicate Explained(log: seq<Event>, n0: nat, x: Case, published: bool, flow: Flow) {
    || (exists i :: n0 <= i < |log| && Blames(log[i], x, published, flow))
    || (LedElsewhere(log, n0, x) && published && flow.Runner? && flow.error.code == "OUTPUT_LOCATION_CHANGED")
  }

  /** The block completes with every call right, or there is a call that explains its error. */
  ghost predicate Ends(log: seq<Event>, n0: nat, x: Case, published: bool, flow: Flow) {
    if flow.Completed? then AllRight(log, n0, x) else Explained(log, n0, x, published, flow)
  }

  lemma EndsExtends(log: seq<Event>, log': seq<Event>, n0: nat, x: Case, published: bool, flow: Flow)
    requires n0 <= |log| && log <= log' && AllRight(log, n0, x) && Ends(log', |log|, x, published, flow)
    ensures Ends(log', n0, x, published, flow)
  {
    if flow.Completed? {
      forall i | n0 <= i < |log| ensures log'[i] == log[i] { }
    } else if i :| |log| <= i < |log'| && Blames(log'[i], x, published, flow) {
      assert n0 <= i < |log'| && Blames(log'[i], x, published, flow);
    } else {
      var n: nat, h :| |log| <= n && Walked(log', n, x.run.parentParts, h) && h.inode != x.parent;
      assert n0 <= n && Walked(log', n, x.run.parentParts, h);
    }
  }

  lemma ExplainedIsUnclean(log: seq<Event>, n0: nat, x: Case, published: bool, flow: Flow)
    requires Explained(log, n0, x, published, flow)
    ensures !Clean(log, n0, x)
  { }

  /** Without closes and walks before position m, only those from m on count. */
  lemma ClosesAfter(log: seq<Event>, n0: nat, m: nat)
    requires n0 <= m <= |log|
    requires forall i :: n0 <= i < m ==> !log[i].action.Close? && !log[i].action.OpenPart?
    ensures ClosesOnce(log, n0) <==> ClosesOnce(log, m)
    ensures CloseLost(log, n0) <==> CloseLost(log, m)
  {
    if CloseLost(log, n0) {
      var i :| n0 < i < |log| && Lost(log, i);
      assert m < i && Lost(log, i);
    }
    if CloseLost(log, m) {
      var i :| m < i < |log| && Lost(log, i);
      assert n0 < i && Lost(log, i);
    }
  }

  /** A pending error keeps its code and path; it only takes up the failure. */
  function TakeUp(pending: RunnerError, detail: string): RunnerError {
    pending.(cleanupErrors := pending.cleanupErrors + [detail])
  }
}

/** run_task: publishing an evidence bundle by staging, checking and one atomic rename. */
module EvidencePublication {
  import opened Wrappers
  import opened FileSystem
  import opened DirectoryWalk
  import opened PublicationLog
  import opened EvidenceFiles
  import opened Confirmation

  // ----- the try block -----

  /** What the finally block needs to know. */
  datatype Progress = Progress(created: bool, stagingFd: Option<Fd>, published: bool)

  /** Calls before the rename: the target name keeps its meaning, nothing is removed or closed. */
  ghost predicate PreparationCalls(log: seq<Event>, n0: nat, run: Run, dir: Inode) {
    forall i :: n0 <= i < |log| ==>
      && TargetKept(log[i], run.target)
      && match log[i].action
         case CreateFile(d, _, _) => d == dir
         case WriteFile(d, _, _) => d == dir
         case Rename(_, _, _) => false
         case Unlink(_, _) => false
         case RemoveDir(_) => false
         case OpenRoot(_) => false
         case OpenPart(_, _, _, _) => false
         case Close(_) => false
         case _ => true
  }

  /** The descriptors of the run: those it was called with, and that of its directory. */
  ghost function WithStaging(before: map<Fd, Inode>, stagingFd: Option<Fd>, dir: Inode): map<Fd, Inode> {
    match stagingFd
    case None => before
    case Some(fd) => before[fd := dir]
  }

  method OpenStaging(k: Kernel, run: Run, ghost guard: Option<Expectation>, ghost parent: Inode)
    returns (flow: Flow, created: bool, stagingFd: Option<Fd>, ghost dir: Inode)
    requires k.Valid() && k.staged == None && run.staging != run.target
    modifies k`world, k`staged, k`descriptors, k`nextFd, k`log
    ensures k.Valid() && old(k.log) < k.log
    ensures PreparationCalls(k.log, |old(k.log)|, run, dir)
    ensures created ==> MadeDir(k.log, |old(k.log)|, run, dir) && Staging(k.world, k.staged, run, dir)
    ensures !created ==> k.staged == None && |k.log| == |old(k.log)| + 1 && stagingFd == None
    ensures k.log[|old(k.log)|].action == Action.MakeDir(run.staging, created)
    ensures k.descriptors == WithStaging(old(k.descriptors), stagingFd, dir)
    ensures stagingFd.Some? ==> stagingFd == Some(old(k.nextFd)) && k.nextFd == old(k.nextFd) + 1
    ensures !Unwrapped(k.log, |old(k.log)|)
    ensures flow.Completed? ==> stagingFd.Some? && created && IsEmpty(k.world, dir)
    ensures flow.Completed? || flow.Os?
    ensures Ends(k.log, |old(k.log)|, Case(run, guard, parent, dir), false, flow)
  {
    var made := k.MakeDir(run.staging);
    ghost var log := k.log;
    if made.Failed? {
      flow, created, stagingFd, dir := Os(made.detail), false, None, 0;
      assert Blames(k.log[|old(k.log)|], Case(run, guard, parent, dir), false, flow);
      return;
    }
    created, stagingFd, dir := true, None, made.value;
    var found := k.OpenDir(run.staging);
    assert k.log[|old(k.log)|] == log[|old(k.log)|];
    if found.Failed? {
      flow := Os(found.detail);
      assert Blames(k.log[|log|], Case(run, guard, parent, dir), false, flow);
      return;
    }
    flow, stagingFd := Completed, Some(found.value);
  }

  /** Writes the four files, then lists and reads them back. */
  method FillStaging(k: Kernel, fd: Fd, run: Run, ghost dir: Inode, ghost x: Case) returns (flow: Flow)
    requires k.Valid() && fd in k.descriptors && k.descriptors[fd] == dir && x.run == run && x.dir == dir
    requires Staging(k.world, k.staged, run, dir)
    modifies k`world, k`descriptors, k`nextFd, k`log
    ensures k.Valid() && old(k.log) <= k.log && old(k.nextFd) <= k.nextFd && FileCalls(k.log, |old(k.log)|, dir)
    ensures Staging(k.world, k.staged, run, dir)
    ensures flow.Completed? ==> k.world.Contains(dir, run.bundle.Files()) && JustSynced(k.log, |old(k.log)|, dir)
    ensures HeldOn(old(k.descriptors), k.descriptors, Unwrapped(k.log, |old(k.log)|), old(k.nextFd))
    ensures Unwrapped(k.log, |old(k.log)|) ==> flow.Os?
    ensures flow.Completed? || flow.Os? || (flow.Runner? && flow.error.evidencePath == None)
    ensures IsEmpty(old(k.world), dir) ==> Ends(k.log, |old(k.log)|, x, false, flow)
    // the listing of a private directory is never incomplete
    ensures IsEmpty(old(k.world), dir) && flow.Runner? ==> flow.error.code == "RUN_EVIDENCE_WRITE_MISMATCH"
  {
    flow := WritePayloads(k, fd, run, dir);
    WritesEnd(k.log, |old(k.log)|, x, flow);
    if !flow.Completed? { return; }
    ghost var log := k.log;
    flow := CheckPayloads(k, fd, run, dir, x);
    FileCallsExtend(log, k.log, |old(k.log)|, dir);
    UnwrappedExtends(log, k.log, |old(k.log)|);
    if IsEmpty(old(k.world), dir) {
      EndsExtends(log, k.log, |old(k.log)|, x, false, flow);
    }
  }

  /** Calls on the files of the directory, or on the repository. */
  ghost predicate StagingCalls(log: seq<Event>, n0: nat, dir: Inode) {
    forall i :: n0 <= i < |log| ==>
      && EntriesKept(log[i])
      && match log[i].action
         case CreateFile(d, _, _) => d == dir
         case OpenFile(_, _, _) => true
         case Wrap(_) => true
         case WriteFile(d, _, _) => d == dir
         case ReadFile(_, _, _) => true
         case ListDir(_, _) => true
         case Sync(_) => true
         case ReadRevision(_) => true
         case ReadState(_) => true
         case _ => false
  }

  lemma FilesThenGuard(log: seq<Event>, log': seq<Event>, n0: nat, dir: Inode, guard: Option<Expectation>)
    requires n0 <= |log| && log <= log' && FileCalls(log, n0, dir) && GuardCalls(log', |log|) && !Unwrapped(log, n0)
    ensures StagingCalls(log', n0, dir) && !Unwrapped(log', n0)
    ensures JustSynced(log, n0, dir) && GuardMet(log', |log|, guard)
            && |log'| == |log| + (if guard.Some? then 2 else 0) ==>
              ReadyToRename(log', n0, guard, dir)
  {
    UnwrappedExtends(log, log', n0);
    forall i | n0 <= i < |log| ensures log'[i] == log[i] { }
  }

  /** The files, and then the guard. */
  method FillAndGuard(k: Kernel, fd: Fd, run: Run, guard: Option<Expectation>, ghost dir: Inode, ghost x: Case)
    returns (flow: Flow)
    requires k.Valid() && fd in k.descriptors && k.descriptors[fd] == dir
    requires x.run == run && x.dir == dir && x.guard == guard
    requires Staging(k.world, k.staged, run, dir)
    modifies k`world, k`descriptors, k`nextFd, k`log
    ensures k.Valid() && old(k.log) <= k.log && old(k.nextFd) <= k.nextFd && StagingCalls(k.log, |old(k.log)|, dir)
    ensures Staging(k.world, k.staged, run, dir)
    ensures flow.Completed? ==> k.world.Contains(dir, run.bundle.Files()) && ReadyToRename(k.log, |old(k.log)|, guard, dir)
    ensures HeldOn(old(k.descriptors), k.descriptors, Unwrapped(k.log, |old(k.log)|), old(k.nextFd))
    ensures Unwrapped(k.log, |old(k.log)|) ==> flow.Os?
    ensures flow.Runner? ==> flow.error.evidencePath == None
    ensures IsEmpty(old(k.world), dir) ==> Ends(k.log, |old(k.log)|, x, false, flow)
  {
    flow := FillStaging(k, fd, run, dir, x);
    if !flow.Completed? { return; }
    ghost var log, w := k.log, k.world;
    flow := PrePublishGuard(k, guard, x);
    FilesThenGuard(log, k.log, |old(k.log)|, dir, guard);
    ContainsKept(w, k.world, dir, run.bundle.Files());
    if IsEmpty(old(k.world), dir) {
      EndsExtends(log, k.log, |old(k.log)|, x, false, flow);
    }
  }

  method Prepare(k: Kernel, run: Run, guard: Option<Expectation>, ghost parent: Inode)
    returns (flow: Flow, created: bool, stagingFd: Option<Fd>, ghost dir: Inode)
    requires k.Valid() && k.staged == None && run.staging != run.target
    modifies k`world, k`staged, k`descriptors, k`nextFd, k`log
    ensures k.Valid() && old(k.log) < k.log
    ensures PreparationCalls(k.log, |old(k.log)|, run, dir)
    ensures created ==> MadeDir(k.log, |old(k.log)|, run, dir) && Staging(k.world, k.staged, run, dir)
    ensures !created ==> k.staged == None && |k.log| == |old(k.log)| + 1 && stagingFd == None
    ensures k.log[|old(k.log)|].action == Action.MakeDir(run.staging, created)
    ensures HeldOn(WithStaging(old(k.descriptors), stagingFd, dir), k.descriptors, Unwrapped(k.log, |old(k.log)|),
                   old(k.nextFd) + 1)
    ensures Unwrapped(k.log, |old(k.log)|) ==> flow.Os?
    ensures stagingFd.Some? ==> stagingFd == Some(old(k.nextFd)) && k.nextFd > old(k.nextFd)
    ensures flow.Completed? ==>
              && stagingFd.Some? && created
              && k.world.Contains(dir, run.bundle.Files())
              && ReadyToRename(k.log, |old(k.log)|, guard, dir)
    ensures flow.Runner? ==> flow.error.evidencePath == None
    ensures Ends(k.log, |old(k.log)|, Case(run, guard, parent, dir), false, flow)
  {
    flow, created, stagingFd, dir := OpenStaging(k, run, guard, parent);
    if !flow.Completed? { return; }
    ghost var started := k.log;
    flow := FillAndGuard(k, stagingFd.value, run, guard, dir, Case(run, guard, parent, dir));
    PreparationExtends(started, k.log, |old(k.log)|, run, dir);
    EndsExtends(started, k.log, |old(k.log)|, Case(run, guard, parent, dir), false, flow);
    ReadyLater(started, k.log, |old(k.log)|, guard, dir);
  }

  lemma ReadyLater(log: seq<Event>, log': seq<Event>, n0: nat, guard: Option<Expectation>, dir: Inode)
    ensures n0 <= |log| && ReadyToRename(log', |log|, guard, dir) ==> ReadyToRename(log', n0, guard, dir)
  { }

  lemma PreparationExtends(log: seq<Event>, log': seq<Event>, n0: nat, run: Run, dir: Inode)
    requires n0 < |log| && log <= log' && PreparationCalls(log, n0, run, dir) && !Unwrapped(log, n0)
    requires StagingCalls(log', |log|, dir)
    ensures PreparationCalls(log', n0, run, dir) && log'[n0] == log[n0]
    ensures MadeDir(log, n0, run, dir) ==> MadeDir(log', n0, run, dir)
    ensures Unwrapped(log', n0) <==> Unwrapped(log', |log|)
  {
    UnwrappedExtends(log, log', n0);
    forall i | n0 <= i < |log| ensures log'[i] == log[i] { }
  }

  /** Closes are sound, and no descriptor that the finally block will close is closed or walked through. */
  ghost predicate AttemptCloses(log: seq<Event>, n0: nat, fd0: Fd, stagingFd: Option<Fd>) {
    && ClosesSoundly(log, n0)
    && (forall i :: n0 <= i < |log| && log[i].action.Close? ==>
          fd0 <= log[i].action.fd && stagingFd != Some(log[i].action.fd))
    && (forall i :: n0 <= i < |log| && log[i].action.OpenPart? ==>
          fd0 <= log[i].action.via && stagingFd != Some(log[i].action.via))
  }

  /** What the calls of the try block may be. */
  ghost predicate AttemptLog(log: seq<Event>, n0: nat, run: Run, dir: Inode, guard: Option<Expectation>,
                             p: Progress, fd0: Fd)
  {
    && TargetDiscipline(log, n0, run, dir, guard)
    && (p.published <==> PublishedIn(log, n0))
    && NoRemovals(log, n0) && RemovesOnlyOwn(log, n0, run, dir)
    && AttemptCloses(log, n0, fd0, p.stagingFd)
  }

  /** A call that keeps the target, removes and closes nothing, and creates and writes only in the directory. */
  ghost predicate PlainCall(e: Event, run: Run, dir: Inode) {
    && TargetKept(e, run.target) && !IsPublication(e.action) && !IsRemoval(e.action)
    && !e.action.Close? && !e.action.OpenPart?
    && (e.action.CreateFile? || e.action.WriteFile? ==> e.action.dir == dir)
  }

  ghost predicate PlainCalls(log: seq<Event>, n0: nat, run: Run, dir: Inode) {
    forall i :: n0 <= i < |log| ==> PlainCall(log[i], run, dir)
  }

  lemma PreparationPlain(log: seq<Event>, n0: nat, run: Run, dir: Inode)
    requires PreparationCalls(log, n0, run, dir)
    ensures PlainCalls(log, n0, run, dir)
  { }

  lemma PlainLog(log: seq<Event>, n0: nat, run: Run, dir: Inode, guard: Option<Expectation>, p: Progress, fd0: Fd)
    requires PlainCalls(log, n0, run, dir) && !p.published
    ensures AttemptLog(log, n0, run, dir, guard, p, fd0) && !CloseLost(log, n0)
  { }

  lemma UnpublishedLog(log: seq<Event>, n0: nat, run: Run, dir: Inode, guard: Option<Expectation>, p: Progress, fd0: Fd)
    requires PreparationCalls(log, n0, run, dir) && !p.published
    ensures AttemptLog(log, n0, run, dir, guard, p, fd0) && !CloseLost(log, n0)
  {
    PreparationPlain(log, n0, run, dir);
    PlainLog(log, n0, run, dir, guard, p, fd0);
  }

  lemma RefusedLog(log: seq<Event>, e: Event, n0: nat, run: Run, dir: Inode, guard: Option<Expectation>, p: Progress,
                   fd0: Fd)
    requires PreparationCalls(log, n0, run, dir) && n0 <= |log| && !p.published
    requires e.action == Rename(run.staging, run.target, false) && e.after == e.before
    ensures AttemptLog(log + [e], n0, run, dir, guard, p, fd0)
  {
    PreparationPlain(log, n0, run, dir);
    PlainLog(log + [e], n0, run, dir, guard, p, fd0);
  }

  lemma PublishedDiscipline(log: seq<Event>, n0: nat, m: nat, run: Run, dir: Inode, guard: Option<Expectation>)
    requires n0 <= m < |log|
    requires forall i :: n0 <= i < |log| && i != m ==> TargetKept(log[i], run.target) && !IsPublication(log[i].action)
    requires Publishes(log[m], run, dir) && Rechecked(log, n0, m, guard) && SyncedAt(log, n0, m, guard, dir)
    ensures TargetDiscipline(log, n0, run, dir, guard) && PublishedIn(log, n0)
  {
    assert IsPublication(log[m].action);
  }

  /** A call of the confirmation, seen from the whole run. */
  ghost predicate LateCall(e: Event, run: Run, fd0: Fd) {
    && TargetKept(e, run.target) && !IsPublication(e.action) && !IsRemoval(e.action)
    && !e.action.CreateFile? && !e.action.WriteFile?
    && (e.action.Close? ==> e.action.fd > fd0)
    && (e.action.OpenPart? ==> e.action.via > fd0)
  }

  lemma ConfirmationLate(log: seq<Event>, m: nat, run: Run, fd0: Fd)
    requires ConfirmCalls(log, m, fd0 + 1)
    ensures forall i :: m <= i < |log| ==> LateCall(log[i], run, fd0)
  { }

  lemma PublishedLog(log: seq<Event>, n0: nat, m: nat, run: Run, dir: Inode, guard: Option<Expectation>, p: Progress,
                     fd0: Fd)
    requires n0 <= m < |log| && PreparationCalls(log[..m], n0, run, dir) && p.published
    requires Publishes(log[m], run, dir) && Rechecked(log, n0, m, guard) && SyncedAt(log, n0, m, guard, dir)
    requires p.stagingFd == Some(fd0) && ConfirmCalls(log, m + 1, fd0 + 1)
    ensures AttemptLog(log, n0, run, dir, guard, p, fd0)
  {
    PreparationPlain(log[..m], n0, run, dir);
    ConfirmationLate(log, m + 1, run, fd0);
    forall i | n0 <= i < m ensures PlainCall(log[i], run, dir) {
      assert log[i] == log[..m][i];
    }
    PublishedDiscipline(log, n0, m, run, dir, guard);
    LateCloses(log, n0, m, run, dir, fd0);
  }

  lemma LateCloses(log: seq<Event>, n0: nat, m: nat, run: Run, dir: Inode, fd0: Fd)
    requires n0 <= m < |log| && log[m].action.Rename? && ClosesSoundly(log, m + 1)
    requires forall i :: n0 <= i < m ==> PlainCall(log[i], run, dir)
    requires forall i :: m < i < |log| ==> LateCall(log[i], run, fd0)
    ensures AttemptCloses(log, n0, fd0, Some(fd0)) && NoRemovals(log, n0) && RemovesOnlyOwn(log, n0, run, dir)
  {
    ClosesAfter(log, n0, m + 1);
  }

  /** The rename and its refusals. */
  method Publish(k: Kernel, run: Run, ghost dir: Inode, ghost x: Case) returns (flow: Flow)
    requires k.Valid() && Staging(k.world, k.staged, run, dir)
    requires k.world.Contains(dir, run.bundle.Files())
    modifies k`world, k`staged, k`log
    ensures k.Valid() && |k.log| == |old(k.log)| + 1 && old(k.log) <= k.log
    ensures flow.Completed? ==> Publishes(k.log[|old(k.log)|], run, dir) && k.staged == None
    ensures !flow.Completed? ==>
              && k.log[|old(k.log)|].action == Rename(run.staging, run.target, false)
              && k.log[|old(k.log)|].before == k.log[|old(k.log)|].after
              && Staging(k.world, k.staged, run, dir)
    ensures flow.Completed? || (flow.Runner? && flow.error.evidencePath == None)
    ensures Ends(k.log, |old(k.log)|, x, false, flow)
  {
    ghost var w := k.world;
    var renamed := k.RenameNoReplace(run.staging, run.target);
    ContainsKept(w, k.log[|old(k.log)|].before, dir, run.bundle.Files());
    match renamed {
      case Renamed => flow := Completed;
      case RenameUnavailable => flow := Runner(Fail("OUTPUT_ATOMIC_PUBLISH_UNAVAILABLE"));
      case TargetExists => flow := Runner(Fail("OUTPUT_DIR_EXISTS"));
      case RenameFailed(_) => flow := Runner(Fail("OUTPUT_WRITE_FAILED"));
    }
    assert !flow.Completed? ==> Blames(k.log[|old(k.log)|], x, false, flow);
  }

  /** The rename at position m, and the confirmation behind it if it succeeded. */
  ghost predicate RenameTail(log: seq<Event>, m: nat, run: Run, dir: Inode, fd0: Fd, published: bool) {
    && m < |log|
    && if published
       then Publishes(log[m], run, dir) && ConfirmCalls(log, m + 1, fd0 + 1)
       else |log| == m + 1 && log[m].action == Rename(run.staging, run.target, false) && log[m].after == log[m].before
  }

  lemma ReadyWhenRenamed(log: seq<Event>, n0: nat, m: nat, guard: Option<Expectation>, dir: Inode)
    requires n0 <= m < |log| && ReadyToRename(log[..m], n0, guard, dir)
    ensures Rechecked(log, n0, m, guard) && SyncedAt(log, n0, m, guard, dir)
  { }

  lemma LastCall(log: seq<Event>, m: nat)
    requires |log| == m + 1
    ensures log == log[..m] + [log[m]]
  { }

  lemma AttemptLogFromParts(log: seq<Event>, n0: nat, m: nat, run: Run, dir: Inode, guard: Option<Expectation>,
                            p: Progress, fd0: Fd)
    requires n0 <= m < |log| && PreparationCalls(log[..m], n0, run, dir)
    requires p.stagingFd == Some(fd0) && RenameTail(log, m, run, dir, fd0, p.published)
    requires ReadyToRename(log[..m], n0, guard, dir)
    ensures AttemptLog(log, n0, run, dir, guard, p, fd0)
  {
    if p.published {
      ReadyWhenRenamed(log, n0, m, guard, dir);
      PublishedLog(log, n0, m, run, dir, guard, p, fd0);
    } else {
      LastCall(log, m);
      RefusedLog(log[..m], log[m], n0, run, dir, guard, p, fd0);
    }
  }

  method PublishAndConfirm(k: Kernel, parentFd: Fd, stagingFd: Fd, run: Run, ghost dir: Inode, ghost x: Case)
    returns (flow: Flow, published: bool, ghost at: nat)
    requires k.Valid() && Staging(k.world, k.staged, run, dir)
    requires k.world.Contains(dir, run.bundle.Files())
    requires parentFd in k.descriptors && stagingFd in k.descriptors && k.descriptors[stagingFd] == dir
    requires x.run == run && x.parent == k.descriptors[parentFd] && x.dir == dir
    modifies k`world, k`staged, k`descriptors, k`nextFd, k`log
    ensures k.Valid() && old(k.log) < k.log
    ensures RenameTail(k.log, |old(k.log)|, run, dir, stagingFd, published)
    ensures HeldOn(old(k.descriptors), k.descriptors, Leaked(k.log, |old(k.log)|), old(k.nextFd))
    ensures Leaked(k.log, |old(k.log)|) ==> published && flow.Os?
    ensures published ==> k.staged == None
    ensures !published ==> Staging(k.world, k.staged, run, dir)
    ensures flow.Completed? ==>
              published && Confirmed(k.log, run, x.parent, dir) && Arrived(k.log, |old(k.log)|, at, x)
    ensures !flow.Foreign?
    ensures Ends(k.log, |old(k.log)|, x, published, flow)
    ensures flow.Runner? ==> flow.error.evidencePath == if published then Some(run.display) else None
  {
    published := false;
    ghost var n0 := |k.log|;
    at := n0;
    flow := Publish(k, run, dir, x);
    if !flow.Completed? { return; }
    published := true;
    ghost var renamed := k.log;
    flow, at := Confirm(k, parentFd, stagingFd, run, x);
    RenameFirst(renamed, k.log, n0, at, x, flow);
    EndsExtends(renamed, k.log, n0, x, true, flow);
  }

  lemma RenameFirst(log: seq<Event>, log': seq<Event>, n0: nat, at: nat, x: Case, flow: Flow)
    requires |log| == n0 + 1 && log <= log' && log[n0].action.Rename?
    requires flow.Completed? ==> Arrived(log', n0 + 1, at, x)
    ensures log'[n0] == log[n0] && (Leaked(log', n0) <==> Leaked(log', n0 + 1))
    ensures flow.Completed? ==> Arrived(log', n0, at, x)
  {
    ClosesAfter(log', n0, n0 + 1);
    UnwrappedExtends(log, log', n0);
  }

  method Attempt(k: Kernel, parentFd: Fd, run: Run, guard: Option<Expectation>)
    returns (flow: Flow, p: Progress, ghost dir: Inode, ghost at: nat)
    requires k.Valid() && k.staged == None && parentFd in k.descriptors && run.staging != run.target
    modifies k`world, k`staged, k`descriptors, k`nextFd, k`log
    ensures k.Valid() && old(k.log) < k.log
    ensures AttemptLog(k.log, |old(k.log)|, run, dir, guard, p, old(k.nextFd))
    ensures k.log[|old(k.log)|].action == Action.MakeDir(run.staging, p.created)
    ensures p.created ==> MadeDir(k.log, |old(k.log)|, run, dir)
    ensures p.created && !p.published ==> Staging(k.world, k.staged, run, dir)
    ensures !p.created || p.published ==> k.staged == None
    ensures !p.created ==> |k.log| == |old(k.log)| + 1
    ensures p.published ==> p.stagingFd.Some?
    ensures p.stagingFd.Some? ==> p.created
    ensures p.stagingFd.Some? ==> p.stagingFd == Some(old(k.nextFd))
    ensures HeldOn(WithStaging(old(k.descriptors), p.stagingFd, dir), k.descriptors, Leaked(k.log, |old(k.log)|),
                   old(k.nextFd) + 1)
    ensures Leaked(k.log, |old(k.log)|) ==> flow.Os?
    ensures CloseLost(k.log, |old(k.log)|) ==> p.published
    ensures flow.Completed? ==>
              && p.published && Confirmed(k.log, run, old(k.descriptors)[parentFd], dir)
              && Arrived(k.log, |old(k.log)|, at, Case(run, guard, old(k.descriptors)[parentFd], dir))
    ensures flow.Foreign? ==> !p.published
    ensures flow.Runner? ==> flow.error.evidencePath == if p.published then Some(run.display) else None
    ensures Ends(k.log, |old(k.log)|, Case(run, guard, old(k.descriptors)[parentFd], dir), p.published, flow)
  {
    var created, stagingFd;
    flow, created, stagingFd, dir := Prepare(k, run, guard, k.descriptors[parentFd]);
    p, at := Progress(created, stagingFd, false), 0;
    if !flow.Completed? {
      UnpublishedLog(k.log, |old(k.log)|, run, dir, guard, p, old(k.nextFd));
      return;
    }
    flow, p, at := PublishPrepared(k, parentFd, p, run, Case(run, guard, old(k.descriptors)[parentFd], dir),
                                   |old(k.log)|);
  }

  /** The second half of the try block. */
  method PublishPrepared(k: Kernel, parentFd: Fd, p0: Progress, run: Run, ghost x: Case, ghost n0: nat)
    returns (flow: Flow, p: Progress, ghost at: nat)
    requires k.Valid() && Staging(k.world, k.staged, run, x.dir) && k.world.Contains(x.dir, run.bundle.Files())
    requires p0.created && p0.stagingFd.Some? && !p0.published && x.run == run
    requires parentFd in k.descriptors && k.descriptors[parentFd] == x.parent
    requires p0.stagingFd.value in k.descriptors && k.descriptors[p0.stagingFd.value] == x.dir
    requires n0 < |k.log| && PreparationCalls(k.log, n0, run, x.dir) && MadeDir(k.log, n0, run, x.dir)
    requires ReadyToRename(k.log, n0, x.guard, x.dir) && !Unwrapped(k.log, n0) && AllRight(k.log, n0, x)
    modifies k`world, k`staged, k`descriptors, k`nextFd, k`log
    ensures k.Valid() && old(k.log) < k.log && p == p0.(published := p.published)
    ensures AttemptLog(k.log, n0, run, x.dir, x.guard, p, p0.stagingFd.value) && MadeDir(k.log, n0, run, x.dir)
    ensures HeldOn(old(k.descriptors), k.descriptors, Leaked(k.log, n0), old(k.nextFd))
    ensures Leaked(k.log, n0) ==> p.published && flow.Os?
    ensures if p.published then k.staged == None else Staging(k.world, k.staged, run, x.dir)
    ensures flow.Completed? ==> p.published && Confirmed(k.log, run, x.parent, x.dir) && Arrived(k.log, n0, at, x)
    ensures !flow.Foreign?
    ensures Ends(k.log, n0, x, p.published, flow)
    ensures flow.Runner? ==> flow.error.evidencePath == if p.published then Some(run.display) else None
  {
    ghost var prepared := k.log;
    var published;
    flow, published, at := PublishAndConfirm(k, parentFd, p0.stagingFd.value, run, x.dir, x);
    p := p0.(published := published);
    AttemptFromParts(k.log, prepared, n0, run, x.dir, x.guard, p, p0.stagingFd.value);
    EndsExtends(prepared, k.log, n0, x, published, flow);
    ArrivedEarlier(prepared, k.log, n0, at, x);
  }

  /** Nothing in the preparation opens the root. */
  lemma ArrivedEarlier(log: seq<Event>, log': seq<Event>, n0: nat, at: nat, x: Case)
    requires n0 <= |log| && log <= log' && PreparationCalls(log, n0, x.run, x.dir)
    ensures Arrived(log', |log|, at, x) ==> Arrived(log', n0, at, x)
  {
    forall i | n0 <= i < |log| ensures log'[i] == log[i] && !log'[i].action.OpenRoot? { }
  }

  /** The calls of the preparation, continued by the rename and the confirmation. */
  lemma AttemptFromParts(log: seq<Event>, prepared: seq<Event>, n0: nat, run: Run, dir: Inode,
                         guard: Option<Expectation>,
                         p: Progress, fd0: Fd)
    requires n0 < |prepared| && prepared <= log && PreparationCalls(prepared, n0, run, dir)
    requires MadeDir(prepared, n0, run, dir) && !Unwrapped(prepared, n0)
    requires p.stagingFd == Some(fd0) && RenameTail(log, |prepared|, run, dir, fd0, p.published)
    requires ReadyToRename(prepared, n0, guard, dir)
    ensures AttemptLog(log, n0, run, dir, guard, p, fd0) && MadeDir(log, n0, run, dir)
    ensures CloseLost(log, n0) <==> CloseLost(log, |prepared|)
    ensures Unwrapped(log, n0) <==> Unwrapped(log, |prepared|)
  {
    UnwrappedExtends(prepared, log, n0);
    assert log[..|prepared|] == prepared;
    forall i | n0 <= i < |prepared| ensures log[i] == prepared[i] { }
    ClosesAfter(log, n0, |prepared|);
    AttemptLogFromParts(log, n0, |prepared|, run, dir, guard, p, fd0);
  }

  // ----- cleanup and the finally block -----

  function Actions(log: seq<Event>): (r: seq<Action>)
    ensures |r| == |log|
  {
    seq(|log|, i requires 0 <= i < |log| => log[i].action)
  }

  function UnlinkAll(dir: Inode, names: seq<Name>): (r: seq<Action>)
    ensures |r| == |names|
  {
    seq(|names|, i requires 0 <= i < |names| => Unlink(dir, names[i]))
  }

  /** What cleaning up an unpublished directory tries, in order. */
  function CleanupActions(run: Run, dir: Inode, stagingFd: Option<Fd>, listed: Option<seq<Name>>): seq<Action> {
    match stagingFd
    case None => [RemoveDir(run.staging)]
    case Some(fd) =>
      [ListDir(dir, listed)] + UnlinkAll(dir, if listed.Some? then listed.value else []) +
      [Close(fd), RemoveDir(run.staging)]
  }

  ghost predicate CleanupCalls(log: seq<Event>, n0: nat, run: Run, dir: Inode) {
    forall i :: n0 <= i < |log| ==>
      && TargetKept(log[i], run.target)
      && match log[i].action
         case ListDir(d, _) => true
         case Unlink(d, _) => d == dir
         case RemoveDir(name) =>
           name == run.staging && name in log[i].before.entries && log[i].before.entries[name] == dir
         case Close(_) => true
         case _ => false
  }

  lemma OneMoreCall(log: seq<Event>, log': seq<Event>, n0: nat)
    requires n0 <= |log| && log <= log'
    ensures NoneFailed(log', n0) <==> NoneFailed(log, n0) && NoneFailed(log', |log|)
  {
    forall i | n0 <= i < |log| ensures log'[i] == log[i] { }
    if NoneFailed(log', n0) {
      forall i | n0 <= i < |log| ensures !log[i].failed {
        assert !log'[i].failed;
      }
    }
  }

  method UnlinkListed(k: Kernel, fd: Fd, run: Run, ghost dir: Inode, names: seq<Name>) returns (errors: seq<string>)
    requires k.Valid() && Staging(k.world, k.staged, run, dir)
    requires fd in k.descriptors && k.descriptors[fd] == dir
    modifies k`world, k`log
    ensures k.Valid() && Staging(k.world, k.staged, run, dir) && old(k.log) <= k.log
    ensures CleanupCalls(k.log, |old(k.log)|, run, dir)
    ensures |k.log| == |old(k.log)| + |names|
    ensures forall i :: |old(k.log)| <= i < |k.log| ==> k.log[i].action == Unlink(dir, names[i - |old(k.log)|])
    ensures errors == [] <==> NoneFailed(k.log, |old(k.log)|)
  {
    errors := [];
    for i := 0 to |names|
      invariant k.Valid() && Staging(k.world, k.staged, run, dir) && old(k.log) <= k.log
      invariant |k.log| == |old(k.log)| + i
      invariant CleanupCalls(k.log, |old(k.log)|, run, dir)
      invariant forall j :: |old(k.log)| <= j < |k.log| ==> k.log[j].action == Unlink(dir, names[j - |old(k.log)|])
      invariant errors == [] <==> NoneFailed(k.log, |old(k.log)|)
    {
      ghost var log := k.log;
      var r := k.Unlink(fd, names[i]);
      OneMoreCall(log, k.log, |old(k.log)|);
      if r.Failed? { errors := errors + [r.detail]; }
    }
  }

  lemma CleanupInOrder(log: seq<Event>, n0: nat, run: Run, dir: Inode, fd: Fd, listed: Option<seq<Name>>,
                       names: seq<Name>)
    requires names == if listed.Some? then listed.value else []
    requires |log| == n0 + |names| + 3
    requires log[n0].action == ListDir(dir, listed)
    requires forall i :: n0 + 1 <= i < n0 + 1 + |names| ==> log[i].action == Unlink(dir, names[i - n0 - 1])
    requires log[|log| - 2].action == Close(fd) && log[|log| - 1].action == RemoveDir(run.staging)
    ensures Actions(log[n0..]) == CleanupActions(run, dir, Some(fd), listed)
  {
  }

  /** `_cleanup_staging`: every step is tried, whatever failed before; the failures come back together. */
  method CleanupStaging(k: Kernel, stagingFd: Fd, run: Run, ghost dir: Inode)
    returns (errors: seq<string>, ghost listed: Option<seq<Name>>)
    requires k.Valid() && Staging(k.world, k.staged, run, dir) && run.staging != run.target
    requires stagingFd in k.descriptors && k.descriptors[stagingFd] == dir
    modifies k`world, k`descriptors, k`log
    ensures k.Valid() && old(k.log) <= k.log && k.descriptors == old(k.descriptors) - {stagingFd}
    ensures CleanupCalls(k.log, |old(k.log)|, run, dir)
    ensures Actions(k.log[|old(k.log)|..]) == CleanupActions(run, dir, Some(stagingFd), listed)
    ensures errors == [] <==> NoneFailed(k.log, |old(k.log)|)
  {
    ghost var n0 := |old(k.log)|;
    var names;
    errors, names, listed := ListForCleanup(k, stagingFd, run, dir);
    ghost var log1 := k.log;
    var unlinked := UnlinkListed(k, stagingFd, run, dir, names);
    ghost var log2 := k.log;
    var more := CloseAndRemove(k, stagingFd, run, dir);
    CleanupDone(log1, log2, k.log, n0, run, dir, stagingFd, listed, names);
    errors := errors + unlinked + more;
  }

  /** What there is to unlink. */
  method ListForCleanup(k: Kernel, stagingFd: Fd, run: Run, ghost dir: Inode)
    returns (errors: seq<string>, names: seq<Name>, ghost listed: Option<seq<Name>>)
    requires k.Valid() && Staging(k.world, k.staged, run, dir)
    requires stagingFd in k.descriptors && k.descriptors[stagingFd] == dir
    modifies k`world, k`log
    ensures k.Valid() && Staging(k.world, k.staged, run, dir) && old(k.log) <= k.log && |k.log| == |old(k.log)| + 1
    ensures CleanupCalls(k.log, |old(k.log)|, run, dir) && k.log[|old(k.log)|].action == ListDir(dir, listed)
    ensures names == if listed.Some? then listed.value else []
    ensures errors == [] <==> NoneFailed(k.log, |old(k.log)|)
  {
    var found := k.ListDir(stagingFd);
    listed := Opt(found);
    errors := if found.Failed? then [found.detail] else [];
    names := if found.Failed? then [] else found.value;
  }

  lemma CleanupDone(log1: seq<Event>, log2: seq<Event>, log: seq<Event>, n0: nat, run: Run, dir: Inode, fd: Fd,
                    listed: Option<seq<Name>>, names: seq<Name>)
    requires |log1| == n0 + 1 && log1 <= log2 <= log && |log2| == |log1| + |names| && |log| == |log2| + 2
    requires names == (if listed.Some? then listed.value else []) && log1[n0].action == ListDir(dir, listed)
    requires CleanupCalls(log1, n0, run, dir) && CleanupCalls(log2, |log1|, run, dir) && CleanupCalls(log, |log2|, run, dir)
    requires forall i :: |log1| <= i < |log2| ==> log2[i].action == Unlink(dir, names[i - |log1|])
    requires log[|log| - 2].action == Close(fd) && log[|log| - 1].action == RemoveDir(run.staging)
    ensures CleanupCalls(log, n0, run, dir) && Actions(log[n0..]) == CleanupActions(run, dir, Some(fd), listed)
    ensures NoneFailed(log, n0) <==> NoneFailed(log1, n0) && NoneFailed(log2, |log1|) && NoneFailed(log, |log2|)
  {
    OneMoreCall(log1, log2, n0);
    OneMoreCall(log2, log, n0);
    forall i | n0 <= i < |log2| ensures log[i] == if i == n0 then log1[i] else log2[i] { }
    CleanupInOrder(log, n0, run, dir, fd, listed, names);
  }

  method CloseAndRemove(k: Kernel, stagingFd: Fd, run: Run, ghost dir: Inode) returns (errors: seq<string>)
    requires k.Valid() && Staging(k.world, k.staged, run, dir) && run.staging != run.target
    modifies k`world, k`descriptors, k`log
    ensures k.Valid() && old(k.log) <= k.log && k.descriptors == old(k.descriptors) - {stagingFd}
    ensures CleanupCalls(k.log, |old(k.log)|, run, dir)
    ensures |k.log| == |old(k.log)| + 2
    ensures k.log[|k.log| - 2].action == Close(stagingFd) && k.log[|k.log| - 1].action == RemoveDir(run.staging)
    ensures errors == [] <==> NoneFailed(k.log, |old(k.log)|)
  {
    var closed := k.Close(stagingFd);
    ghost var log := k.log;
    var removed := k.RemoveDir(run.staging);
    OneMoreCall(log, k.log, |old(k.log)|);
    errors := (if closed.Failed? then [closed.detail] else []) + (if removed.Failed? then [removed.detail] else []);
  }

  function JoinErrors(errors: seq<string>): string {
    if |errors| == 0 then "" else if |errors| == 1 then errors[0] else errors[0] + "; " + JoinErrors(errors[1..])
  }

  /** Where the finally block is left: at its end, or by an error it raises itself before closing the parent. */
  datatype Exit = Finished | LeftAtCleanup | LeftAtStagingClose

  /** The calls of the finally block, in order. */
  function FinallyActions(run: Run, dir: Inode, p: Progress, parentFd: Fd, listed: Option<seq<Name>>,
                          exit: Exit): seq<Action> {
    (if p.created && !p.published then CleanupActions(run, dir, p.stagingFd, listed) else []) +
    (if p.published && p.stagingFd.Some? then [Close(p.stagingFd.value)] else []) +
    (if exit.Finished? then [Close(parentFd)] else [])
  }

  /** The part of the finally block that discards an unpublished directory. */
  method Discard(k: Kernel, run: Run, stagingFd: Option<Fd>, ghost dir: Inode)
    returns (errors: seq<string>, ghost listed: Option<seq<Name>>)
    requires k.Valid() && Staging(k.world, k.staged, run, dir) && run.staging != run.target
    requires stagingFd.Some? ==> stagingFd.value in k.descriptors && k.descriptors[stagingFd.value] == dir
    modifies k`world, k`descriptors, k`log
    ensures k.Valid() && old(k.log) <= k.log
    ensures k.descriptors == old(k.descriptors) - (if stagingFd.Some? then {stagingFd.value} else {})
    ensures CleanupCalls(k.log, |old(k.log)|, run, dir)
    ensures Actions(k.log[|old(k.log)|..]) == CleanupActions(run, dir, stagingFd, listed)
    ensures errors == [] <==> NoneFailed(k.log, |old(k.log)|)
  {
    if stagingFd.Some? {
      errors, listed := CleanupStaging(k, stagingFd.value, run, dir);
    } else {
      var removed := k.RemoveDir(run.staging);
      errors := if removed.Failed? then [removed.detail] else [];
      listed := None;
    }
  }

  lemma ActionsAppend(log: seq<Event>, log': seq<Event>, n0: nat)
    requires n0 <= |log| && |log'| == |log| + 1 && log <= log'
    ensures Actions(log'[n0..]) == Actions(log[n0..]) + [log'[|log|].action]
  {
  }

  ghost predicate CarriesPath(error: Option<RunnerError>, run: Run, published: bool) {
    error.Some? ==> error.value.evidencePath == if published then Some(run.display) else None
  }

  /** An error is raised, or taken up by the pending one, exactly when a call of the finally block failed. */
  ghost predicate FailuresTold(pending: Option<RunnerError>, error: Option<RunnerError>, published: bool, none: bool) {
    match pending
    case Some(e) =>
      && error.Some? && (error.value.cleanupErrors == e.cleanupErrors <==> none)
      && e.cleanupErrors <= error.value.cleanupErrors
    case None => if none then error == None else error.Some? && error.value.code == FinallyCode(published)
  }

  /** The code of an error that the finally block raises itself. */
  function FinallyCode(published: bool): string {
    if published then "OUTPUT_FINALIZATION_UNCONFIRMED" else "OUTPUT_CLEANUP_FAILED"
  }

  /** The finally block up to the parent descriptor. */
  method ReleaseStaging(k: Kernel, run: Run, p: Progress, pending: Option<RunnerError>, ghost dir: Inode)
    returns (error: Option<RunnerError>, exit: Exit, ghost listed: Option<seq<Name>>)
    requires k.Valid() && run.staging != run.target
    requires p.created && !p.published ==> Staging(k.world, k.staged, run, dir)
    requires p.stagingFd.Some? ==> p.created && p.stagingFd.value in k.descriptors && k.descriptors[p.stagingFd.value] == dir
    requires CarriesPath(pending, run, p.published)
    modifies k`world, k`descriptors, k`log
    ensures k.Valid() && old(k.log) <= k.log && CleanupCalls(k.log, |old(k.log)|, run, dir)
    ensures Actions(k.log[|old(k.log)|..]) ==
            (if p.created && !p.published then CleanupActions(run, dir, p.stagingFd, listed) else []) +
            (if p.published && p.stagingFd.Some? then [Close(p.stagingFd.value)] else [])
    ensures k.descriptors == old(k.descriptors) - (if p.stagingFd.Some? then {p.stagingFd.value} else {})
    ensures CarriesPath(error, run, p.published)
    ensures pending.Some? ==> exit == Finished && error.Some? && error.value.code == pending.value.code
    ensures FailuresTold(pending, error, p.published, NoneFailed(k.log, |old(k.log)|))
    ensures exit != Finished ==> error.Some?
    ensures exit == LeftAtCleanup ==> p.created && !p.published
    ensures exit == LeftAtStagingClose ==> p.published
  {
    error, exit, listed := pending, Finished, None;
    if !p.published && p.created {
      var errors;
      errors, listed := Discard(k, run, p.stagingFd, dir);
      if errors != [] {
        if error.None? {
          error, exit := Some(RunnerError("OUTPUT_CLEANUP_FAILED", None, [])), LeftAtCleanup;
        } else {
          error := Some(TakeUp(error.value, JoinErrors(errors)));
        }
      }
    } else if p.published && p.stagingFd.Some? {
      var closed := k.Close(p.stagingFd.value);
      if closed.Failed? {
        if error.None? {
          error := Some(PublishedError("OUTPUT_FINALIZATION_UNCONFIRMED", run, [closed.detail]));
          exit := LeftAtStagingClose;
        } else {
          error := Some(TakeUp(error.value, closed.detail));
        }
      }
    }
  }

  method Finally(k: Kernel, parentFd: Fd, run: Run, p: Progress, pending: Option<RunnerError>, ghost dir: Inode)
    returns (error: Option<RunnerError>, exit: Exit, ghost listed: Option<seq<Name>>)
    requires k.Valid() && run.staging != run.target
    requires p.created && !p.published ==> Staging(k.world, k.staged, run, dir)
    requires p.stagingFd.Some? ==> p.created && p.stagingFd.value in k.descriptors && k.descriptors[p.stagingFd.value] == dir
    requires CarriesPath(pending, run, p.published)
    modifies k`world, k`descriptors, k`log
    ensures k.Valid() && old(k.log) <= k.log && CleanupCalls(k.log, |old(k.log)|, run, dir)
    ensures Actions(k.log[|old(k.log)|..]) == FinallyActions(run, dir, p, parentFd, listed, exit)
    ensures k.descriptors == old(k.descriptors) - (if p.stagingFd.Some? then {p.stagingFd.value} else {})
                                                - (if exit.Finished? then {parentFd} else {})
    ensures CarriesPath(error, run, p.published)
    ensures pending.Some? ==> exit == Finished && error.Some? && error.value.code == pending.value.code
    ensures FailuresTold(pending, error, p.published, NoneFailed(k.log, |old(k.log)|))
    ensures exit != Finished ==> error.Some?
    ensures exit == LeftAtCleanup ==> p.created && !p.published
    ensures exit == LeftAtStagingClose ==> p.published
  {
    error, exit, listed := ReleaseStaging(k, run, p, pending, dir);
    if exit != Finished { return; }
    ghost var released, error1 := k.log, error;
    error := CloseParent(k, parentFd, run, p, error);
    OneMoreCall(released, k.log, |old(k.log)|);
    ActionsAppend(released, k.log, |old(k.log)|);
  }

  /** Its last statement. */
  method CloseParent(k: Kernel, parentFd: Fd, run: Run, p: Progress, pending: Option<RunnerError>)
    returns (error: Option<RunnerError>)
    requires k.Valid() && CarriesPath(pending, run, p.published)
    modifies k`world, k`descriptors, k`log
    ensures k.Valid() && old(k.log) <= k.log && |k.log| == |old(k.log)| + 1
    ensures k.descriptors == old(k.descriptors) - {parentFd}
    ensures k.log[|old(k.log)|].action == Action.Close(parentFd) && k.log[|old(k.log)|].after == k.log[|old(k.log)|].before
    ensures CarriesPath(error, run, p.published) && (pending.Some? ==> error.Some? && error.value.code == pending.value.code)
    ensures FailuresTold(pending, error, p.published, NoneFailed(k.log, |old(k.log)|))
  {
    var closed := k.Close(parentFd);
    error := pending;
    if closed.Failed? {
      error := Some(
        if error.Some? then TakeUp(error.value, closed.detail)
        else if p.published then PublishedError("OUTPUT_FINALIZATION_UNCONFIRMED", run, [closed.detail])
        else RunnerError("OUTPUT_CLEANUP_FAILED", None, []));
    }
  }

  // ----- the whole publication -----

  /** How `publish_evidence_bundle` ends once it holds the parent descriptor. */
  datatype Outcome = Returned | Raised(error: RunnerError) | PropagatedForeign

  /** What every log of one publication satisfies. */
  ghost predicate SafeRun(log: seq<Event>, n0: nat, run: Run, dir: Inode, guard: Option<Expectation>) {
    && TargetDiscipline(log, n0, run, dir, guard)
    && RemovesOnlyOwn(log, n0, run, dir)
    && (PublishedIn(log, n0) ==> NoRemovals(log, n0))
    && ClosesSoundly(log, n0)
  }

  /** The rename happened as recorded; the parent is closed unless the finally block was left early,
      the staging descriptor always if it was opened. */
  ghost predicate Accounted(log: seq<Event>, n0: nat, run: Run, p: Progress, parentFd: Fd, exit: Exit) {
    && (p.published <==> PublishedIn(log, n0))
    && (p.published ==> p.stagingFd.Some?)
    && (ClosedIn(log, n0, parentFd) <==> exit.Finished?)
    && (p.stagingFd.Some? ==> ClosedIn(log, n0, p.stagingFd.value))
    && (!p.created ==> TouchesNothing(log, n0))
  }

  /** No file or directory is created, written or removed. */
  ghost predicate TouchesNothing(log: seq<Event>, n0: nat) {
    forall i :: n0 <= i < |log| ==>
      match log[i].action
      case MakeDir(_, made) => !made
      case CreateFile(_, _, _) => false
      case WriteFile(_, _, _) => false
      case Rename(_, _, done) => !done
      case Unlink(_, _) => false
      case RemoveDir(_) => false
      case _ => true
  }

  lemma FinallyCloses(run: Run, dir: Inode, p: Progress, parentFd: Fd, listed: Option<seq<Name>>, exit: Exit)
    ensures var actions := FinallyActions(run, dir, p, parentFd, listed, exit);
            && (exit.Finished? ==> Close(parentFd) in actions)
            && (p.stagingFd.Some? && p.created ==> Close(p.stagingFd.value) in actions)
  {
    var actions := FinallyActions(run, dir, p, parentFd, listed, exit);
    if exit.Finished? {
      assert actions[|actions| - 1] == Close(parentFd);
    }
    if p.stagingFd.Some? && p.created {
      var i := if p.published then 0 else |CleanupActions(run, dir, p.stagingFd, listed)| - 2;
      assert actions[i] == Close(p.stagingFd.value);
    }
  }

  lemma FinallyCalls(run: Run, dir: Inode, p: Progress, parentFd: Fd, listed: Option<seq<Name>>, exit: Exit)
    requires p.stagingFd != Some(parentFd)
    ensures var actions := FinallyActions(run, dir, p, parentFd, listed, exit);
            && (forall i :: 0 <= i < |actions| ==> !IsPublication(actions[i]))
            && (p.published ==> forall i :: 0 <= i < |actions| ==> !IsRemoval(actions[i]))
            && (forall i :: 0 <= i < |actions| && actions[i].Close? ==>
                  actions[i].fd == parentFd || Some(actions[i].fd) == p.stagingFd)
            && (forall i, j :: 0 <= i < j < |actions| && actions[i].Close? ==> actions[i] != actions[j])
            && (Close(parentFd) in actions <==> exit.Finished?)
            && (p.stagingFd.Some? && p.created ==> Close(p.stagingFd.value) in actions)
  {
    var head := FinallyActions(run, dir, p, parentFd, listed, LeftAtCleanup);
    HeadCalls(run, dir, p, parentFd, listed);
    FinallyCloses(run, dir, p, parentFd, listed, exit);
    assert FinallyActions(run, dir, p, parentFd, listed, exit) ==
           head + if exit.Finished? then [Close(parentFd)] else [];
  }

  /** No publication, and only this descriptor is closed, at most once. */
  predicate ClosesOneOf(actions: seq<Action>, fd: Option<Fd>) {
    && (forall i :: 0 <= i < |actions| ==> !IsPublication(actions[i]))
    && (forall i :: 0 <= i < |actions| && actions[i].Close? ==> Some(actions[i].fd) == fd)
    && (forall i, j :: 0 <= i < j < |actions| && actions[i].Close? ==> actions[i] != actions[j])
  }

  lemma HeadCalls(run: Run, dir: Inode, p: Progress, parentFd: Fd, listed: Option<seq<Name>>)
    ensures var head := FinallyActions(run, dir, p, parentFd, listed, LeftAtCleanup);
            ClosesOneOf(head, p.stagingFd) && (p.published ==> forall i :: 0 <= i < |head| ==> !IsRemoval(head[i]))
  {
    var head := FinallyActions(run, dir, p, parentFd, listed, LeftAtCleanup);
    if p.created && !p.published {
      assert head == CleanupActions(run, dir, p.stagingFd, listed);
    }
  }

  /** The calls from position m on are these. */
  ghost predicate Continues(log: seq<Event>, m: nat, actions: seq<Action>) {
    && |log| == m + |actions|
    && (forall i :: m <= i < |log| ==> log[i].action == actions[i - m])
  }

  lemma ActionsContinue(log: seq<Event>, m: nat, actions: seq<Action>)
    requires m <= |log| && Actions(log[m..]) == actions
    ensures Continues(log, m, actions)
  {
    forall i | m <= i < |log| ensures log[i].action == actions[i - m] {
      assert log[i].action == Actions(log[m..])[i - m];
    }
  }

  lemma SafeRunFromParts(log: seq<Event>, n0: nat, m: nat, run: Run, dir: Inode, guard: Option<Expectation>,
                         p: Progress, parentFd: Fd, fd0: Fd, listed: Option<seq<Name>>, exit: Exit)
    requires n0 <= m <= |log| && AttemptLog(log[..m], n0, run, dir, guard, p, fd0)
    requires parentFd < fd0 && (p.stagingFd.Some? ==> p.created && p.stagingFd.value >= fd0)
    requires CleanupCalls(log, m, run, dir)
    requires Continues(log, m, FinallyActions(run, dir, p, parentFd, listed, exit))
    ensures SafeRun(log, n0, run, dir, guard)
    ensures p.published <==> PublishedIn(log, n0)
    ensures CloseLost(log, n0) <==> CloseLost(log[..m], n0)
  {
    FinallyCalls(run, dir, p, parentFd, listed, exit);
    TargetOverParts(log, n0, m, run, dir, guard);
    RemovalsOverParts(log, n0, m, run, dir, p.published);
    ClosesOverParts(log, n0, m, parentFd, fd0, p.stagingFd);
  }

  lemma RemovalsOverParts(log: seq<Event>, n0: nat, m: nat, run: Run, dir: Inode, published: bool)
    requires n0 <= m <= |log| && NoRemovals(log[..m], n0) && RemovesOnlyOwn(log[..m], n0, run, dir)
    requires CleanupCalls(log, m, run, dir) && (published ==> NoRemovals(log, m))
    ensures RemovesOnlyOwn(log, n0, run, dir) && (published ==> NoRemovals(log, n0))
  {
    forall i | n0 <= i < m ensures log[i] == log[..m][i] { }
  }

  lemma AccountedFromParts(log: seq<Event>, n0: nat, m: nat, run: Run, dir: Inode,
                           p: Progress, parentFd: Fd, fd0: Fd, listed: Option<seq<Name>>, exit: Exit)
    requires n0 <= m <= |log| && AttemptCloses(log[..m], n0, fd0, p.stagingFd)
    requires parentFd < fd0 && (p.stagingFd.Some? ==> p.created && p.stagingFd.value >= fd0)
    requires Continues(log, m, FinallyActions(run, dir, p, parentFd, listed, exit))
    requires (p.published <==> PublishedIn(log, n0)) && (p.published ==> p.stagingFd.Some?)
    requires !p.created ==> !p.published && m == n0 + 1 && log[..m][n0].action == MakeDir(run.staging, false)
    ensures Accounted(log, n0, run, p, parentFd, exit)
  {
    var actions := FinallyActions(run, dir, p, parentFd, listed, exit);
    FinallyCalls(run, dir, p, parentFd, listed, exit);
    forall i | n0 <= i < m ensures log[i] == log[..m][i] { }
    if !p.created {
      assert forall i :: 0 <= i < |actions| ==> actions[i].Close?;
    }
    if exit.Finished? {
      var i :| 0 <= i < |actions| && actions[i] == Close(parentFd);
      assert log[m + i].action == Close(parentFd);
    }
    if p.stagingFd.Some? {
      var i :| 0 <= i < |actions| && actions[i] == Close(p.stagingFd.value);
      assert log[m + i].action == Close(p.stagingFd.value);
    }
  }

  lemma TargetOverParts(log: seq<Event>, n0: nat, m: nat, run: Run, dir: Inode, guard: Option<Expectation>)
    requires n0 <= m <= |log| && TargetDiscipline(log[..m], n0, run, dir, guard)
    requires forall i :: m <= i < |log| ==> TargetKept(log[i], run.target) && !IsPublication(log[i].action)
    ensures TargetDiscipline(log, n0, run, dir, guard)
    ensures PublishedIn(log, n0) <==> PublishedIn(log[..m], n0)
  {
    forall i | n0 <= i < m ensures log[i] == log[..m][i] { }
  }

  /** The closes of the finally block add neither a repetition nor a lost close. */
  lemma ClosesOverParts(log: seq<Event>, n0: nat, m: nat, parentFd: Fd, fd0: Fd, stagingFd: Option<Fd>)
    requires n0 <= m <= |log| && AttemptCloses(log[..m], n0, fd0, stagingFd) && ClosesOnce(log, m) && parentFd < fd0
    requires forall i :: m <= i < |log| ==>
               && !log[i].action.OpenPart?
               && (log[i].action.Close? ==> log[i].action.fd == parentFd || Some(log[i].action.fd) == stagingFd)
    ensures ClosesSoundly(log, n0)
    ensures CloseLost(log, n0) <==> CloseLost(log[..m], n0)
  {
    forall i | n0 <= i < m ensures log[i] == log[..m][i] { }
    if CloseLost(log[..m], n0) {
      var i :| n0 < i < m && Lost(log[..m], i);
      assert Lost(log, i);
    }
    if CloseLost(log, n0) {
      var i :| n0 < i < |log| && Lost(log, i);
      assert i < m ==> Lost(log[..m], i);
    }
    if ClosesOnce(log, n0) {
      assert ClosesOnce(log[..m], n0);
    }
  }

  lemma StagingReleased(before: map<Fd, Inode>, during: map<Fd, Inode>, fd0: Fd, stagingFd: Option<Fd>, dir: Inode,
                        parentFd: Fd, lost: bool, finished: bool)
    requires (forall fd :: fd in before ==> fd < fd0) && (stagingFd.Some? ==> stagingFd == Some(fd0)) && parentFd < fd0
    requires HeldOn(WithStaging(before, stagingFd, dir), during, lost, fd0 + 1)
    ensures stagingFd.Some? ==> stagingFd.value in during && during[stagingFd.value] == dir
    ensures HeldOn(before - (if finished then {parentFd} else {}),
                   during - (if stagingFd.Some? then {stagingFd.value} else {}) - (if finished then {parentFd} else {}),
                   lost, fd0)
  {
    var after := during - (if stagingFd.Some? then {stagingFd.value} else {}) - (if finished then {parentFd} else {});
    var kept := before - (if finished then {parentFd} else {});
    if lost {
      var held := WithStaging(before, stagingFd, dir);
      var fd :| fd in during && fd >= fd0 + 1 && during == held[fd := during[fd]];
      assert fd in after && after == kept[fd := after[fd]];
    }
  }

  /** A lost close is what leaves a descriptor open that was not open before. */
  lemma LeakIffLost(before: map<Fd, Inode>, after: map<Fd, Inode>, gone: set<Fd>, lost: bool, fd0: Fd)
    requires (forall fd :: fd in before ==> fd < fd0) && HeldOn(before - gone, after, lost, fd0)
    ensures lost <==> !(after.Keys <= before.Keys)
  {
    if lost {
      var fd :| fd in after && fd >= fd0;
      assert fd in after.Keys && fd !in before.Keys;
    }
  }

  lemma PrefixOf(log: seq<Event>, attempted: seq<Event>)
    requires attempted <= log
    ensures log[..|attempted|] == attempted
  {
  }

  /** The run's own calls change the target name at most once, never when it exists, only to the checked
      bundle, and only right after the recheck of the repository; a publication is exactly such a change. */
  ghost predicate TargetChangesOnce(log: seq<Event>, n0: nat, run: Run, dir: Inode, guard: Option<Expectation>) {
    && (forall i :: n0 <= i < |log| && run.target in log[i].before.entries ==> TargetKept(log[i], run.target))
    && (forall i, j :: n0 <= i < j < |log| && !TargetKept(log[i], run.target) ==> TargetKept(log[j], run.target))
    && (forall i :: n0 <= i < |log| && !TargetKept(log[i], run.target) ==>
          && Rechecked(log, n0, i, guard)
          && log[i].after.Holds(run.target, dir, run.bundle.Files()))
    && (PublishedIn(log, n0) <==> exists i :: n0 <= i < |log| && !TargetKept(log[i], run.target))
  }

  lemma DisciplineChangesOnce(log: seq<Event>, n0: nat, run: Run, dir: Inode, guard: Option<Expectation>)
    requires TargetDiscipline(log, n0, run, dir, guard)
    ensures TargetChangesOnce(log, n0, run, dir, guard)
  {
    forall i | n0 <= i < |log|
      ensures TargetKept(log[i], run.target) <==> !IsPublication(log[i].action)
      ensures IsPublication(log[i].action) ==> Rechecked(log, n0, i, guard) && Publishes(log[i], run, dir)
    {
      ChangeIsPublication(log, n0, run, dir, guard, i);
    }
  }

  lemma ChangeIsPublication(log: seq<Event>, n0: nat, run: Run, dir: Inode, guard: Option<Expectation>, i: nat)
    requires TargetDiscipline(log, n0, run, dir, guard) && n0 <= i < |log|
    ensures TargetKept(log[i], run.target) <==> !IsPublication(log[i].action)
    ensures IsPublication(log[i].action) ==> Rechecked(log, n0, i, guard) && Publishes(log[i], run, dir)
  {
    if !TargetKept(log[i], run.target) {
      assert Publishes(log[i], run, dir);
    }
  }

  lemma SafeRunChangesOnce(log: seq<Event>, n0: nat, run: Run, dir: Inode, guard: Option<Expectation>)
    requires SafeRun(log, n0, run, dir, guard)
    ensures TargetChangesOnce(log, n0, run, dir, guard)
  {
    DisciplineChangesOnce(log, n0, run, dir, guard);
  }

  /** The log of the try block, continued by the finally block. */
  lemma WholeRun(log: seq<Event>, attempted: seq<Event>, n0: nat, run: Run, dir: Inode, guard: Option<Expectation>,
                 p: Progress, parentFd: Fd, fd0: Fd, listed: Option<seq<Name>>, exit: Exit)
    requires n0 < |attempted| && attempted <= log && AttemptLog(attempted, n0, run, dir, guard, p, fd0)
    requires parentFd < fd0 && (p.stagingFd.Some? ==> p.created && p.stagingFd.value >= fd0)
    requires p.published ==> p.stagingFd.Some?
    requires attempted[n0].action == MakeDir(run.staging, p.created) && (!p.created ==> |attempted| == n0 + 1)
    requires CleanupCalls(log, |attempted|, run, dir)
    requires Actions(log[|attempted|..]) == FinallyActions(run, dir, p, parentFd, listed, exit)
    ensures log[..|attempted|] == attempted && log[n0] == attempted[n0]
    ensures SafeRun(log, n0, run, dir, guard) && TargetChangesOnce(log, n0, run, dir, guard)
    ensures Accounted(log, n0, run, p, parentFd, exit)
    ensures CloseLost(log, n0) <==> CloseLost(attempted, n0)
    ensures Unwrapped(log, n0) <==> Unwrapped(attempted, n0)
  {
    var m := |attempted|;
    PrefixOf(log, attempted);
    if Unwrapped(attempted, n0) {
      var i :| n0 <= i < m && WrapFailed(attempted[i]);
      assert WrapFailed(log[i]);
    } else {
      UnwrappedExtends(attempted, log, n0);
    }
    ActionsContinue(log, m, FinallyActions(run, dir, p, parentFd, listed, exit));
    SafeRunFromParts(log, n0, m, run, dir, guard, p, parentFd, fd0, listed, exit);
    AccountedFromParts(log, n0, m, run, dir, p, parentFd, fd0, listed, exit);
    SafeRunChangesOnce(log, n0, run, dir, guard);
  }

  /** What the except clauses make of the way the try block ends. */
  function Pending(flow: Flow, run: Run, published: bool): Option<RunnerError> {
    match flow
    case Runner(e) => Some(e)
    case Os(detail) =>
      Some(if published then PublishedError("OUTPUT_FINALIZATION_UNCONFIRMED", run, [detail])
           else Fail("OUTPUT_WRITE_FAILED"))
    case _ => None
  }

  /** The code of the error that a lost descriptor ends in. */
  function LostCode(published: bool): string {
    if published then "OUTPUT_FINALIZATION_UNCONFIRMED" else "OUTPUT_WRITE_FAILED"
  }

  /** What comes out of the except and finally clauses. */
  ghost predicate Concluded(outcome: Outcome, flow: Flow, published: bool, none: bool) {
    match outcome
    case Returned => flow.Completed? && none
    case PropagatedForeign => flow.Foreign? && none
    case Raised(error) =>
      match flow
      case Runner(e) => error.code == e.code
      case Os(_) => error.code == LostCode(published)
      case _ => !none && error.code == FinallyCode(published)
  }

  /** The except and finally clauses. */
  method Conclude(k: Kernel, parentFd: Fd, run: Run, flow: Flow, p: Progress, ghost dir: Inode,
                  ghost before: map<Fd, Inode>, ghost fd0: Fd, ghost lost: bool)
    returns (outcome: Outcome, exit: Exit, ghost listed: Option<seq<Name>>)
    requires k.Valid() && run.staging != run.target && parentFd < fd0 && forall fd :: fd in before ==> fd < fd0
    requires p.created && !p.published ==> Staging(k.world, k.staged, run, dir)
    requires p.stagingFd.Some? ==> p.created && p.stagingFd == Some(fd0)
    requires HeldOn(WithStaging(before, p.stagingFd, dir), k.descriptors, lost, fd0 + 1)
    requires lost ==> flow.Os?
    requires flow.Completed? ==> p.published
    requires flow.Foreign? ==> !p.published
    requires flow.Runner? ==> flow.error.evidencePath == if p.published then Some(run.display) else None
    modifies k`world, k`descriptors, k`log
    ensures k.Valid() && old(k.log) <= k.log && CleanupCalls(k.log, |old(k.log)|, run, dir)
    ensures Actions(k.log[|old(k.log)|..]) == FinallyActions(run, dir, p, parentFd, listed, exit)
    ensures HeldOn(before - (if exit.Finished? then {parentFd} else {}), k.descriptors, lost, fd0)
    ensures outcome.Raised? ==> outcome.error.evidencePath == if p.published then Some(run.display) else None
    ensures outcome.PropagatedForeign? ==> !p.published
    ensures outcome.Returned? ==> p.published && flow.Completed?
    ensures Concluded(outcome, flow, p.published, NoneFailed(k.log, |old(k.log)|))
    ensures lost ==> outcome.Raised? && outcome.error.code == LostCode(p.published)
    ensures exit == LeftAtCleanup ==> p.created && !p.published && outcome.Raised?
    ensures exit == LeftAtStagingClose ==> p.published && outcome.Raised?
  {
    var error;
    ghost var during := k.descriptors;
    StagingReleased(before, during, fd0, p.stagingFd, dir, parentFd, lost, false);
    error, exit, listed := Finally(k, parentFd, run, p, Pending(flow, run, p.published), dir);
    StagingReleased(before, during, fd0, p.stagingFd, dir, parentFd, lost, exit.Finished?);
    outcome := if error.Some? then Raised(error.value) else if flow.Foreign? then PropagatedForeign else Returned;
  }

  /** `publish_evidence_bundle` from the moment the parent directory is open. */
  method PublishEvidenceBundle(k: Kernel, parentFd: Fd, run: Run, guard: Option<Expectation>)
    returns (outcome: Outcome, exit: Exit, ghost dir: Inode, ghost p: Progress, ghost listed: Option<seq<Name>>,
             ghost m: nat, ghost tried: Flow)
    requires k.Valid() && k.staged == None && parentFd in k.descriptors && run.staging != run.target
    modifies k`world, k`staged, k`descriptors, k`nextFd, k`log
    ensures k.Valid() && old(k.log) < k.log
    ensures SafeRun(k.log, |old(k.log)|, run, dir, guard)
    ensures TargetChangesOnce(k.log, |old(k.log)|, run, dir, guard)
    ensures Accounted(k.log, |old(k.log)|, run, p, parentFd, exit)
    // errors carry the evidence path exactly when the rename succeeded
    ensures outcome.Raised? ==> outcome.error.evidencePath == if p.published then Some(run.display) else None
    ensures outcome.PropagatedForeign? ==> !p.published
    ensures outcome.Returned? ==> p.published
    // a normal return was confirmed after the rename
    ensures |old(k.log)| < m <= |k.log|
    ensures outcome.Returned? ==> Confirmed(k.log[..m], run, old(k.descriptors)[parentFd], dir)
    // it returns exactly when no call failed and all found what they should
    ensures outcome.Returned? <==> Clean(k.log, |old(k.log)|, Case(run, guard, old(k.descriptors)[parentFd], dir))
    // every other way to end has its call, before or after the rename, or in the finally block
    ensures Ends(k.log[..m], |old(k.log)|, Case(run, guard, old(k.descriptors)[parentFd], dir), p.published, tried)
    ensures Concluded(outcome, tried, p.published, NoneFailed(k.log, m))
    // what was made, and what the finally block does about it
    ensures k.log[|old(k.log)|].action == Action.MakeDir(run.staging, p.created)
    ensures p.created ==> MadeDir(k.log, |old(k.log)|, run, dir)
    ensures Actions(k.log[m..]) == FinallyActions(run, dir, p, parentFd, listed, exit)
    // a descriptor is closed twice exactly when a close is lost in the confirmation's walk
    ensures ClosesOnce(k.log, |old(k.log)|) <==> !CloseLost(k.log, |old(k.log)|)
    ensures CloseLost(k.log, |old(k.log)|) ==> p.published
    // one is left open that was not exactly when a close is lost or an opened file is not wrapped
    ensures k.descriptors.Keys <= old(k.descriptors).Keys <==> !Leaked(k.log, |old(k.log)|)
    ensures HeldOn(old(k.descriptors) - (if exit.Finished? then {parentFd} else {}), k.descriptors,
                   Leaked(k.log, |old(k.log)|), old(k.nextFd))
    ensures Leaked(k.log, |old(k.log)|) ==> outcome.Raised? && outcome.error.code == LostCode(p.published)
    ensures exit == LeftAtCleanup ==> p.created && !p.published && outcome.Raised?
    ensures exit == LeftAtStagingClose ==> p.published && outcome.Raised?
  {
    var flow, progress;
    ghost var at, x;
    flow, progress, dir, at := Attempt(k, parentFd, run, guard);
    p, tried, x := progress, flow, Case(run, guard, old(k.descriptors)[parentFd], dir);
    m := |k.log|;
    ghost var attempted, fd0, lost := k.log, old(k.nextFd), Leaked(k.log, |old(k.log)|);
    outcome, exit, listed := Conclude(k, parentFd, run, flow, progress, dir, old(k.descriptors), fd0, lost);
    LeakIffLost(old(k.descriptors), k.descriptors, if exit.Finished? then {parentFd} else {}, lost, fd0);
    WholeRun(k.log, attempted, |old(k.log)|, run, dir, guard, p, parentFd, fd0, listed, exit);
    ReturnedIffClean(k.log, attempted, |old(k.log)|, at, x, p.published, tried, outcome);
  }

  /** Completing the try block and failing nowhere afterwards is the same as failing nowhere. */
  lemma ReturnedIffClean(log: seq<Event>, attempted: seq<Event>, n0: nat, at: nat, x: Case, published: bool,
                         tried: Flow,
                         outcome: Outcome)
    requires n0 <= |attempted| && attempted <= log && CleanupCalls(log, |attempted|, x.run, x.dir)
    requires Ends(attempted, n0, x, published, tried) && (tried.Completed? ==> Arrived(attempted, n0, at, x))
    requires Concluded(outcome, tried, published, NoneFailed(log, |attempted|))
    ensures outcome.Returned? <==> Clean(log, n0, x)
  {
    if tried.Completed? {
      ArrivedExtends(attempted, log, n0, at, x);
      ArrivedIsNotElsewhere(log, n0, at, x);
      if NoneFailed(log, |attempted|) {
        forall i | n0 <= i < |log| ensures !log[i].failed && Matches(log[i].action, x) {
          assert i < |attempted| ==> log[i] == attempted[i];
        }
      } else {
        var i :| |attempted| <= i < |log| && log[i].failed;
        assert n0 <= i;
      }
    } else {
      ExplainedLater(attempted, log, n0, x, published, tried);
      ExplainedIsUnclean(log, n0, x, published, tried);
    }
  }

  lemma ExplainedLater(log: seq<Event>, log': seq<Event>, n0: nat, x: Case, published: bool, flow: Flow)
    requires log <= log' && Explained(log, n0, x, published, flow)
    ensures Explained(log', n0, x, published, flow)
  {
    if i :| n0 <= i < |log| && Blames(log[i], x, published, flow) {
      assert Blames(log'[i], x, published, flow);
    } else {
      var n: nat, h :| n0 <= n && Walked(log, n, x.run.parentParts, h) && h.inode != x.parent;
      WalkedPrefix(log, log', n, x.run.parentParts, h);
    }
  }
}

/** run_task: confirming a published bundle after the rename. */
module Confirmation {
  import opened Wrappers
  import opened FileSystem
  import opened DirectoryWalk
  import opened PublicationLog
  import opened EvidenceFiles

  // ----- confirmation after the rename -----

  /** No descriptor is closed twice, unless a close was lost in the walk; then one is. */
  ghost predicate ClosesSoundly(log: seq<Event>, n0: nat) {
    ClosesOnce(log, n0) <==> !CloseLost(log, n0)
  }

  /** Calls of the confirmation: nothing is changed, and only descriptors opened here are used and closed. */
  ghost predicate ConfirmCalls(log: seq<Event>, n0: nat, fd0: Fd) {
    && (forall i :: n0 <= i < |log| ==>
          && EntriesKept(log[i])
          && match log[i].action
             case OpenRoot(_) => true
             case OpenPart(via, _, _, _) => via >= fd0
             case OpenDir(_, _) => true
             case OpenFile(_, _, _) => true
             case Wrap(_) => true
             case ReadFile(_, _, _) => true
             case Sync(_) => true
             case Stat(_, _) => true
             case Close(fd) => fd >= fd0
             case _ => false)
    && ClosesSoundly(log, n0)
  }

  ghost predicate FdsBelow(log: seq<Event>, n0: nat, fd: Fd) {
    forall i :: n0 <= i < |log| ==>
      && (log[i].action.Close? ==> log[i].action.fd < fd)
      && (log[i].action.OpenPart? ==> log[i].action.via < fd)
  }

  /** The same without a walk. */
  ghost predicate TargetCalls(log: seq<Event>, n0: nat, fd0: Fd) {
    && (forall i :: n0 <= i < |log| ==>
          && EntriesKept(log[i])
          && match log[i].action
             case OpenDir(_, _) => true
             case OpenFile(_, _, _) => true
             case Wrap(_) => true
             case ReadFile(_, _, _) => true
             case Sync(_) => true
             case Stat(_, _) => true
             case Close(fd) => fd >= fd0
             case _ => false)
    && ClosesOnce(log, n0)
  }

  lemma ConfirmCallsCompose(log: seq<Event>, n0: nat, n1: nat, fd0: Fd, fd1: Fd)
    requires n0 <= n1 <= |log| && fd0 <= fd1
    requires ConfirmCalls(log[..n1], n0, fd0) && ClosesOnce(log[..n1], n0) && FdsBelow(log[..n1], n0, fd1)
    requires TargetCalls(log, n1, fd1)
    ensures ConfirmCalls(log, n0, fd0) && !CloseLost(log, n0)
  {
    forall i | n0 <= i < n1 ensures log[i] == log[..n1][i] { }
    forall i, j | n0 <= i < j < |log| && log[i].action.Close? ensures log[i].action != log[j].action {
      if i < n1 && j < n1 {
        assert log[..n1][i].action != log[..n1][j].action;
      }
    }
    forall i | n0 < i < |log| ensures !Lost(log, i) {
      assert i < n1 ==> (Lost(log, i) <==> Lost(log[..n1], i));
    }
  }

  /** The try and finally statements of an identity check; a pending error takes up a failing close. */
  method IdentifyAndClose(k: Kernel, fd: Fd, expected: Inode, run: Run) returns (flow: Flow)
    requires k.Valid() && fd in k.descriptors
    modifies k`world, k`descriptors, k`log
    ensures k.Valid() && k.descriptors == old(k.descriptors) - {fd}
    ensures |k.log| == |old(k.log)| + 2 && old(k.log) <= k.log
    ensures EntriesKept(k.log[|old(k.log)|]) && EntriesKept(k.log[|old(k.log)| + 1])
    ensures k.log[|old(k.log)|].action.Stat? && k.log[|old(k.log)| + 1].action == Action.Close(fd)
    ensures flow.Completed? ==>
              && !k.log[|old(k.log)|].failed && !k.log[|old(k.log)| + 1].failed && old(k.descriptors)[fd] == expected
    ensures flow.Os? ==> k.log[|old(k.log)|].failed || k.log[|old(k.log)| + 1].failed
    ensures flow.Runner? ==> old(k.descriptors)[fd] != expected && flow.error.code == "OUTPUT_LOCATION_CHANGED"
    ensures flow.Completed? || flow.Os? || (flow.Runner? && flow.error.evidencePath == Some(run.display))
  {
    var observed := k.Stat(fd);
    flow := if observed.Failed? then Os(observed.detail)
            else if observed.value != expected then Runner(PublishedError("OUTPUT_LOCATION_CHANGED", run, []))
            else Completed;
    ghost var log := k.log;
    var closed := k.Close(fd);
    if closed.Failed? {
      flow := if flow.Runner? then Runner(TakeUp(flow.error, closed.detail)) else Os(closed.detail);
    }
    assert k.log[|old(k.log)|] == log[|old(k.log)|];
  }

  /** The walk that starts at this position led along the path to this directory. */
  ghost predicate PathLedTo(log: seq<Event>, n: nat, parts: seq<Name>, inode: Inode) {
    exists fd :: Walked(log, n, parts, Handle(fd, inode))
  }

  lemma WalkedPrefix(log: seq<Event>, log': seq<Event>, n0: nat, parts: seq<Name>, h: Handle)
    requires Walked(log, n0, parts, h) && log <= log'
    ensures Walked(log', n0, parts, h)
  {
    assert log'[n0] == log[n0] && log'[OpenAt(n0, |parts|)] == log[OpenAt(n0, |parts|)];
    forall j | 0 <= j < |parts| ensures StepsTo(log', n0, j, parts[j]) {
      assert StepsTo(log, n0, j, parts[j]);
      assert log'[OpenAt(n0, j)] == log[OpenAt(n0, j)];
      assert log'[OpenAt(n0, j + 1)] == log[OpenAt(n0, j + 1)];
      assert log'[OpenAt(n0, j + 1) + 1] == log[OpenAt(n0, j + 1) + 1];
    }
  }

  lemma WalkCallsConfirm(log: seq<Event>, n0: nat, fd0: Fd, fd1: Fd)
    requires WalkCalls(log, n0, fd0, fd1) && ClosesSoundly(log, n0)
    ensures ConfirmCalls(log, n0, fd0) && FdsBelow(log, n0, fd1) && !Unwrapped(log, n0)
  { }

  /** Looking at a descriptor before anything else of the confirmation. */
  lemma StatFirst(log: seq<Event>, n0: nat, fd0: Fd)
    requires n0 < |log| && log[n0].action.Stat? && EntriesKept(log[n0]) && ConfirmCalls(log, n0 + 1, fd0)
    ensures ConfirmCalls(log, n0, fd0) && (CloseLost(log, n0) <==> CloseLost(log, n0 + 1))
    ensures ClosesOnce(log, n0) <==> ClosesOnce(log, n0 + 1)
    ensures Unwrapped(log, n0) <==> Unwrapped(log, n0 + 1)
  {
    ClosesAfter(log, n0, n0 + 1);
    if Unwrapped(log, n0 + 1) {
      var i :| n0 + 1 <= i < |log| && WrapFailed(log[i]);
      assert n0 <= i;
    }
  }

  /** The walk arrived, and the descriptor it returned was looked at and closed. */
  lemma ArrivedAndClosed(log: seq<Event>, stat: Event, close: Event, n0: nat, parts: seq<Name>, h: Handle, fd0: Fd)
    requires Walking(log, n0, parts, h, fd0) && close.action == Close(h.fd) && EntriesKept(close)
    requires stat.action.Stat? && EntriesKept(stat)
    ensures var log' := log + [stat] + [close];
            && ConfirmCalls(log', n0, fd0) && FdsBelow(log', n0, h.fd + 1) && !Unwrapped(log', n0)
            && ClosesOnce(log', n0) && !CloseLost(log', n0)
            && Walked(log', n0, parts, h) && |log'| == n0 + 3 + 2 * |parts|
  {
    OrderlyOpen(log, stat, n0, h.fd);
    OrderlyClose(log + [stat], close, n0, h.fd, h.fd + 1);
    WalkedPrefix(log, log + [stat] + [close], n0, parts, h);
  }

  /** The only walk since this position led along the parent's path to the parent. */
  ghost predicate Arrived(log: seq<Event>, n0: nat, n1: nat, x: Case) {
    && n0 <= n1 < |log| && (forall n :: n0 <= n < |log| && log[n].action.OpenRoot? ==> n == n1)
    && PathLedTo(log, n1, x.run.parentParts, x.parent)
  }

  lemma ArrivedIsNotElsewhere(log: seq<Event>, n0: nat, n1: nat, x: Case)
    requires Arrived(log, n0, n1, x)
    ensures !LedElsewhere(log, n0, x)
  { }

  lemma ArrivedExtends(log: seq<Event>, log': seq<Event>, n0: nat, n1: nat, x: Case)
    requires Arrived(log, n0, n1, x) && log <= log'
    requires forall i :: |log| <= i < |log'| ==> !log'[i].action.OpenRoot?
    ensures Arrived(log', n0, n1, x)
  {
    var fd :| Walked(log, n1, x.run.parentParts, Handle(fd, x.parent));
    WalkedPrefix(log, log', n1, x.run.parentParts, Handle(fd, x.parent));
    forall n | n0 <= n < |log'| && log'[n].action.OpenRoot? ensures n == n1 {
      assert log'[n] == log[n];
    }
  }

  /** Nothing in a walk that arrived but its first call opens the root. */
  lemma WalkedOpensRootOnce(log: seq<Event>, n0: nat, parts: seq<Name>, h: Handle, i: nat)
    requires Walked(log, n0, parts, h) && n0 < i < n0 + 1 + 2 * |parts|
    ensures !log[i].action.OpenRoot?
  {
    var j := (i - n0 - 1) / 2;
    assert StepsTo(log, n0, j, parts[j]);
    assert i == OpenAt(n0, j + 1) || i == OpenAt(n0, j + 1) + 1;
  }

  lemma WalkEnds(log: seq<Event>, n0: nat, x: Case, found: Opening, flow: Flow)
    requires WalkExplained(log, n0, found) && n0 <= |log|
    requires if found.Broken? then flow.Os?
             else flow.Runner? && (flow.error.code == "OUTPUT_LOCATION_CHANGED"
                                   || flow.error.code == "OUTPUT_FINALIZATION_UNCONFIRMED")
    ensures Ends(log, n0, x, true, flow)
  {
    var i :| n0 <= i < |log| && WalkBlames(log[i], found);
    assert Blames(log[i], x, true, flow);
  }

  /** `_assert_published_parent_identity` */
  method ConfirmParent(k: Kernel, parentFd: Fd, run: Run, ghost x: Case) returns (flow: Flow, ghost at: nat)
    requires k.Valid() && parentFd in k.descriptors && x.run == run && x.parent == k.descriptors[parentFd]
    modifies k`world, k`descriptors, k`nextFd, k`log
    ensures k.Valid() && old(k.log) <= k.log && old(k.nextFd) <= k.nextFd
    ensures ConfirmCalls(k.log, |old(k.log)|, old(k.nextFd)) && FdsBelow(k.log, |old(k.log)|, k.nextFd)
    ensures !Unwrapped(k.log, |old(k.log)|)
    ensures HeldOn(old(k.descriptors), k.descriptors, CloseLost(k.log, |old(k.log)|), old(k.nextFd))
    ensures CloseLost(k.log, |old(k.log)|) ==> flow.Os?
    ensures flow.Completed? ==>
              && at == |old(k.log)| + 1 && |k.log| == at + 3 + 2 * |run.parentParts|
              && Arrived(k.log, |old(k.log)|, at, x)
    ensures flow.Completed? || flow.Os? || (flow.Runner? && flow.error.evidencePath == Some(run.display))
    ensures Ends(k.log, |old(k.log)|, x, true, flow)
  {
    var expected := k.Stat(parentFd);
    ghost var log := k.log;
    at := |log|;
    if expected.Failed? {
      flow := Os(expected.detail);
      assert Blames(k.log[|old(k.log)|], x, true, flow);
      return;
    }
    flow := ConfirmPath(k, expected.value, run, x);
    assert k.log[|old(k.log)|] == log[|old(k.log)|];
    StatFirst(k.log, |old(k.log)|, old(k.nextFd));
    EndsExtends(log, k.log, |old(k.log)|, x, true, flow);
  }

  /** The walk and the check of where it led. */
  method ConfirmPath(k: Kernel, expected: Inode, run: Run, ghost x: Case) returns (flow: Flow)
    requires k.Valid() && x.run == run && x.parent == expected
    modifies k`world, k`descriptors, k`nextFd, k`log
    ensures k.Valid() && old(k.log) <= k.log && old(k.nextFd) <= k.nextFd
    ensures ConfirmCalls(k.log, |old(k.log)|, old(k.nextFd)) && FdsBelow(k.log, |old(k.log)|, k.nextFd)
    ensures !Unwrapped(k.log, |old(k.log)|)
    ensures HeldOn(old(k.descriptors), k.descriptors, CloseLost(k.log, |old(k.log)|), old(k.nextFd))
    ensures CloseLost(k.log, |old(k.log)|) ==> flow.Os?
    ensures flow.Completed? ==>
              |k.log| == |old(k.log)| + 3 + 2 * |run.parentParts| && Arrived(k.log, |old(k.log)|, |old(k.log)|, x)
    ensures flow.Completed? || flow.Os? || (flow.Runner? && flow.error.evidencePath == Some(run.display))
    ensures Ends(k.log, |old(k.log)|, x, true, flow)
  {
    ghost var n0, fd0, before := |k.log|, k.nextFd, k.descriptors;
    var found := OpenDirectoryNoSymlinks(k, run.parentParts);
    if !found.Opened? {
      WalkCallsConfirm(k.log, n0, fd0, k.nextFd);
      flow := if found.Broken? then Os(found.detail)
              else Runner(PublishedError(
                if found.locationCause then "OUTPUT_LOCATION_CHANGED" else "OUTPUT_FINALIZATION_UNCONFIRMED",
                run, [found.detail]));
      WalkEnds(k.log, n0, x, found, flow);
      return;
    }
    ghost var log, h := k.log, Handle(found.fd, k.descriptors[found.fd]);
    flow := IdentifyAndClose(k, found.fd, expected, run);
    Dropped(before, h.fd, h.inode, Handle(h.fd + 1, h.inode));
    assert k.log == log + [k.log[|log|]] + [k.log[|log| + 1]];
    ArrivedAndClosed(log, k.log[|log|], k.log[|log| + 1], n0, run.parentParts, h, fd0);
    PathEnds(log, k.log, n0, x, h, fd0, flow);
  }

  lemma PathEnds(log: seq<Event>, log': seq<Event>, n0: nat, x: Case, h: Handle, fd0: Fd, flow: Flow)
    requires Walking(log, n0, x.run.parentParts, h, fd0) && log <= log' && |log'| == |log| + 2
    requires log'[|log|].action.Stat? && log'[|log| + 1].action.Close? && Walked(log', n0, x.run.parentParts, h)
    requires flow.Completed? ==> !log'[|log|].failed && !log'[|log| + 1].failed && h.inode == x.parent
    requires flow.Os? ==> log'[|log|].failed || log'[|log| + 1].failed
    requires flow.Runner? ==> h.inode != x.parent && flow.error.code == "OUTPUT_LOCATION_CHANGED"
    requires !flow.Foreign?
    ensures Ends(log', n0, x, true, flow) && (flow.Completed? ==> Arrived(log', n0, n0, x))
  {
    match flow {
      case Completed =>
        forall i | n0 <= i < |log'| ensures !log'[i].failed && Matches(log'[i].action, x) {
          assert i < |log| ==> log'[i] == log[i];
        }
        forall i | n0 < i < |log'| ensures !log'[i].action.OpenRoot? {
          if i < |log| {
            WalkedOpensRootOnce(log', n0, x.run.parentParts, h, i);
          }
        }
        assert Walked(log', n0, x.run.parentParts, Handle(h.fd, x.parent));
      case Os(_) =>
        assert Blames(if log'[|log|].failed then log'[|log|] else log'[|log| + 1], x, true, flow);
      case Runner(_) =>
      case Foreign =>
    }
  }

  /** `_assert_published_target_identity` */
  method ConfirmTarget(k: Kernel, publishedFd: Fd, run: Run, ghost x: Case) returns (flow: Flow)
    requires k.Valid() && publishedFd in k.descriptors && x.run == run && x.dir == k.descriptors[publishedFd]
    modifies k`world, k`descriptors, k`nextFd, k`log
    ensures k.Valid() && old(k.log) <= k.log && k.descriptors == old(k.descriptors) && old(k.nextFd) <= k.nextFd
    ensures TargetCalls(k.log, |old(k.log)|, old(k.nextFd)) && !Unwrapped(k.log, |old(k.log)|)
    ensures flow.Completed? ==>
              && |k.log| == |old(k.log)| + 4
              && NamesDir(k.log[|old(k.log)| + 1], run.target, k.descriptors[publishedFd])
    ensures flow.Completed? || flow.Os? || (flow.Runner? && flow.error.evidencePath == Some(run.display))
    ensures Ends(k.log, |old(k.log)|, x, true, flow)
  {
    var expected := k.Stat(publishedFd);
    ghost var log := k.log;
    if expected.Failed? {
      flow := Os(expected.detail);
      assert Blames(k.log[|old(k.log)|], x, true, flow);
      return;
    }
    flow := IdentifyTarget(k, expected.value, run, x);
    TargetAfterStat(log, k.log, |old(k.log)|, old(k.nextFd));
    EndsExtends(log, k.log, |old(k.log)|, x, true, flow);
  }

  lemma TargetAfterStat(log: seq<Event>, log': seq<Event>, n0: nat, fd0: Fd)
    requires |log| == n0 + 1 && log <= log' && log[n0].action.Stat? && EntriesKept(log[n0])
    requires TargetCalls(log', n0 + 1, fd0) && !Unwrapped(log', n0 + 1)
    ensures TargetCalls(log', n0, fd0) && !Unwrapped(log', n0)
  {
    assert log'[n0] == log[n0];
  }

  /** The target's name and what it stands for. */
  method IdentifyTarget(k: Kernel, expected: Inode, run: Run, ghost x: Case) returns (flow: Flow)
    requires k.Valid() && x.run == run && x.dir == expected
    modifies k`world, k`descriptors, k`nextFd, k`log
    ensures k.Valid() && old(k.log) <= k.log && k.descriptors == old(k.descriptors) && old(k.nextFd) <= k.nextFd
    ensures TargetCalls(k.log, |old(k.log)|, old(k.nextFd)) && !Unwrapped(k.log, |old(k.log)|)
    ensures flow.Completed? ==> |k.log| == |old(k.log)| + 3 && NamesDir(k.log[|old(k.log)|], run.target, expected)
    ensures flow.Completed? || flow.Os? || (flow.Runner? && flow.error.evidencePath == Some(run.display))
    ensures Ends(k.log, |old(k.log)|, x, true, flow)
  {
    var found := k.OpenDir(run.target);
    if found.Failed? {
      flow := Runner(PublishedError("OUTPUT_LOCATION_CHANGED", run, [found.detail]));
      assert Blames(k.log[|old(k.log)|], x, true, flow);
      return;
    }
    ghost var log, inode := k.log, k.descriptors[found.value];
    flow := IdentifyAndClose(k, found.value, expected, run);
    OpenedAndClosed(log, k.log, |old(k.log)|, old(k.nextFd), x, inode, flow);
  }

  lemma OpenedAndClosed(log: seq<Event>, log': seq<Event>, n0: nat, fd0: Fd, x: Case, inode: Inode, flow: Flow)
    requires |log| == n0 + 1 && |log'| == n0 + 3 && log <= log'
    requires log[n0].action == OpenDir(x.run.target, Some(inode)) && EntriesKept(log[n0]) && !log[n0].failed
    requires log'[n0 + 1].action.Stat? && EntriesKept(log'[n0 + 1])
    requires log'[n0 + 2].action.Close? && log'[n0 + 2].action.fd >= fd0 && EntriesKept(log'[n0 + 2])
    requires flow.Completed? ==> !log'[n0 + 1].failed && !log'[n0 + 2].failed && inode == x.dir
    requires flow.Os? ==> log'[n0 + 1].failed || log'[n0 + 2].failed
    requires flow.Runner? ==> inode != x.dir && flow.error.code == "OUTPUT_LOCATION_CHANGED"
    requires !flow.Foreign?
    ensures TargetCalls(log', n0, fd0) && !Unwrapped(log', n0) && log'[n0] == log[n0]
    ensures Ends(log', n0, x, true, flow)
  {
    assert log'[n0] == log[n0];
    if !flow.Completed? {
      assert Blames(if flow.Runner? then log'[n0] else if log'[n0 + 1].failed then log'[n0 + 1] else log'[n0 + 2],
                    x, true, flow);
    }
  }

  /** At this call the name stood for the directory. */
  ghost predicate NamesDir(e: Event, name: Name, dir: Inode) {
    e.action == OpenDir(name, Some(dir)) && name in e.before.entries && e.before.entries[name] == dir
  }

  /** The last calls: the parent was synced, its path led to it, the target name stood for the directory, and all payloads
      were read back. */
  ghost predicate Confirmed(log: seq<Event>, run: Run, parent: Inode, dir: Inode) {
    && |log| >= 21 + 2 * |run.parentParts|
    && log[|log| - 21 - 2 * |run.parentParts|].action == Sync(parent)
    && PathLedTo(log, |log| - 19 - 2 * |run.parentParts|, run.parentParts, parent)
    && NamesDir(log[|log| - 15], run.target, dir)
    && AllReadBack(log, dir, run.bundle)
  }

  /** Target name and payloads, once the parent's path is confirmed. */
  method ConfirmBundle(k: Kernel, stagingFd: Fd, run: Run, ghost x: Case) returns (flow: Flow)
    requires k.Valid() && stagingFd in k.descriptors && x.run == run && x.dir == k.descriptors[stagingFd]
    modifies k`world, k`descriptors, k`nextFd, k`log
    ensures k.Valid() && old(k.log) <= k.log && old(k.nextFd) <= k.nextFd
    ensures TargetCalls(k.log, |old(k.log)|, old(k.nextFd))
    ensures HeldOn(old(k.descriptors), k.descriptors, Unwrapped(k.log, |old(k.log)|), old(k.nextFd))
    ensures Unwrapped(k.log, |old(k.log)|) ==> flow.Os?
    ensures flow.Completed? ==>
              && |k.log| == |old(k.log)| + 16
              && NamesDir(k.log[|old(k.log)| + 1], run.target, old(k.descriptors)[stagingFd])
              && AllReadBack(k.log, old(k.descriptors)[stagingFd], run.bundle)
    ensures flow.Completed? || flow.Os? || (flow.Runner? && flow.error.evidencePath == Some(run.display))
    ensures Ends(k.log, |old(k.log)|, x, true, flow)
  {
    flow := ConfirmTarget(k, stagingFd, run, x);
    if !flow.Completed? { return; }
    ghost var log := k.log;
    flow := CompareFiles(k, stagingFd, k.descriptors[stagingFd], run.bundle, Some(run.display), x);
    TargetThenFiles(log, k.log, |old(k.log)|, old(k.nextFd), old(k.descriptors)[stagingFd]);
    EndsExtends(log, k.log, |old(k.log)|, x, true, flow);
  }

  lemma TargetThenFiles(log: seq<Event>, log': seq<Event>, n0: nat, fd0: Fd, dir: Inode)
    requires n0 + 1 < |log| && log <= log' && TargetCalls(log, n0, fd0) && !Unwrapped(log, n0)
    requires ReadCalls(log', |log|, dir)
    ensures TargetCalls(log', n0, fd0) && log'[n0 + 1] == log[n0 + 1]
    ensures Unwrapped(log', n0) <==> Unwrapped(log', |log|)
  {
    UnwrappedExtends(log, log', n0);
    forall i | n0 <= i < |log| ensures log'[i] == log[i] { }
  }

  /** Everything after the parent was synced. */
  method ConfirmAll(k: Kernel, parentFd: Fd, stagingFd: Fd, run: Run, ghost x: Case) returns (flow: Flow, ghost at: nat)
    requires k.Valid() && parentFd in k.descriptors && stagingFd in k.descriptors
    requires x.run == run && x.parent == k.descriptors[parentFd] && x.dir == k.descriptors[stagingFd]
    modifies k`world, k`descriptors, k`nextFd, k`log
    ensures k.Valid() && old(k.log) <= k.log
    ensures ConfirmCalls(k.log, |old(k.log)|, old(k.nextFd))
    ensures HeldOn(old(k.descriptors), k.descriptors, Leaked(k.log, |old(k.log)|), old(k.nextFd))
    ensures Leaked(k.log, |old(k.log)|) ==> flow.Os?
    ensures flow.Completed? ==>
              && at == |old(k.log)| + 1 && Arrived(k.log, |old(k.log)|, at, x)
              && |k.log| == |old(k.log)| + 20 + 2 * |run.parentParts|
              && NamesDir(k.log[|k.log| - 15], run.target, x.dir) && AllReadBack(k.log, x.dir, run.bundle)
    ensures flow.Completed? || flow.Os? || (flow.Runner? && flow.error.evidencePath == Some(run.display))
    ensures Ends(k.log, |old(k.log)|, x, true, flow)
  {
    flow, at := ConfirmParent(k, parentFd, run, x);
    if !flow.Completed? { return; }
    ghost var log, fd1 := k.log, k.nextFd;
    flow := ConfirmBundle(k, stagingFd, run, x);
    ParentThenBundle(log, k.log, |old(k.log)|, old(k.nextFd), fd1);
    ArrivedExtends(log, k.log, |old(k.log)|, at, x);
    EndsExtends(log, k.log, |old(k.log)|, x, true, flow);
  }

  method Confirm(k: Kernel, parentFd: Fd, stagingFd: Fd, run: Run, ghost x: Case) returns (flow: Flow, ghost at: nat)
    requires k.Valid() && parentFd in k.descriptors && stagingFd in k.descriptors
    requires x.run == run && x.parent == k.descriptors[parentFd] && x.dir == k.descriptors[stagingFd]
    modifies k`world, k`descriptors, k`nextFd, k`log
    ensures k.Valid() && old(k.log) <= k.log
    ensures ConfirmCalls(k.log, |old(k.log)|, old(k.nextFd))
    ensures HeldOn(old(k.descriptors), k.descriptors, Leaked(k.log, |old(k.log)|), old(k.nextFd))
    ensures Leaked(k.log, |old(k.log)|) ==> flow.Os?
    ensures flow.Completed? ==>
              && |k.log| == |old(k.log)| + 21 + 2 * |run.parentParts|
              && Confirmed(k.log, run, x.parent, x.dir) && Arrived(k.log, |old(k.log)|, at, x)
    ensures flow.Completed? || flow.Os? || (flow.Runner? && flow.error.evidencePath == Some(run.display))
    ensures Ends(k.log, |old(k.log)|, x, true, flow)
  {
    var synced := k.Sync(parentFd);
    ghost var log := k.log;
    at := |log|;
    if synced.Failed? {
      flow := Runner(PublishedError("OUTPUT_DURABILITY_UNCONFIRMED", run, [synced.detail]));
      assert Blames(k.log[|old(k.log)|], x, true, flow);
      return;
    }
    flow, at := ConfirmAll(k, parentFd, stagingFd, run, x);
    SyncFirst(log, k.log, |old(k.log)|, old(k.nextFd), at, x, flow);
    EndsExtends(log, k.log, |old(k.log)|, x, true, flow);
  }

  lemma SyncFirst(log: seq<Event>, log': seq<Event>, n0: nat, fd0: Fd, at: nat, x: Case, flow: Flow)
    requires |log| == n0 + 1 && log <= log' && log[n0].action == Sync(x.parent) && EntriesKept(log[n0])
    requires ConfirmCalls(log', n0 + 1, fd0)
    requires flow.Completed? ==>
               && at == n0 + 2 && Arrived(log', n0 + 1, at, x) && |log'| == n0 + 21 + 2 * |x.run.parentParts|
               && NamesDir(log'[|log'| - 15], x.run.target, x.dir) && AllReadBack(log', x.dir, x.run.bundle)
    ensures ConfirmCalls(log', n0, fd0) && (Leaked(log', n0) <==> Leaked(log', n0 + 1))
    ensures flow.Completed? ==> Confirmed(log', x.run, x.parent, x.dir) && Arrived(log', n0, at, x)
  {
    assert log'[n0] == log[n0];
    ClosesAfter(log', n0, n0 + 1);
    if Unwrapped(log', n0 + 1) {
      var i :| n0 + 1 <= i < |log'| && WrapFailed(log'[i]);
      assert n0 <= i;
    }
  }

  lemma ParentThenBundle(log: seq<Event>, log': seq<Event>, n0: nat, fd0: Fd, fd1: Fd)
    requires n0 <= |log| && log <= log' && fd0 <= fd1
    requires ConfirmCalls(log, n0, fd0) && FdsBelow(log, n0, fd1) && !Leaked(log, n0) && TargetCalls(log', |log|, fd1)
    ensures log'[..|log|] == log && ConfirmCalls(log', n0, fd0) && !CloseLost(log', n0)
    ensures Leaked(log', n0) <==> Unwrapped(log', |log|)
    ensures forall i :: |log| <= i < |log'| ==> !log'[i].action.OpenRoot?
  {
    assert log'[..|log|] == log;
    ConfirmCallsCompose(log', n0, |log|, fd0, fd1);
    UnwrappedExtends(log, log', n0);
  }
}

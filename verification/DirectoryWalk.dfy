/** run_task: `_open_directory_no_symlinks`, which walks to a directory one component at a time. */
module DirectoryWalk {
  import opened Wrappers
  import opened FileSystem

  /** A descriptor, the walk's own runner error, or an OSError that it lets through. */
  datatype Opening = Opened(fd: Fd) | Refused(detail: string, locationCause: bool) | Broken(detail: string)

  // ----- closes in a log -----

  ghost predicate ClosesOnce(log: seq<Event>, n0: nat) {
    forall i, j :: n0 <= i < j < |log| && log[i].action.Close? ==> log[i].action != log[j].action
  }

  /** A descriptor was closed right after a component was opened through it, and the close reported a failure. */
  ghost predicate Lost(log: seq<Event>, i: int) {
    && 0 < i < |log|
    && log[i].action.Close? && log[i].failed
    && log[i - 1].action.OpenPart? && log[i - 1].action.handle.Some?
    && log[i - 1].action.via == log[i].action.fd
  }

  /** Some close failed while the descriptor of the next component was already open. */
  ghost predicate CloseLost(log: seq<Event>, n0: nat) {
    exists i :: n0 < i < |log| && Lost(log, i)
  }

  /** One descriptor that was not open before stays open. */
  ghost predicate LeaksOne(before: map<Fd, Inode>, after: map<Fd, Inode>, fd0: Fd) {
    exists fd :: fd in after && fd >= fd0 && after == before[fd := after[fd]]
  }

  /** Calls that leave the parent's entries alone. */
  ghost predicate EntriesKept(e: Event) {
    e.after.entries == e.before.entries
  }

  /** Calls of a walk whose descriptors lie in this range. */
  ghost predicate WalkCalls(log: seq<Event>, n0: nat, fd0: Fd, fd1: Fd) {
    forall i :: n0 <= i < |log| ==>
      && EntriesKept(log[i])
      && match log[i].action
         case OpenRoot(_) => true
         case OpenPart(via, _, _, _) => fd0 <= via < fd1
         case Close(fd) => fd0 <= fd < fd1
         case _ => false
  }

  ghost predicate NoneFailed(log: seq<Event>, n0: nat) {
    forall i :: n0 <= i < |log| ==> !log[i].failed
  }

  /** The failed call that the result of a walk is about: the walk's own error stems from a component. */
  ghost predicate WalkBlames(e: Event, r: Opening) {
    && e.failed
    && match r
       case Opened(_) => false
       case Refused(_, _) => e.action.OpenPart?
       case Broken(_) => e.action.OpenRoot? || e.action.Close?
  }

  ghost predicate WalkExplained(log: seq<Event>, n0: nat, r: Opening) {
    exists i :: n0 <= i < |log| && WalkBlames(log[i], r)
  }

  // ----- a walk that arrives -----

  /** What an opening call opened. */
  ghost function OpenedBy(a: Action): Handle {
    match a
    case OpenRoot(Some(fd)) => Handle(fd, ROOT)
    case OpenPart(_, _, _, Some(h)) => h
    case _ => Handle(0, ROOT)
  }

  /** Where the walk that starts at position n0 opens its component number j; the root is number 0. */
  ghost function OpenAt(n0: nat, j: nat): nat {
    if j == 0 then n0 else n0 + 2 * j - 1
  }

  /** The component after number j was resolved in the directory reached so far, which was then closed. */
  ghost predicate StepsTo(log: seq<Event>, n0: nat, j: nat, part: Name)
    requires OpenAt(n0, j + 1) + 1 < |log|
  {
    var from, e := OpenedBy(log[OpenAt(n0, j)].action), log[OpenAt(n0, j + 1)];
    var to := OpenedBy(e.action);
    && e.action == OpenPart(from.fd, from.inode, part, Some(to))
    && (from.inode, part) in e.before.elsewhere && e.before.elsewhere[(from.inode, part)] == to.inode
    && log[OpenAt(n0, j + 1) + 1].action == Close(from.fd)
  }

  /** From the root, component by component, to the directory behind the handle. */
  ghost predicate Walked(log: seq<Event>, n0: nat, parts: seq<Name>, h: Handle) {
    && |log| >= n0 + 1 + 2 * |parts|
    && log[n0].action == OpenRoot(Some(OpenedBy(log[n0].action).fd))
    && (forall j :: 0 <= j < |parts| ==> StepsTo(log, n0, j, parts[j]))
    && h == OpenedBy(log[OpenAt(n0, |parts|)].action)
  }

  // ----- the walk -----

  /** Every close so far was of a descriptor below this one, once, and none was lost. */
  ghost predicate Orderly(log: seq<Event>, n0: nat, fd: Fd) {
    && (forall i :: n0 <= i < |log| && log[i].action.Close? ==> log[i].action.fd < fd)
    && ClosesOnce(log, n0) && !CloseLost(log, n0)
  }

  /** Between two components: the walk has arrived here and is orderly. */
  ghost predicate Walking(log: seq<Event>, n0: nat, parts: seq<Name>, h: Handle, fd0: Fd) {
    && |log| == n0 + 1 + 2 * |parts| && Walked(log, n0, parts, h)
    && fd0 <= h.fd && WalkCalls(log, n0, fd0, h.fd + 1) && Orderly(log, n0, h.fd)
    && !log[|log| - 1].action.OpenPart? && NoneFailed(log, n0)
  }

  lemma LostAppend(log: seq<Event>, e: Event, n0: nat)
    requires n0 < |log|
    ensures CloseLost(log + [e], n0) <==> CloseLost(log, n0) || Lost(log + [e], |log|)
  {
    var more := log + [e];
    if CloseLost(log, n0) {
      var i :| n0 < i < |log| && Lost(log, i);
      assert Lost(more, i);
    }
    if CloseLost(more, n0) {
      var i :| n0 < i < |more| && Lost(more, i);
      assert i < |log| ==> Lost(log, i);
    }
  }

  /** One more call that is no close. */
  lemma OrderlyOpen(log: seq<Event>, e: Event, n0: nat, fd: Fd)
    requires n0 < |log| && Orderly(log, n0, fd) && !e.action.Close?
    ensures Orderly(log + [e], n0, fd)
  {
    LostAppend(log, e, n0);
  }

  /** One more close, of the descriptor that was kept, which reports no failure or follows no successful open. */
  lemma OrderlyClose(log: seq<Event>, e: Event, n0: nat, fd: Fd, fd': Fd)
    requires n0 < |log| && Orderly(log, n0, fd) && e.action == Close(fd) && fd < fd'
    requires !e.failed || (log[|log| - 1].action.OpenPart? ==> log[|log| - 1].action.handle == None)
    ensures Orderly(log + [e], n0, fd')
  {
    LostAppend(log, e, n0);
  }

  lemma WalkedExtends(log: seq<Event>, open: Event, close: Event, n0: nat, parts: seq<Name>, h: Handle, part: Name,
                      h': Handle)
    requires Walked(log, n0, parts, h) && |log| == n0 + 1 + 2 * |parts|
    requires open.action == OpenPart(h.fd, h.inode, part, Some(h')) && close.action == Close(h.fd)
    requires (h.inode, part) in open.before.elsewhere && open.before.elsewhere[(h.inode, part)] == h'.inode
    ensures Walked(log + [open] + [close], n0, parts + [part], h')
  {
    var more, log' := parts + [part], log + [open] + [close];
    assert log'[n0] == log[n0];
    forall j | 0 <= j < |more| ensures StepsTo(log', n0, j, more[j]) {
      assert log'[OpenAt(n0, j)] == log[OpenAt(n0, j)];
      if j < |parts| {
        assert StepsTo(log, n0, j, parts[j]);
        assert log'[OpenAt(n0, j + 1)] == log[OpenAt(n0, j + 1)];
        assert log'[OpenAt(n0, j + 1) + 1] == log[OpenAt(n0, j + 1) + 1];
      }
    }
  }

  /** The next component was opened through the descriptor kept so far. */
  ghost predicate Next(open: Event, h: Handle, part: Name, target: Option<Handle>) {
    && open.action == OpenPart(h.fd, h.inode, part, target) && EntriesKept(open) && (open.failed <==> target.None?)
    && (target.Some? ==>
          && (h.inode, part) in open.before.elsewhere && open.before.elsewhere[(h.inode, part)] == target.value.inode
          && h.fd < target.value.fd)
  }

  ghost predicate ClosesHere(close: Event, h: Handle) {
    close.action == Close(h.fd) && EntriesKept(close)
  }

  /** A component opened and the one before it closed. */
  lemma WalkAdvances(log: seq<Event>, open: Event, close: Event, n0: nat, parts: seq<Name>, h: Handle, fd0: Fd,
                     part: Name,
                     h': Handle)
    requires Walking(log, n0, parts, h, fd0) && Next(open, h, part, Some(h')) && ClosesHere(close, h) && !close.failed
    ensures Walking(log + [open] + [close], n0, parts + [part], h', fd0)
  {
    WalkedExtends(log, open, close, n0, parts, h, part, h');
    OrderlyOpen(log, open, n0, h.fd);
    OrderlyClose(log + [open], close, n0, h.fd, h'.fd);
  }

  /** A component that cannot be opened: the descriptor before it is closed. */
  lemma WalkStops(log: seq<Event>, open: Event, close: Event, n0: nat, parts: seq<Name>, h: Handle, fd0: Fd, part: Name)
    requires Walking(log, n0, parts, h, fd0) && Next(open, h, part, None) && ClosesHere(close, h)
    ensures WalkCalls(log + [open] + [close], n0, fd0, h.fd + 1) && Orderly(log + [open] + [close], n0, h.fd + 1)
  {
    OrderlyOpen(log, open, n0, h.fd);
    OrderlyClose(log + [open], close, n0, h.fd, h.fd + 1);
  }

  /** A close that fails in the walk: the handler closes the same descriptor again. */
  lemma WalkBreaks(log: seq<Event>, open: Event, close: Event, again: Event, n0: nat, parts: seq<Name>, h: Handle,
                   fd0: Fd,
                   part: Name, h': Handle)
    requires Walking(log, n0, parts, h, fd0) && Next(open, h, part, Some(h'))
    requires ClosesHere(close, h) && close.failed && ClosesHere(again, h)
    ensures var log' := log + [open] + [close] + [again];
            WalkCalls(log', n0, fd0, h.fd + 1) && !ClosesOnce(log', n0) && CloseLost(log', n0)
  {
    var log' := log + [open] + [close] + [again];
    assert Lost(log', |log| + 1);
    assert log'[|log| + 1].action == log'[|log| + 2].action;
  }

  /** How one step, or the walk, leaves log and descriptors when it does not arrive. */
  ghost predicate Ended(log: seq<Event>, n0: nat, r: Opening, before: map<Fd, Inode>, after: map<Fd, Inode>, fd0: Fd) {
    && (ClosesOnce(log, n0) <==> !CloseLost(log, n0)) && WalkExplained(log, n0, r)
    && if CloseLost(log, n0) then r.Broken? && LeaksOne(before, after, fd0) else after == before
  }

  lemma Quietly(log: seq<Event>, n0: nat, fd: Fd, r: Opening, before: map<Fd, Inode>, after: map<Fd, Inode>, fd0: Fd)
    requires Orderly(log, n0, fd) && after == before && WalkExplained(log, n0, r)
    ensures Ended(log, n0, r, before, after, fd0)
  { }

  lemma Dropped(before: map<Fd, Inode>, fd: Fd, inode: Inode, next: Handle)
    requires fd !in before && next.fd != fd
    ensures before[fd := inode] - {fd} == before
    ensures before[fd := inode][next.fd := next.inode] - {fd} == before[next.fd := next.inode]
    ensures before[next.fd := next.inode] - {fd} == before[next.fd := next.inode]
  { }

  lemma Leaks(before: map<Fd, Inode>, next: Handle, fd0: Fd)
    requires next.fd >= fd0
    ensures LeaksOne(before, before[next.fd := next.inode], fd0)
  {
    var after := before[next.fd := next.inode];
    assert next.fd in after && after == before[next.fd := after[next.fd]];
  }

  /** The handler after a component could not be opened. */
  method Stop(k: Kernel, descriptor: Fd, ghost open: Event, ghost n0: nat, ghost parts: seq<Name>, ghost fd0: Fd,
              ghost log: seq<Event>, ghost inode: Inode, ghost before: map<Fd, Inode>, ghost part: Name)
    returns (r: Sys<()>)
    requires k.Valid() && k.descriptors == before[descriptor := inode] && descriptor !in before
    requires Walking(log, n0, parts, Handle(descriptor, inode), fd0)
    requires k.log == log + [open] && Next(open, Handle(descriptor, inode), part, None)
    modifies k`world, k`descriptors, k`log
    ensures k.Valid() && old(k.log) <= k.log && k.descriptors == before
    ensures WalkCalls(k.log, n0, fd0, descriptor + 1) && Orderly(k.log, n0, descriptor + 1)
    ensures |k.log| == |old(k.log)| + 1 && k.log[|old(k.log)|].action.Close? && k.log[|old(k.log)|].failed == r.Failed?
  {
    r := k.Close(descriptor);
    Dropped(before, descriptor, inode, Handle(descriptor + 1, inode));
    WalkStops(log, open, k.log[|log| + 1], n0, parts, Handle(descriptor, inode), fd0, part);
    assert k.log == log + [open] + [k.log[|log| + 1]];
  }

  /** The body of the loop, with the handler. */
  method Advance(k: Kernel, descriptor: Fd, part: Name, ghost n0: nat, ghost parts: seq<Name>, ghost fd0: Fd,
                 ghost before: map<Fd, Inode>)
    returns (r: Opening)
    requires k.Valid() && descriptor in k.descriptors && k.descriptors == before[descriptor := k.descriptors[descriptor]]
    requires fd0 <= descriptor && k.nextFd == descriptor + 1 && (forall fd :: fd in before ==> fd < fd0)
    requires Walking(k.log, n0, parts, Handle(descriptor, k.descriptors[descriptor]), fd0)
    modifies k`world, k`descriptors, k`nextFd, k`log
    ensures k.Valid() && old(k.log) <= k.log && old(k.nextFd) <= k.nextFd
    ensures r.Opened? ==>
              && r.fd in k.descriptors && k.descriptors == before[r.fd := k.descriptors[r.fd]] && k.nextFd == r.fd + 1
              && descriptor < r.fd && Walking(k.log, n0, parts + [part], Handle(r.fd, k.descriptors[r.fd]), fd0)
    ensures !r.Opened? ==>
              WalkCalls(k.log, n0, fd0, k.nextFd) && Ended(k.log, n0, r, before, k.descriptors, fd0)
  {
    ghost var log, h := k.log, Handle(descriptor, k.descriptors[descriptor]);
    var next := k.OpenPart(descriptor, part);
    ghost var open := k.log[|log|];
    if next.Failed? {
      var handled := Stop(k, descriptor, open, n0, parts, fd0, log, h.inode, before, part);
      var location: bool := *;
      r := if handled.Failed? then Broken(handled.detail) else Refused(next.detail, location);
      assert WalkBlames(if handled.Failed? then k.log[|log| + 1] else k.log[|log|], r);
      Quietly(k.log, n0, descriptor + 1, r, before, k.descriptors, fd0);
      return;
    }
    r := Leave(k, descriptor, next.value, open, n0, parts, fd0, log, h.inode, before, part);
    Leaks(before, next.value, fd0);
  }

  /** `os.close(descriptor)` once the next component is open, and the handler if that fails. */
  method Leave(k: Kernel, descriptor: Fd, next: Handle, ghost open: Event, ghost n0: nat, ghost parts: seq<Name>,
               ghost fd0: Fd, ghost log: seq<Event>, ghost inode: Inode, ghost before: map<Fd, Inode>, ghost part: Name)
    returns (r: Opening)
    requires k.Valid() && k.descriptors == before[descriptor := inode][next.fd := next.inode] && next.fd > descriptor
    requires forall fd :: fd in before ==> fd < descriptor
    requires Walking(log, n0, parts, Handle(descriptor, inode), fd0)
    requires k.log == log + [open] && Next(open, Handle(descriptor, inode), part, Some(next))
    modifies k`world, k`descriptors, k`log
    ensures k.Valid() && old(k.log) <= k.log && k.descriptors == before[next.fd := next.inode]
    ensures r.Opened? ==> r.fd == next.fd && Walking(k.log, n0, parts + [part], next, fd0)
    ensures !r.Opened? ==>
              && r.Broken? && WalkCalls(k.log, n0, fd0, descriptor + 1) && !ClosesOnce(k.log, n0) && CloseLost(k.log, n0)
              && WalkExplained(k.log, n0, r)
  {
    var closed := k.Close(descriptor);
    Dropped(before, descriptor, inode, next);
    ghost var close := k.log[|log| + 1];
    assert k.log == log + [open] + [close];
    if closed.Failed? {
      var again := k.Close(descriptor);
      WalkBreaks(log, open, close, k.log[|log| + 2], n0, parts, Handle(descriptor, inode), fd0, part, next);
      assert k.log == log + [open] + [close] + [k.log[|log| + 2]];
      assert WalkBlames(k.log[|log| + 1], Broken(again.detail));
      return Broken(again.detail);
    }
    WalkAdvances(log, open, close, n0, parts, Handle(descriptor, inode), fd0, part, next);
    return Opened(next.fd);
  }

  method OpenTop(k: Kernel) returns (r: Sys<Fd>)
    requires k.Valid()
    modifies k`world, k`descriptors, k`nextFd, k`log
    ensures k.Valid() && old(k.log) <= k.log && old(k.nextFd) <= k.nextFd
    ensures r.Done? ==>
              && r.value == old(k.nextFd) && k.nextFd == r.value + 1 && k.descriptors == old(k.descriptors)[r.value := ROOT]
              && Walking(k.log, |old(k.log)|, [], Handle(r.value, ROOT), old(k.nextFd))
    ensures r.Failed? ==>
              && k.descriptors == old(k.descriptors) && WalkCalls(k.log, |old(k.log)|, old(k.nextFd), k.nextFd)
              && |k.log| == |old(k.log)| + 1 && k.log[|old(k.log)|].action.OpenRoot? && k.log[|old(k.log)|].failed
              && Orderly(k.log, |old(k.log)|, k.nextFd)
  {
    r := k.OpenRoot();
  }

  lemma EndedIff(log: seq<Event>, n0: nat, r: Opening, before: map<Fd, Inode>, after: map<Fd, Inode>, fd0: Fd)
    requires Ended(log, n0, r, before, after, fd0) && forall fd :: fd in before ==> fd < fd0
    ensures CloseLost(log, n0) <==> LeaksOne(before, after, fd0)
  { }

  /** The loop over the components below the root. */
  method Descend(k: Kernel, root: Fd, parts: seq<Name>, ghost n0: nat, ghost fd0: Fd, ghost before: map<Fd, Inode>)
    returns (r: Opening)
    requires k.Valid() && k.descriptors == before[root := ROOT] && fd0 <= root && k.nextFd == root + 1
    requires (forall fd :: fd in before ==> fd < fd0) && Walking(k.log, n0, [], Handle(root, ROOT), fd0)
    modifies k`world, k`descriptors, k`nextFd, k`log
    ensures k.Valid() && old(k.log) <= k.log && old(k.nextFd) <= k.nextFd
    ensures r.Opened? ==>
              && r.fd in k.descriptors && k.descriptors == before[r.fd := k.descriptors[r.fd]] && k.nextFd == r.fd + 1
              && fd0 <= r.fd && Walking(k.log, n0, parts, Handle(r.fd, k.descriptors[r.fd]), fd0)
    ensures !r.Opened? ==> WalkCalls(k.log, n0, fd0, k.nextFd) && Ended(k.log, n0, r, before, k.descriptors, fd0)
  {
    var descriptor := root;
    for i := 0 to |parts|
      invariant k.Valid() && old(k.log) <= k.log && fd0 <= descriptor && k.nextFd == descriptor + 1
      invariant old(k.nextFd) <= k.nextFd
      invariant descriptor in k.descriptors && k.descriptors == before[descriptor := k.descriptors[descriptor]]
      invariant Walking(k.log, n0, parts[..i], Handle(descriptor, k.descriptors[descriptor]), fd0)
    {
      r := Advance(k, descriptor, parts[i], n0, parts[..i], fd0, before);
      if !r.Opened? { return; }
      TakeNext(parts, i);
      descriptor := r.fd;
    }
    assert parts[..|parts|] == parts;
    return Opened(descriptor);
  }

  lemma TakeNext(parts: seq<Name>, i: nat)
    requires i < |parts|
    ensures parts[..i + 1] == parts[..i] + [parts[i]]
  { }

  /** The walk over the components of an absolute path. A descriptor is closed twice, and the newest one stays open,
      exactly when a close failed while the next component was already open. */
  method OpenDirectoryNoSymlinks(k: Kernel, parts: seq<Name>) returns (r: Opening)
    requires k.Valid()
    modifies k`world, k`descriptors, k`nextFd, k`log
    ensures k.Valid() && old(k.log) <= k.log && old(k.nextFd) <= k.nextFd
    ensures WalkCalls(k.log, |old(k.log)|, old(k.nextFd), k.nextFd)
    ensures ClosesOnce(k.log, |old(k.log)|) <==> !CloseLost(k.log, |old(k.log)|)
    ensures CloseLost(k.log, |old(k.log)|) <==> LeaksOne(old(k.descriptors), k.descriptors, old(k.nextFd)) && !r.Opened?
    ensures CloseLost(k.log, |old(k.log)|) ==> r.Broken?
    ensures r.Opened? ==>
              && r.fd in k.descriptors && k.descriptors == old(k.descriptors)[r.fd := k.descriptors[r.fd]]
              && old(k.nextFd) <= r.fd < k.nextFd
              && Walking(k.log, |old(k.log)|, parts, Handle(r.fd, k.descriptors[r.fd]), old(k.nextFd))
    ensures !r.Opened? ==> Ended(k.log, |old(k.log)|, r, old(k.descriptors), k.descriptors, old(k.nextFd))
  {
    ghost var n0, fd0, before := |k.log|, k.nextFd, k.descriptors;
    var root := OpenTop(k);
    if root.Failed? {
      r := Broken(root.detail);
      assert WalkBlames(k.log[n0], r);
      Quietly(k.log, n0, k.nextFd, r, before, k.descriptors, fd0);
      EndedIff(k.log, n0, r, before, k.descriptors, fd0);
      return;
    }
    r := Descend(k, root.value, parts, n0, fd0, before);
    if !r.Opened? {
      EndedIff(k.log, n0, r, before, k.descriptors, fd0);
    }
  }
}

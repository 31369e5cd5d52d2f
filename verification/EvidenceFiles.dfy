/** run_task: writing the evidence files, reading them back, and the last look at the repository. */
module EvidenceFiles {
  import opened Bytes
  import opened Wrappers
  import opened FileSystem
  import opened DirectoryWalk
  import opened PublicationLog

  // ----- the phases of the try block -----

  /** Calls on the files of one directory that leave the parent's entries alone. */
  ghost predicate FileCalls(log: seq<Event>, n0: nat, dir: Inode) {
    forall i :: n0 <= i < |log| ==>
      && EntriesKept(log[i])
      && match log[i].action
         case CreateFile(d, _, _) => d == dir
         case OpenFile(d, _, _) => d == dir
         case Wrap(_) => true
         case WriteFile(d, _, _) => d == dir
         case ReadFile(_, _, _) => true
         case ListDir(d, _) => d == dir
         case Sync(d) => d == dir
         case _ => false
  }

  /** This run's staging directory is in place and behind the descriptor. */
  ghost predicate Staging(w: World, staged: Option<Inode>, run: Run, dir: Inode) {
    && staged == Some(dir)
    && run.staging in w.entries && w.entries[run.staging] == dir
    && dir in w.objects && w.objects[dir].Directory?
  }

  /** How a call on one file went: nothing failed, or one of these calls did. */
  ghost predicate FileEnds(log: seq<Event>, n0: nat, done: bool) {
    if done then NoneFailed(log, n0) else exists i :: n0 <= i < |log| && log[i].failed && IsFileCall(log[i].action)
  }

  predicate IsFileCall(a: Action) {
    a.CreateFile? || a.OpenFile? || a.Wrap? || a.WriteFile? || a.ReadFile?
  }

  /** Three calls: the file was created, wrapped, and written. */
  ghost predicate Wrote(log: seq<Event>, i: int, dir: Inode, name: Name, data: Bytes) {
    && 0 <= i && i + 2 < |log|
    && log[i].action.CreateFile? && log[i].action.created.Some?
    && var h := log[i].action.created.value;
       log[i].action == CreateFile(dir, name, Some(h)) && WroteThrough(log, i + 1, h, dir, name, data)
  }

  ghost predicate WroteThrough(log: seq<Event>, i: int, h: Handle, dir: Inode, name: Name, data: Bytes) {
    && 0 <= i && i + 1 < |log|
    && log[i].action == Wrap(h.fd) && log[i + 1].action == WriteFile(dir, name, data)
  }

  lemma FileEndsExtends(log: seq<Event>, log': seq<Event>, n0: nat, done: bool)
    requires n0 <= |log| && log <= log' && NoneFailed(log, n0) && FileEnds(log', |log|, done)
    ensures FileEnds(log', n0, done)
  {
    if done {
      forall i | n0 <= i < |log| ensures log'[i] == log[i] { }
    } else {
      var i :| |log| <= i < |log'| && log'[i].failed && IsFileCall(log'[i].action);
      assert n0 <= i;
    }
  }

  lemma OneName(w: World, before: World, after: World, dir: Inode, name: Name, inode: Inode)
    requires w.IsDirectory(dir) && w.SameIn(dir, before)
    requires after.objects == before.objects[inode := File([])][dir := Directory(before.objects[dir].files[name := inode])]
    ensures after.IsDirectory(dir) && after.objects[dir].files.Keys == w.objects[dir].files.Keys + {name}
  { }

  lemma FileExtends(log: seq<Event>, log': seq<Event>, n0: nat, dir: Inode, done: bool)
    requires n0 < |log| && log <= log' && FileCalls(log, n0, dir) && FileCalls(log', |log|, dir)
    requires !Unwrapped(log, n0) && NoneFailed(log, n0) && FileEnds(log', |log|, done)
    ensures FileCalls(log', n0, dir) && FileEnds(log', n0, done) && log'[n0] == log[n0]
    ensures Unwrapped(log', n0) <==> Unwrapped(log', |log|)
  {
    FileCallsExtend(log, log', n0, dir);
    UnwrappedExtends(log, log', n0);
    FileEndsExtends(log, log', n0, done);
  }

  /** `_write_file_sync_at` */
  method WriteFileSync(k: Kernel, fd: Fd, name: Name, data: Bytes, run: Run, ghost dir: Inode) returns (r: Sys<()>)
    requires k.Valid() && fd in k.descriptors && k.descriptors[fd] == dir
    requires Staging(k.world, k.staged, run, dir)
    modifies k`world, k`descriptors, k`nextFd, k`log
    ensures k.Valid() && old(k.log) <= k.log && old(k.nextFd) <= k.nextFd && FileCalls(k.log, |old(k.log)|, dir)
    ensures Staging(k.world, k.staged, run, dir)
    ensures HeldOn(old(k.descriptors), k.descriptors, Unwrapped(k.log, |old(k.log)|), old(k.nextFd))
    ensures Unwrapped(k.log, |old(k.log)|) ==> r.Failed?
    ensures FileEnds(k.log, |old(k.log)|, r.Done?)
    ensures r.Done? ==>
              && |k.log| == |old(k.log)| + 3 && Wrote(k.log, |old(k.log)|, dir, name, data)
              && k.world.objects[dir].files.Keys == old(k.world).objects[dir].files.Keys + {name}
  {
    var created := k.CreateFile(fd, name);
    if created.Failed? {
      assert IsFileCall(k.log[|old(k.log)|].action);
      return Failed(created.detail);
    }
    ghost var log := k.log;
    OneName(old(k.world), log[|old(k.log)|].before, k.world, dir, name, created.value.inode);
    r := WriteCreated(k, created.value, name, data, run, dir, old(k.descriptors), old(k.nextFd));
    FileExtends(log, k.log, |old(k.log)|, dir, r.Done?);
  }

  /** The rest of it, once the descriptor is there. */
  method WriteCreated(k: Kernel, h: Handle, ghost name: Name, data: Bytes, ghost run: Run, ghost dir: Inode,
                      ghost before: map<Fd, Inode>, ghost fd0: Fd)
    returns (r: Sys<()>)
    requires k.Valid() && k.descriptors == before[h.fd := h.inode] && h.fd !in before && fd0 <= h.fd
    requires Staging(k.world, k.staged, run, dir) && k.world.Names(dir, name, h.inode)
    modifies k`world, k`descriptors, k`log
    ensures k.Valid() && old(k.log) <= k.log && FileCalls(k.log, |old(k.log)|, dir)
    ensures Staging(k.world, k.staged, run, dir) && k.world.objects[dir] == old(k.world).objects[dir]
    ensures HeldOn(before, k.descriptors, Unwrapped(k.log, |old(k.log)|), fd0)
    ensures Unwrapped(k.log, |old(k.log)|) ==> r.Failed?
    ensures FileEnds(k.log, |old(k.log)|, r.Done?)
    ensures r.Done? ==>
              |k.log| == |old(k.log)| + 2 && WroteThrough(k.log, |old(k.log)|, h, dir, name, data)
  {
    var wrapped := k.Wrap(h.fd);
    ghost var log := k.log;
    if wrapped.Failed? {
      LeftOpen(k.log, |old(k.log)|, before, h, fd0);
      assert IsFileCall(k.log[|old(k.log)|].action);
      return Failed(wrapped.detail);
    }
    r := k.WriteFile(h.fd, dir, name, data);
    Released(before, h);
    assert IsFileCall(k.log[|log|].action);
    FileExtends(log, k.log, |old(k.log)|, dir, r.Done?);
  }

  lemma LeftOpen(log: seq<Event>, n: nat, before: map<Fd, Inode>, h: Handle, fd0: Fd)
    requires n < |log| && WrapFailed(log[n]) && fd0 <= h.fd
    ensures Unwrapped(log, n) && HeldOn(before, before[h.fd := h.inode], true, fd0)
  {
    Leaks(before, h, fd0);
  }

  lemma Released(before: map<Fd, Inode>, h: Handle)
    requires h.fd !in before
    ensures before[h.fd := h.inode] - {h.fd} == before
  { }

  /** These calls wrote the first payloads. */
  ghost predicate WroteSince(log: seq<Event>, n0: nat, count: nat, dir: Inode, b: Bundle) {
    && count <= 4 && |log| == n0 + 3 * count
    && forall j :: 0 <= j < count ==> Wrote(log, n0 + 3 * j, dir, EVIDENCE_FILES[j], b.Payloads()[j])
  }

  lemma WroteExtends(log: seq<Event>, log': seq<Event>, n0: nat, count: nat, dir: Inode, b: Bundle)
    requires log <= log' && count < 4 && |log'| == |log| + 3 && WroteSince(log, n0, count, dir, b)
    requires Wrote(log', |log|, dir, EVIDENCE_FILES[count], b.Payloads()[count])
    ensures WroteSince(log', n0, count + 1, dir, b)
  {
    forall j | 0 <= j < count ensures Wrote(log', n0 + 3 * j, dir, EVIDENCE_FILES[j], b.Payloads()[j]) {
      var i := n0 + 3 * j;
      assert Wrote(log, i, dir, EVIDENCE_FILES[j], b.Payloads()[j]);
      assert log'[i] == log[i] && log'[i + 1] == log[i + 1] && log'[i + 1 + 1] == log[i + 1 + 1];
    }
  }

  ghost predicate NamesPayloads(w: World, dir: Inode) {
    w.IsDirectory(dir) && w.objects[dir].files.Keys == set n | n in EVIDENCE_FILES
  }

  ghost predicate IsEmpty(w: World, dir: Inode) {
    w.IsDirectory(dir) && w.objects[dir].files == map[]
  }

  /** The directory has the names of the first payloads. */
  ghost predicate NamesFirst(w: World, dir: Inode, count: nat) {
    count <= 4 && w.IsDirectory(dir) && w.objects[dir].files.Keys == set n | n in EVIDENCE_FILES[..count]
  }

  lemma NamesOneMore(w: World, w': World, dir: Inode, count: nat)
    requires count < 4 && NamesFirst(w, dir, count) && w'.IsDirectory(dir)
    requires w'.objects[dir].files.Keys == w.objects[dir].files.Keys + {EVIDENCE_FILES[count]}
    ensures NamesFirst(w', dir, count + 1)
  {
    assert EVIDENCE_FILES[..count + 1] == EVIDENCE_FILES[..count] + [EVIDENCE_FILES[count]];
  }

  lemma NamesAll(w: World, dir: Inode)
    requires NamesFirst(w, dir, 4)
    ensures NamesPayloads(w, dir)
  {
    assert EVIDENCE_FILES[..4] == EVIDENCE_FILES;
  }

  lemma WritesEnd(log: seq<Event>, n0: nat, x: Case, flow: Flow)
    requires FileEnds(log, n0, flow.Completed?) && (flow.Completed? || flow.Os?) && FileCalls(log, n0, x.dir)
    requires flow.Completed? ==> WroteSince(log, n0, 4, x.dir, x.run.bundle)
    ensures Ends(log, n0, x, false, flow)
  {
    if flow.Completed? {
      forall i | n0 <= i < |log| ensures !log[i].action.ReadFile? {
        var j := (i - n0) / 3;
        assert Wrote(log, n0 + 3 * j, x.dir, EVIDENCE_FILES[j], x.run.bundle.Payloads()[j]);
        assert i == n0 + 3 * j || i == n0 + 3 * j + 1 || i == n0 + 3 * j + 2;
      }
    } else {
      var i :| n0 <= i < |log| && log[i].failed && IsFileCall(log[i].action);
      assert Blames(log[i], x, false, flow);
    }
  }

  /** Creates, wraps and writes the four files, in order. */
  method WritePayloads(k: Kernel, fd: Fd, run: Run, ghost dir: Inode) returns (flow: Flow)
    requires k.Valid() && fd in k.descriptors && k.descriptors[fd] == dir
    requires Staging(k.world, k.staged, run, dir)
    modifies k`world, k`descriptors, k`nextFd, k`log
    ensures k.Valid() && old(k.log) <= k.log && old(k.nextFd) <= k.nextFd && FileCalls(k.log, |old(k.log)|, dir)
    ensures Staging(k.world, k.staged, run, dir)
    ensures HeldOn(old(k.descriptors), k.descriptors, Unwrapped(k.log, |old(k.log)|), old(k.nextFd))
    ensures Unwrapped(k.log, |old(k.log)|) ==> flow.Os?
    ensures flow.Completed? || flow.Os?
    ensures FileEnds(k.log, |old(k.log)|, flow.Completed?)
    ensures flow.Completed? ==>
              && WroteSince(k.log, |old(k.log)|, 4, dir, run.bundle)
              && (IsEmpty(old(k.world), dir) ==> NamesPayloads(k.world, dir))
  {
    for i := 0 to 4
      invariant k.Valid() && old(k.log) <= k.log && old(k.nextFd) <= k.nextFd && FileCalls(k.log, |old(k.log)|, dir)
      invariant Staging(k.world, k.staged, run, dir)
      invariant k.descriptors == old(k.descriptors) && !Unwrapped(k.log, |old(k.log)|)
      invariant NoneFailed(k.log, |old(k.log)|) && WroteSince(k.log, |old(k.log)|, i, dir, run.bundle)
      invariant IsEmpty(old(k.world), dir) ==> NamesFirst(k.world, dir, i)
    {
      ghost var log, w := k.log, k.world;
      var r := WriteFileSync(k, fd, EVIDENCE_FILES[i], run.bundle.Payloads()[i], run, dir);
      FileCallsExtend(log, k.log, |old(k.log)|, dir);
      UnwrappedExtends(log, k.log, |old(k.log)|);
      FileEndsExtends(log, k.log, |old(k.log)|, r.Done?);
      if r.Failed? { return Os(r.detail); }
      WroteExtends(log, k.log, |old(k.log)|, i, dir, run.bundle);
      if IsEmpty(old(k.world), dir) {
        NamesOneMore(w, k.world, dir, i);
      }
    }
    if IsEmpty(old(k.world), dir) {
      NamesAll(k.world, dir);
    }
    return Completed;
  }

  lemma FileCallsExtend(log: seq<Event>, log': seq<Event>, n0: nat, dir: Inode)
    requires n0 <= |log| && log <= log' && FileCalls(log, n0, dir) && FileCalls(log', |log|, dir)
    ensures FileCalls(log', n0, dir)
  {
    forall i | n0 <= i < |log| ensures log'[i] == log[i] { }
  }

  /** Two calls: what is behind the descriptor was wrapped, and then held these bytes. */
  ghost predicate ReadThrough(log: seq<Event>, i: int, h: Handle, name: Name, data: Bytes) {
    && 0 <= i && i + 1 < |log|
    && log[i].action == Wrap(h.fd) && !log[i].failed
    && log[i + 1].action == ReadFile(h, name, Some(data)) && log[i + 1].before.IsFile(h.inode, data)
  }

  /** Three calls: the name stood for a file, which was wrapped, and which then held these bytes. */
  ghost predicate ReadBack(log: seq<Event>, i: int, dir: Inode, name: Name, data: Bytes) {
    && 0 <= i && i + 2 < |log|
    && log[i].action.OpenFile? && log[i].action.found.Some?
    && var h := log[i].action.found.value;
       && log[i].action == OpenFile(dir, name, Some(h)) && log[i].before.Names(dir, name, h.inode)
       && ReadThrough(log, i + 1, h, name, data)
  }

  /** These calls read the first payloads back. */
  ghost predicate ReadBackSince(log: seq<Event>, n0: nat, count: nat, dir: Inode, b: Bundle) {
    && count <= 4 && |log| == n0 + 3 * count
    && forall j :: 0 <= j < count ==> ReadBack(log, n0 + 3 * j, dir, EVIDENCE_FILES[j], b.Payloads()[j])
  }

  /** The last calls read all four payloads back. */
  ghost predicate AllReadBack(log: seq<Event>, dir: Inode, b: Bundle) {
    |log| >= 12 && ReadBackSince(log, |log| - 12, 4, dir, b)
  }

  ghost predicate ReadCalls(log: seq<Event>, n0: nat, dir: Inode) {
    forall i :: n0 <= i < |log| ==>
      && EntriesKept(log[i])
      && match log[i].action
         case OpenFile(d, _, _) => d == dir
         case Wrap(_) => true
         case ReadFile(_, _, _) => true
         case _ => false
  }

  /** All these calls saw the directory and its files as they are in this world. */
  ghost predicate StagedInAll(log: seq<Event>, n0: nat, dir: Inode, w: World) {
    forall i :: n0 <= i < |log| ==> log[i].before.SameIn(dir, w)
  }

  lemma SameInTransitive(u: World, v: World, w: World, dir: Inode)
    requires u.SameIn(dir, v) && v.SameIn(dir, w)
    ensures u.SameIn(dir, w)
  { }

  lemma StagedInLater(log: seq<Event>, n0: nat, dir: Inode, v: World, w: World)
    requires StagedInAll(log, n0, dir, v) && v.SameIn(dir, w)
    ensures StagedInAll(log, n0, dir, w)
  {
    forall i | n0 <= i < |log| ensures log[i].before.SameIn(dir, w) {
      SameInTransitive(log[i].before, v, w, dir);
    }
  }

  /** One read more. */
  lemma ReadsExtend(log: seq<Event>, log': seq<Event>, n0: nat, dir: Inode)
    requires n0 <= |log| && log <= log' && ReadCalls(log, n0, dir) && ReadCalls(log', |log|, dir)
    ensures ReadCalls(log', n0, dir)
  {
    forall i | n0 <= i < |log| ensures log'[i] == log[i] { }
  }

  lemma StagedExtends(log: seq<Event>, log': seq<Event>, n0: nat, dir: Inode, w: World)
    requires n0 <= |log| && log <= log' && StagedInAll(log, n0, dir, w) && StagedInAll(log', |log|, dir, w)
    ensures StagedInAll(log', n0, dir, w)
  {
    forall i | n0 <= i < |log| ensures log'[i] == log[i] { }
  }

  lemma ReadBackExtends(log: seq<Event>, log': seq<Event>, n0: nat, count: nat, dir: Inode, b: Bundle)
    requires log <= log' && count < 4 && |log'| == |log| + 3 && ReadBackSince(log, n0, count, dir, b)
    requires ReadBack(log', |log|, dir, EVIDENCE_FILES[count], b.Payloads()[count])
    ensures ReadBackSince(log', n0, count + 1, dir, b)
  {
    forall j | 0 <= j < count ensures ReadBack(log', n0 + 3 * j, dir, EVIDENCE_FILES[j], b.Payloads()[j]) {
      var i := n0 + 3 * j;
      assert ReadBack(log, i, dir, EVIDENCE_FILES[j], b.Payloads()[j]);
      assert log'[i] == log[i] && log'[i + 1] == log[i + 1] && log'[i + 1 + 1] == log[i + 1 + 1];
    }
  }

  /** `_read_file_at` */
  method ReadFileAt(k: Kernel, fd: Fd, name: Name, ghost dir: Inode) returns (r: Sys<Bytes>)
    requires k.Valid() && fd in k.descriptors && k.descriptors[fd] == dir
    modifies k`world, k`descriptors, k`nextFd, k`log
    ensures k.Valid() && old(k.log) <= k.log && old(k.nextFd) <= k.nextFd && ReadCalls(k.log, |old(k.log)|, dir)
    ensures r.Done? ==> |k.log| == |old(k.log)| + 3 && ReadBack(k.log, |old(k.log)|, dir, name, r.value)
    ensures HeldOn(old(k.descriptors), k.descriptors, Unwrapped(k.log, |old(k.log)|), old(k.nextFd))
    ensures Unwrapped(k.log, |old(k.log)|) ==> r.Failed?
    ensures Interferes(old(k.world), k.world, k.staged)
    ensures k.staged == Some(dir) ==> StagedInAll(k.log, |old(k.log)|, dir, k.world)
    ensures FileEnds(k.log, |old(k.log)|, r.Done?)
  {
    var found := k.OpenFile(fd, name);
    if found.Failed? {
      assert IsFileCall(k.log[|old(k.log)|].action);
      return Failed(found.detail);
    }
    ghost var log, w := k.log, k.world;
    r := ReadOpened(k, found.value, name, dir, old(k.descriptors), old(k.nextFd));
    AnotherRead(log, k.log, |old(k.log)|, dir, old(k.world), w, k.world, k.staged);
    FileEndsExtends(log, k.log, |old(k.log)|, r.Done?);
    assert k.log[|old(k.log)|] == log[|old(k.log)|];
  }

  /** The rest of it, once the descriptor is there. */
  method ReadOpened(k: Kernel, h: Handle, ghost name: Name, ghost dir: Inode, ghost before: map<Fd, Inode>,
                    ghost fd0: Fd)
    returns (r: Sys<Bytes>)
    requires k.Valid() && k.descriptors == before[h.fd := h.inode] && h.fd !in before && fd0 <= h.fd
    modifies k`world, k`descriptors, k`log
    ensures k.Valid() && old(k.log) <= k.log && ReadCalls(k.log, |old(k.log)|, dir)
    ensures r.Done? ==> |k.log| == |old(k.log)| + 2 && ReadThrough(k.log, |old(k.log)|, h, name, r.value)
    ensures HeldOn(before, k.descriptors, Unwrapped(k.log, |old(k.log)|), fd0)
    ensures Unwrapped(k.log, |old(k.log)|) ==> r.Failed?
    ensures Interferes(old(k.world), k.world, k.staged)
    ensures k.staged == Some(dir) ==> StagedInAll(k.log, |old(k.log)|, dir, k.world)
    ensures FileEnds(k.log, |old(k.log)|, r.Done?)
  {
    var wrapped := k.Wrap(h.fd);
    ghost var log, w := k.log, k.world;
    assert IsFileCall(k.log[|old(k.log)|].action);
    if wrapped.Failed? {
      LeftOpen(k.log, |old(k.log)|, before, h, fd0);
      return Failed(wrapped.detail);
    }
    r := k.ReadFile(h.fd, name);
    Released(before, h);
    AnotherRead(log, k.log, |old(k.log)|, dir, old(k.world), w, k.world, k.staged);
    assert IsFileCall(k.log[|log|].action);
    FileEndsExtends(log, k.log, |old(k.log)|, r.Done?);
    assert k.log[|old(k.log)|] == log[|old(k.log)|];
  }

  /** Reads every payload back through the descriptor and compares it. */
  method CompareFiles(k: Kernel, fd: Fd, ghost dir: Inode, bundle: Bundle, evidencePath: Option<string>, ghost x: Case)
    returns (flow: Flow)
    requires k.Valid() && fd in k.descriptors && k.descriptors[fd] == dir && x.run.bundle == bundle
    modifies k`world, k`descriptors, k`nextFd, k`log
    ensures k.Valid() && old(k.log) <= k.log && old(k.nextFd) <= k.nextFd && ReadCalls(k.log, |old(k.log)|, dir)
    ensures Interferes(old(k.world), k.world, k.staged)
    ensures flow.Completed? ==> |k.log| == |old(k.log)| + 12 && AllReadBack(k.log, dir, bundle)
    ensures k.staged == Some(dir) ==> StagedInAll(k.log, |old(k.log)|, dir, k.world)
    ensures HeldOn(old(k.descriptors), k.descriptors, Unwrapped(k.log, |old(k.log)|), old(k.nextFd))
    ensures Unwrapped(k.log, |old(k.log)|) ==> flow.Os?
    ensures flow.Completed? || flow.Os? || (flow.Runner? && flow.error.evidencePath == evidencePath)
    ensures Ends(k.log, |old(k.log)|, x, evidencePath.Some?, flow)
    ensures flow.Runner? ==> flow.error.code == "RUN_EVIDENCE_WRITE_MISMATCH"
  {
    for i := 0 to 4
      invariant k.Valid() && old(k.log) <= k.log && old(k.nextFd) <= k.nextFd
      invariant ReadCalls(k.log, |old(k.log)|, dir) && Interferes(old(k.world), k.world, k.staged)
      invariant k.staged == Some(dir) ==> StagedInAll(k.log, |old(k.log)|, dir, k.world)
      invariant k.descriptors == old(k.descriptors) && !Unwrapped(k.log, |old(k.log)|)
      invariant ReadBackSince(k.log, |old(k.log)|, i, dir, bundle) && AllRight(k.log, |old(k.log)|, x)
    {
      ghost var log, w := k.log, k.world;
      flow := CompareFile(k, fd, dir, i, bundle, evidencePath, x);
      AnotherRead(log, k.log, |old(k.log)|, dir, old(k.world), w, k.world, k.staged);
      EndsExtends(log, k.log, |old(k.log)|, x, evidencePath.Some?, flow);
      if !flow.Completed? { return; }
      ReadBackExtends(log, k.log, |old(k.log)|, i, dir, bundle);
    }
    return Completed;
  }

  /** The body of the loop. */
  method CompareFile(k: Kernel, fd: Fd, ghost dir: Inode, i: nat, bundle: Bundle, evidencePath: Option<string>,
                     ghost x: Case)
    returns (flow: Flow)
    requires k.Valid() && fd in k.descriptors && k.descriptors[fd] == dir && x.run.bundle == bundle && i < 4
    modifies k`world, k`descriptors, k`nextFd, k`log
    ensures k.Valid() && old(k.log) <= k.log && old(k.nextFd) <= k.nextFd && ReadCalls(k.log, |old(k.log)|, dir)
    ensures Interferes(old(k.world), k.world, k.staged)
    ensures flow.Completed? ==>
              |k.log| == |old(k.log)| + 3 && ReadBack(k.log, |old(k.log)|, dir, EVIDENCE_FILES[i], bundle.Payloads()[i])
    ensures k.staged == Some(dir) ==> StagedInAll(k.log, |old(k.log)|, dir, k.world)
    ensures HeldOn(old(k.descriptors), k.descriptors, Unwrapped(k.log, |old(k.log)|), old(k.nextFd))
    ensures Unwrapped(k.log, |old(k.log)|) ==> flow.Os?
    ensures flow.Completed? || flow.Os? || (flow.Runner? && flow.error.evidencePath == evidencePath)
    ensures Ends(k.log, |old(k.log)|, x, evidencePath.Some?, flow)
    ensures flow.Runner? ==> flow.error.code == "RUN_EVIDENCE_WRITE_MISMATCH"
  {
    var data := ReadFileAt(k, fd, EVIDENCE_FILES[i], dir);
    flow := if data.Failed? then Os(data.detail)
            else if data.value != bundle.Payloads()[i] then
              Runner(RunnerError("RUN_EVIDENCE_WRITE_MISMATCH", evidencePath, []))
            else Completed;
    ReadEnds(k.log, |old(k.log)|, dir, i, x, evidencePath, data);
  }

  lemma PayloadOf(b: Bundle, i: nat)
    requires i < 4
    ensures EVIDENCE_FILES[i] in b.Files() && b.Files()[EVIDENCE_FILES[i]] == b.Payloads()[i]
  {
    assert EVIDENCE_FILES[0] == "task.yml" && EVIDENCE_FILES[1] == "handoff.json";
    assert EVIDENCE_FILES[2] == "validation.json" && EVIDENCE_FILES[3] == "run-result.json";
  }

  lemma ReadEnds(log: seq<Event>, n0: nat, dir: Inode, i: nat, x: Case, evidencePath: Option<string>, data: Sys<Bytes>)
    requires i < 4 && FileEnds(log, n0, data.Done?) && ReadCalls(log, n0, dir)
    requires data.Done? ==> |log| == n0 + 3 && ReadBack(log, n0, dir, EVIDENCE_FILES[i], data.value)
    ensures Ends(log, n0, x, evidencePath.Some?,
                 if data.Failed? then Os(data.detail)
                 else if data.value != x.run.bundle.Payloads()[i] then
                   Runner(RunnerError("RUN_EVIDENCE_WRITE_MISMATCH", evidencePath, []))
                 else Completed)
  {
    PayloadOf(x.run.bundle, i);
    if data.Failed? {
      var j :| n0 <= j < |log| && log[j].failed && IsFileCall(log[j].action);
      assert Blames(log[j], x, evidencePath.Some?, Os(data.detail));
    } else {
      var e := log[n0 + 2];
      assert e.action.ReadFile? && e.action.file == EVIDENCE_FILES[i] && e.action.bytes == Some(data.value);
      assert data.value != x.run.bundle.Payloads()[i] ==>
          Blames(e, x, evidencePath.Some?, Runner(RunnerError("RUN_EVIDENCE_WRITE_MISMATCH", evidencePath, [])));
    }
  }

  lemma AnotherRead(log: seq<Event>, log': seq<Event>, n0: nat, dir: Inode, u: World, v: World, w: World,
                    staged: Option<Inode>)
    requires n0 <= |log| && log <= log' && ReadCalls(log, n0, dir) && ReadCalls(log', |log|, dir)
    requires Interferes(u, v, staged) && Interferes(v, w, staged) && !Unwrapped(log, n0)
    requires staged == Some(dir) ==> StagedInAll(log, n0, dir, v) && StagedInAll(log', |log|, dir, w)
    ensures ReadCalls(log', n0, dir) && Interferes(u, w, staged) && (Unwrapped(log', n0) <==> Unwrapped(log', |log|))
    ensures staged == Some(dir) ==> StagedInAll(log', n0, dir, w)
  {
    ReadsExtend(log, log', n0, dir);
    UnwrappedExtends(log, log', n0);
    InterferesTransitive(u, v, w, staged);
    if staged == Some(dir) {
      StagedInLater(log, n0, dir, v, w);
      StagedExtends(log, log', n0, dir, w);
    }
  }

  lemma InterferesTransitive(u: World, v: World, w: World, staged: Option<Inode>)
    requires Interferes(u, v, staged) && Interferes(v, w, staged)
    ensures Interferes(u, w, staged)
  {
    if staged.Some? {
      SameInTransitive(u, v, w, staged.value);
    }
  }

  method CheckPayloads(k: Kernel, fd: Fd, run: Run, ghost dir: Inode, ghost x: Case) returns (flow: Flow)
    requires k.Valid() && fd in k.descriptors && k.descriptors[fd] == dir && x.run == run && x.dir == dir
    requires Staging(k.world, k.staged, run, dir)
    modifies k`world, k`descriptors, k`nextFd, k`log
    ensures k.Valid() && old(k.log) <= k.log && old(k.nextFd) <= k.nextFd && FileCalls(k.log, |old(k.log)|, dir)
    ensures Staging(k.world, k.staged, run, dir)
    ensures flow.Completed? ==> k.world.Contains(dir, run.bundle.Files()) && JustSynced(k.log, |old(k.log)|, dir)
    ensures HeldOn(old(k.descriptors), k.descriptors, Unwrapped(k.log, |old(k.log)|), old(k.nextFd))
    ensures Unwrapped(k.log, |old(k.log)|) ==> flow.Os?
    ensures flow.Completed? || flow.Os? || (flow.Runner? && flow.error.evidencePath == None)
    ensures NamesPayloads(old(k.world), dir) ==> Ends(k.log, |old(k.log)|, x, false, flow)
    ensures NamesPayloads(old(k.world), dir) && flow.Runner? ==> flow.error.code == "RUN_EVIDENCE_WRITE_MISMATCH"
  {
    flow := ListPayloads(k, fd, run, dir, x);
    if !flow.Completed? { return; }
    ghost var log := k.log;
    flow := ReadListed(k, fd, run, dir, x);
    FileCallsExtend(log, k.log, |old(k.log)|, dir);
    UnwrappedExtends(log, k.log, |old(k.log)|);
    EndsExtends(log, k.log, |old(k.log)|, x, false, flow);
    if !flow.Completed? { return; }
    flow := SyncStaging(k, fd, run, dir, x, |old(k.log)|);
  }

  /** The directory was synced last. */
  ghost predicate JustSynced(log: seq<Event>, n0: nat, dir: Inode) {
    n0 < |log| && log[|log| - 1].action == Sync(dir) && !log[|log| - 1].failed
  }

  /** Reading back what was listed. */
  method ReadListed(k: Kernel, fd: Fd, run: Run, ghost dir: Inode, ghost x: Case) returns (flow: Flow)
    requires k.Valid() && fd in k.descriptors && k.descriptors[fd] == dir && x.run == run && x.dir == dir
    requires Staging(k.world, k.staged, run, dir) && NamesPayloads(k.world, dir)
    modifies k`world, k`descriptors, k`nextFd, k`log
    ensures k.Valid() && old(k.log) <= k.log && old(k.nextFd) <= k.nextFd && FileCalls(k.log, |old(k.log)|, dir)
    ensures Staging(k.world, k.staged, run, dir)
    ensures flow.Completed? ==> k.world.Contains(dir, run.bundle.Files())
    ensures HeldOn(old(k.descriptors), k.descriptors, Unwrapped(k.log, |old(k.log)|), old(k.nextFd))
    ensures Unwrapped(k.log, |old(k.log)|) ==> flow.Os?
    ensures flow.Completed? || flow.Os? || (flow.Runner? && flow.error.evidencePath == None)
    ensures Ends(k.log, |old(k.log)|, x, false, flow)
    ensures flow.Runner? ==> flow.error.code == "RUN_EVIDENCE_WRITE_MISMATCH"
  {
    flow := CompareFiles(k, fd, dir, run.bundle, None, x);
    if flow.Completed? {
      FilesByReading(k.log, |old(k.log)|, dir, old(k.world), k.world, run.bundle);
    }
  }

  method SyncStaging(k: Kernel, fd: Fd, run: Run, ghost dir: Inode, ghost x: Case, ghost n0: nat) returns (flow: Flow)
    requires k.Valid() && fd in k.descriptors && k.descriptors[fd] == dir && n0 <= |k.log|
    requires Staging(k.world, k.staged, run, dir) && k.world.Contains(dir, run.bundle.Files())
    requires FileCalls(k.log, n0, dir) && !Unwrapped(k.log, n0) && AllRight(k.log, n0, x)
    modifies k`world, k`log
    ensures k.Valid() && old(k.log) <= k.log && FileCalls(k.log, n0, dir) && !Unwrapped(k.log, n0)
    ensures Staging(k.world, k.staged, run, dir) && k.world.Contains(dir, run.bundle.Files())
    ensures flow.Completed? ==> JustSynced(k.log, n0, dir)
    ensures flow.Completed? || flow.Os?
    ensures Ends(k.log, n0, x, false, flow)
  {
    ghost var log, w := k.log, k.world;
    var synced := k.Sync(fd);
    flow := if synced.Failed? then Os(synced.detail) else Completed;
    ContainsKept(w, k.world, dir, run.bundle.Files());
    FileCallsExtend(log, k.log, n0, dir);
    UnwrappedExtends(log, k.log, n0);
    assert synced.Failed? ==> Blames(k.log[|log|], x, false, flow);
    EndsExtends(log, k.log, n0, x, false, flow);
  }

  /** Exactly the four names are there. */
  method ListPayloads(k: Kernel, fd: Fd, run: Run, ghost dir: Inode, ghost x: Case) returns (flow: Flow)
    requires k.Valid() && fd in k.descriptors && k.descriptors[fd] == dir
    requires Staging(k.world, k.staged, run, dir)
    modifies k`world, k`log
    ensures k.Valid() && |k.log| == |old(k.log)| + 1 && old(k.log) <= k.log
    ensures FileCalls(k.log, |old(k.log)|, dir) && !Unwrapped(k.log, |old(k.log)|)
    ensures Staging(k.world, k.staged, run, dir)
    ensures flow.Completed? ==> NamesPayloads(k.world, dir) && AllRight(k.log, |old(k.log)|, x)
    ensures flow.Runner? ==>
              !NamesPayloads(old(k.world), dir) && flow.error == Fail("RUN_EVIDENCE_INCOMPLETE")
    ensures flow.Completed? || flow.Os? || flow.Runner?
    ensures NamesPayloads(old(k.world), dir) ==> Ends(k.log, |old(k.log)|, x, false, flow)
  {
    var listed := k.ListDir(fd);
    if listed.Failed? {
      assert Blames(k.log[|old(k.log)|], x, false, Os(listed.detail));
      return Os(listed.detail);
    }
    KeysListed(k.world, dir, listed.value);
    if (set n | n in listed.value) != (set n | n in EVIDENCE_FILES) {
      return Runner(Fail("RUN_EVIDENCE_INCOMPLETE"));
    }
    return Completed;
  }

  lemma KeysListed(w: World, dir: Inode, names: seq<Name>)
    requires w.IsDirectory(dir) && forall n :: n in names <==> n in w.objects[dir].files
    ensures NamesPayloads(w, dir) <==> (set n | n in names) == (set n | n in EVIDENCE_FILES)
  {
    assert w.objects[dir].files.Keys == set n | n in names;
  }

  lemma ContainsKept(w: World, w': World, dir: Inode, files: map<Name, Bytes>)
    requires w.Contains(dir, files) && w.SameIn(dir, w')
    ensures w'.Contains(dir, files)
  { }

  ghost predicate FileIs(w: World, dir: Inode, name: Name, data: Bytes) {
    w.IsDirectory(dir) && name in w.objects[dir].files && w.IsFile(w.objects[dir].files[name], data)
  }

  lemma FilesByReading(log: seq<Event>, n0: nat, dir: Inode, listed: World, w: World, b: Bundle)
    requires ReadBackSince(log, n0, 4, dir, b) && StagedInAll(log, n0, dir, w)
    requires NamesPayloads(listed, dir) && listed.SameIn(dir, w)
    ensures w.Contains(dir, b.Files())
  {
    forall j | 0 <= j < 4 ensures FileIs(w, dir, EVIDENCE_FILES[j], b.Payloads()[j]) {
      PayloadRead(log, n0, dir, w, b, j);
    }
    FilesByContents(w, dir, b);
  }

  lemma PayloadRead(log: seq<Event>, n0: nat, dir: Inode, w: World, b: Bundle, j: int)
    requires ReadBackSince(log, n0, 4, dir, b) && StagedInAll(log, n0, dir, w) && 0 <= j < 4
    ensures FileIs(w, dir, EVIDENCE_FILES[j], b.Payloads()[j])
  {
    var i := n0 + 3 * j;
    assert log[i].before.SameIn(dir, w) && log[i + 2].before.SameIn(dir, w);
    FileByReading(log, i, dir, EVIDENCE_FILES[j], b.Payloads()[j], w);
  }

  lemma FileByReading(log: seq<Event>, i: int, dir: Inode, name: Name, data: Bytes, w: World)
    requires ReadBack(log, i, dir, name, data)
    requires log[i].before.SameIn(dir, w) && log[i + 2].before.SameIn(dir, w)
    ensures FileIs(w, dir, name, data)
  { }

  lemma FilesByContents(w: World, dir: Inode, b: Bundle)
    requires NamesPayloads(w, dir)
    requires forall j :: 0 <= j < 4 ==> FileIs(w, dir, EVIDENCE_FILES[j], b.Payloads()[j])
    ensures w.Contains(dir, b.Files())
  {
    assert EVIDENCE_FILES[0] == "task.yml" && EVIDENCE_FILES[1] == "handoff.json";
    assert EVIDENCE_FILES[2] == "validation.json" && EVIDENCE_FILES[3] == "run-result.json";
    assert w.objects[dir].files.Keys == b.Files().Keys;
  }

  ghost predicate GuardCalls(log: seq<Event>, n0: nat) {
    forall i :: n0 <= i < |log| ==>
      EntriesKept(log[i]) && (log[i].action.ReadRevision? || log[i].action.ReadState?)
  }

  /** The last two calls found the repository as expected, if it had to be looked at. */
  ghost predicate GuardMet(log: seq<Event>, n0: nat, guard: Option<Expectation>) {
    guard.Some? ==>
      && |log| >= n0 + 2
      && log[|log| - 2].action == ReadRevision(Some(guard.value.revision))
      && log[|log| - 1].action == ReadState(Some(guard.value.state))
  }

  /** How a reading of the repository ends the guard, if it does. */
  function ReadingFlow<T(==)>(r: Reading<T>, expected: T, changed: string): Flow {
    match r
    case Unavailable(code) => Runner(Fail(code))
    case OsError(detail) => Os(detail)
    case OtherError => Foreign
    case Value(v) => if v == expected then Completed else Runner(Fail(changed))
  }

  /** The directory was synced, and then the repository found as expected, if it had to be looked at. */
  ghost predicate ReadyToRename(log: seq<Event>, n0: nat, guard: Option<Expectation>, dir: Inode) {
    var j := |log| - if guard.Some? then 3 else 1;
    GuardMet(log, n0, guard) && n0 <= j && log[j].action == Sync(dir) && !log[j].failed
  }

  /** `pre_publish_guard`, if there is one. */
  method PrePublishGuard(k: Kernel, guard: Option<Expectation>, ghost x: Case) returns (flow: Flow)
    requires k.Valid() && x.guard == guard
    modifies k`world, k`log
    ensures k.Valid() && old(k.log) <= k.log && Interferes(old(k.world), k.world, k.staged)
    ensures GuardCalls(k.log, |old(k.log)|)
    ensures flow.Completed? ==>
              GuardMet(k.log, |old(k.log)|, guard) && |k.log| == |old(k.log)| + if guard.Some? then 2 else 0
    ensures flow.Runner? ==> flow.error.evidencePath == None
    ensures Ends(k.log, |old(k.log)|, x, false, flow)
  {
    if guard == None { return Completed; }
    var revision := k.ReadRevision();
    ghost var log, w := k.log, k.world;
    flow := ReadingFlow(revision, guard.value.revision, "SOURCE_REVISION_CHANGED_DURING_DRY_RUN");
    assert !flow.Completed? ==> Blames(k.log[|old(k.log)|], x, false, flow);
    if !flow.Completed? { return; }
    flow := GuardState(k, guard.value, x);
    InterferesTransitive(old(k.world), w, k.world, k.staged);
    EndsExtends(log, k.log, |old(k.log)|, x, false, flow);
    assert k.log[|old(k.log)|] == log[|old(k.log)|];
  }

  /** Its second half. */
  method GuardState(k: Kernel, expected: Expectation, ghost x: Case) returns (flow: Flow)
    requires k.Valid() && x.guard == Some(expected)
    modifies k`world, k`log
    ensures k.Valid() && old(k.log) <= k.log && Interferes(old(k.world), k.world, k.staged)
    ensures |k.log| == |old(k.log)| + 1 && GuardCalls(k.log, |old(k.log)|)
    ensures flow.Completed? ==> k.log[|old(k.log)|].action == ReadState(Some(expected.state))
    ensures flow.Runner? ==> flow.error.evidencePath == None
    ensures Ends(k.log, |old(k.log)|, x, false, flow)
  {
    var state := k.ReadState();
    flow := ReadingFlow(state, expected.state, "REPO_MUTATED_DURING_DRY_RUN");
    assert !flow.Completed? ==> Blames(k.log[|old(k.log)|], x, false, flow);
  }
}

/** The part of the operating system that evidence publication sees, with faults and other processes. */
module FileSystem {
  import opened Bytes
  import opened Wrappers

  type Name = string
  type Inode = nat
  type Fd = nat

  /** A directory names the inodes of its files; anything else that a name may stand for is Other. */
  datatype Object = Directory(files: map<Name, Inode>) | File(data: Bytes) | Other

  /** The parent directory's entries, what the inodes are, what the names in other directories stand for,
      and the Git-visible repository state. */
  datatype World = World(entries: map<Name, Inode>, objects: map<Inode, Object>, elsewhere: map<(Inode, Name), Inode>,
                         revision: string, state: Bytes)
  {
    predicate Valid() {
      forall n :: n in entries ==> entries[n] in objects
    }

    predicate IsDirectory(inode: Inode) {
      inode in objects && objects[inode].Directory?
    }

    /** In the directory, the name stands for this inode. */
    predicate Names(dir: Inode, name: Name, inode: Inode) {
      IsDirectory(dir) && name in objects[dir].files && objects[dir].files[name] == inode
    }

    predicate IsFile(inode: Inode, data: Bytes) {
      inode in objects && objects[inode] == File(data)
    }

    /** The directory holds exactly these files. */
    ghost predicate Contains(dir: Inode, files: map<Name, Bytes>) {
      && IsDirectory(dir) && objects[dir].files.Keys == files.Keys
      && forall n :: n in files ==> IsFile(objects[dir].files[n], files[n])
    }

    ghost predicate Holds(name: Name, inode: Inode, files: map<Name, Bytes>) {
      name in entries && entries[name] == inode && Contains(inode, files)
    }

    /** The directory and its files are the same in the other world. */
    predicate SameIn(dir: Inode, w: World) {
      && dir in objects && dir in w.objects && w.objects[dir] == objects[dir]
      && (objects[dir].Directory? ==>
            forall n :: n in objects[dir].files && objects[dir].files[n] in objects ==>
              && objects[dir].files[n] in w.objects
              && w.objects[objects[dir].files[n]] == objects[objects[dir].files[n]])
    }
  }

  /** Other processes may do anything except act on the directory this run is staging. */
  predicate Interferes(w: World, w': World, staged: Option<Inode>) {
    && w'.Valid()
    && w.objects.Keys <= w'.objects.Keys
    && (staged.Some? ==>
          && w.SameIn(staged.value, w')
          && (forall n :: n in w.entries && w.entries[n] == staged.value ==>
                n in w'.entries && w'.entries[n] == staged.value)
          && (forall n :: n in w'.entries && w'.entries[n] == staged.value ==>
                n in w.entries && w.entries[n] == staged.value))
  }

  /** The inode of the file system's root directory. */
  const ROOT: Inode := 0

  /** A descriptor and what is behind it. */
  datatype Handle = Handle(fd: Fd, inode: Inode)

  datatype Action =
    | MakeDir(name: Name, made: bool)
    | OpenDir(name: Name, inode: Option<Inode>)
    | OpenRoot(root: Option<Fd>)
    | OpenPart(via: Fd, dir: Inode, part: Name, handle: Option<Handle>)
    | CreateFile(dir: Inode, file: Name, created: Option<Handle>)
    | OpenFile(dir: Inode, file: Name, found: Option<Handle>)
    | Wrap(fd: Fd)
    | WriteFile(dir: Inode, file: Name, data: Bytes)
    | ReadFile(through: Handle, file: Name, bytes: Option<Bytes>)
    | Sync(directory: Inode)
    | Stat(fd: Fd, identity: Option<Inode>)
    | ReadRevision(revision: Option<string>)
    | ReadState(state: Option<Bytes>)
    | Rename(source: Name, target: Name, done: bool)
    | ListDir(dir: Inode, names: Option<seq<Name>>)
    | Unlink(dir: Inode, file: Name)
    | RemoveDir(name: Name)
    | Close(fd: Fd)

  /** One system call of this run, with the world just before and just after it, and whether it reported a failure. */
  datatype Event = Event(action: Action, before: World, after: World, failed: bool)

  datatype Sys<+T> = Done(value: T) | Failed(detail: string)

  /** Reading the repository state can also raise an error of the runner, or something else altogether. */
  datatype Reading<+T> = Value(value: T) | Unavailable(code: string) | OsError(detail: string) | OtherError

  datatype Renaming = Renamed | RenameUnavailable | TargetExists | RenameFailed(detail: string)

  function Max(a: nat, b: nat): nat { if a < b then b else a }

  ghost function Above(s: set<nat>): (r: nat)
    ensures forall n :: n in s ==> n < r
  {
    if s == {} then 0
    else
      var n :| n in s;
      var r := Max(n + 1, Above(s - {n}));
      assert forall m :: m in s ==> m == n || m in s - {n};
      r
  }

  /** One more event, whose world-before was reached from w by other processes alone. */
  ghost predicate Logged(log: seq<Event>, log': seq<Event>, action: Action, w: World, w': World, staged: Option<Inode>,
                         failed: bool)
  {
    && |log'| == |log| + 1
    && log' == log + [log'[|log|]]
    && log'[|log|].action == action && log'[|log|].failed == failed
    && Interferes(w, log'[|log|].before, staged)
    && log'[|log|].after == w'
  }

  /** Likewise, for a call that changes nothing. */
  ghost predicate Observed(log: seq<Event>, log': seq<Event>, action: Action, w: World, w': World,
                           staged: Option<Inode>, failed: bool)
  {
    Logged(log, log', action, w, w', staged, failed) && log'[|log|].before == w'
  }

  function Opt<T>(r: Sys<T>): Option<T> {
    match r
    case Done(v) => Some(v)
    case Failed(_) => None
  }

  function OptReading<T>(r: Reading<T>): Option<T> {
    match r
    case Value(v) => Some(v)
    case _ => None
  }

  class Kernel {
    var world: World
    var staged: Option<Inode>
    var descriptors: map<Fd, Inode>
    var nextFd: Fd
    ghost var log: seq<Event>

    ghost predicate Valid()
      reads this
    {
      && world.Valid()
      && (forall fd :: fd in descriptors ==> fd < nextFd)
      && (staged.Some? ==> staged.value in world.objects)
    }

    /** Whatever other processes do between two system calls of this run. */
    method Interfere()
      requires Valid()
      modifies this`world
      ensures Valid() && Interferes(old(world), world, staged)
    {
      var w: World := *;
      if Interferes(world, w, staged) {
        world := w;
      }
    }

    method MakeDir(name: Name) returns (r: Sys<Inode>)
      requires Valid() && staged == None
      modifies this`world, this`staged, this`log
      ensures Valid()
      ensures Logged(old(log), log, Action.MakeDir(name, r.Done?), old(world), world, None, r.Failed?)
      ensures var before := log[|old(log)|].before;
              && (r.Done? ==>
                    && name !in before.entries && r.value !in before.objects && staged == Some(r.value)
                    && world == before.(entries := before.entries[name := r.value],
                                        objects := before.objects[r.value := Directory(map[])]))
              && (r.Failed? ==> world == before && staged == None)
    {
      Interfere();
      ghost var before := world;
      var fails: bool, detail: string := *, *;
      if fails || name in world.entries {
        log := log + [Event(Action.MakeDir(name, false), before, world, true)];
        return Failed(detail);
      }
      assert Above(world.objects.Keys) !in world.objects;
      var inode: Inode :| inode !in world.objects;
      world := world.(entries := world.entries[name := inode], objects := world.objects[inode := Directory(map[])]);
      staged := Some(inode);
      log := log + [Event(Action.MakeDir(name, true), before, world, false)];
      return Done(inode);
    }

    method NewDescriptor(inode: Inode) returns (fd: Fd)
      requires Valid()
      modifies this`descriptors, this`nextFd
      ensures Valid()
      ensures fd == old(nextFd) && nextFd == fd + 1 && descriptors == old(descriptors)[fd := inode]
    {
      fd := nextFd;
      descriptors := descriptors[fd := inode];
      nextFd := nextFd + 1;
    }

    /** `os.open(name, O_DIRECTORY | O_NOFOLLOW, dir_fd=parent_fd)` */
    method OpenDir(name: Name) returns (r: Sys<Fd>)
      requires Valid()
      modifies this`world, this`descriptors, this`nextFd, this`log
      ensures Valid()
      ensures exists inode ::
                && Observed(old(log), log, Action.OpenDir(name, inode), old(world), world, staged, r.Failed?)
                && (r.Done? ==>
                      && inode.Some? && name in world.entries && world.entries[name] == inode.value
                      && r.value == old(nextFd) && nextFd == r.value + 1
                      && descriptors == old(descriptors)[r.value := inode.value])
                && (r.Failed? ==> inode == None && nextFd == old(nextFd) && descriptors == old(descriptors))
    {
      Interfere();
      var fails: bool, detail: string := *, *;
      if fails || name !in world.entries || !world.objects[world.entries[name]].Directory? {
        log := log + [Event(Action.OpenDir(name, None), world, world, true)];
        return Failed(detail);
      }
      var fd := NewDescriptor(world.entries[name]);
      log := log + [Event(Action.OpenDir(name, Some(world.entries[name])), world, world, false)];
      return Done(fd);
    }

    /** `os.open(os.sep, flags)` */
    method OpenRoot() returns (r: Sys<Fd>)
      requires Valid()
      modifies this`world, this`descriptors, this`nextFd, this`log
      ensures Valid()
      ensures Observed(old(log), log, Action.OpenRoot(Opt(r)), old(world), world, staged,
                       r.Failed?)
      ensures r.Done? ==>
                && r.value == old(nextFd) && nextFd == r.value + 1 && descriptors == old(descriptors)[r.value := ROOT]
      ensures r.Failed? ==> nextFd == old(nextFd) && descriptors == old(descriptors)
    {
      Interfere();
      var fails: bool, detail: string := *, *;
      if fails {
        r := Failed(detail);
      } else {
        var fd := NewDescriptor(ROOT);
        r := Done(fd);
      }
      log := log + [Event(Action.OpenRoot(Opt(r)), world, world, r.Failed?)];
    }

    /** `os.open(part, flags, dir_fd=via)`: what the name stands for at that moment. */
    method OpenPart(via: Fd, part: Name) returns (r: Sys<Handle>)
      requires Valid() && via in descriptors
      modifies this`world, this`descriptors, this`nextFd, this`log
      ensures Valid()
      ensures Observed(old(log), log, Action.OpenPart(via, old(descriptors)[via], part, Opt(r)), old(world), world, staged,
                       r.Failed?)
      ensures r.Done? ==>
                && (old(descriptors)[via], part) in world.elsewhere
                && r.value.inode == world.elsewhere[(old(descriptors)[via], part)]
                && r.value.fd == old(nextFd) && nextFd == r.value.fd + 1
                && descriptors == old(descriptors)[r.value.fd := r.value.inode]
      ensures r.Failed? ==> nextFd == old(nextFd) && descriptors == old(descriptors)
    {
      Interfere();
      var dir := descriptors[via];
      var fails: bool, detail: string := *, *;
      if fails || (dir, part) !in world.elsewhere {
        r := Failed(detail);
      } else {
        var fd := NewDescriptor(world.elsewhere[(dir, part)]);
        r := Done(Handle(fd, world.elsewhere[(dir, part)]));
      }
      log := log + [Event(Action.OpenPart(via, dir, part, Opt(r)), world, world, r.Failed?)];
    }

    /** `os.open(name, O_WRONLY | O_CREAT | O_EXCL | O_NOFOLLOW, dir_fd=fd)` in the directory being staged. */
    method CreateFile(fd: Fd, name: Name) returns (r: Sys<Handle>)
      requires Valid() && fd in descriptors && staged == Some(descriptors[fd]) && world.IsDirectory(descriptors[fd])
      modifies this`world, this`descriptors, this`nextFd, this`log
      ensures Valid() && world.IsDirectory(old(descriptors)[fd])
      ensures Logged(old(log), log, Action.CreateFile(old(descriptors)[fd], name, Opt(r)), old(world), world, staged,
                       r.Failed?)
      ensures r.Done? ==>
                var dir, before, inode := old(descriptors)[fd], log[|old(log)|].before, r.value.inode;
                && before.IsDirectory(dir) && name !in before.objects[dir].files && inode !in before.objects
                && world == before.(objects := before.objects[inode := File([])]
                                                             [dir := Directory(before.objects[dir].files[name := inode])])
                && r.value.fd == old(nextFd) && nextFd == r.value.fd + 1
                && descriptors == old(descriptors)[r.value.fd := r.value.inode]
      ensures r.Failed? ==>
                world == log[|old(log)|].before && nextFd == old(nextFd) && descriptors == old(descriptors)
    {
      Interfere();
      ghost var before := world;
      var dir := descriptors[fd];
      var files := world.objects[dir].files;
      var fails: bool, detail: string := *, *;
      if fails || name in files {
        r := Failed(detail);
      } else {
        assert Above(world.objects.Keys) !in world.objects;
        var inode: Inode :| inode !in world.objects;
        world := world.(objects := world.objects[inode := File([])][dir := Directory(files[name := inode])]);
        var created := NewDescriptor(inode);
        r := Done(Handle(created, inode));
      }
      log := log + [Event(Action.CreateFile(dir, name, Opt(r)), before, world, r.Failed?)];
    }

    /** `os.open(name, O_RDONLY | O_NOFOLLOW, dir_fd=fd)`: it also succeeds on what is no regular file. */
    method OpenFile(fd: Fd, name: Name) returns (r: Sys<Handle>)
      requires Valid() && fd in descriptors
      modifies this`world, this`descriptors, this`nextFd, this`log
      ensures Valid()
      ensures Observed(old(log), log, Action.OpenFile(old(descriptors)[fd], name, Opt(r)), old(world), world, staged,
                       r.Failed?)
      ensures r.Done? ==>
                && world.Names(old(descriptors)[fd], name, r.value.inode)
                && r.value.fd == old(nextFd) && nextFd == r.value.fd + 1
                && descriptors == old(descriptors)[r.value.fd := r.value.inode]
      ensures r.Failed? ==> nextFd == old(nextFd) && descriptors == old(descriptors)
    {
      Interfere();
      var dir := descriptors[fd];
      var fails: bool, detail: string := *, *;
      if fails || !world.IsDirectory(dir) || name !in world.objects[dir].files {
        r := Failed(detail);
      } else {
        var inode := world.objects[dir].files[name];
        var found := NewDescriptor(inode);
        r := Done(Handle(found, inode));
      }
      log := log + [Event(Action.OpenFile(dir, name, Opt(r)), world, world, r.Failed?)];
    }

    /** `os.fdopen(fd, mode)`: it refuses what is no regular file, and then nobody closes the descriptor. From success on
        the file object closes it, whatever happens. */
    method Wrap(fd: Fd) returns (r: Sys<()>)
      requires Valid() && fd in descriptors
      modifies this`world, this`log
      ensures Valid()
      ensures Observed(old(log), log, Action.Wrap(fd), old(world), world, staged, r.Failed?)
      ensures r.Done? ==> descriptors[fd] in world.objects && world.objects[descriptors[fd]].File?
    {
      Interfere();
      var fails: bool, detail: string := *, *;
      if fails || descriptors[fd] !in world.objects || !world.objects[descriptors[fd]].File? {
        r := Failed(detail);
      } else {
        r := Done(());
      }
      log := log + [Event(Action.Wrap(fd), world, world, r.Failed?)];
    }

    /** Writing, syncing and closing a file of the directory being staged: even a call that succeeds may have stored other
        bytes. */
    method WriteFile(fd: Fd, ghost dir: Inode, ghost name: Name, data: Bytes) returns (r: Sys<()>)
      requires Valid() && fd in descriptors && staged == Some(dir) && world.Names(dir, name, descriptors[fd])
      requires descriptors[fd] in world.objects && world.objects[descriptors[fd]].File?
      modifies this`world, this`descriptors, this`log
      ensures Valid() && descriptors == old(descriptors) - {fd} && world.IsDirectory(dir)
      ensures Logged(old(log), log, Action.WriteFile(dir, name, data), old(world), world, staged, r.Failed?)
      ensures var before := log[|old(log)|].before;
              && world == before.(objects := world.objects)
              && world.objects.Keys == before.objects.Keys
              && (forall i :: i in before.objects && i != old(descriptors)[fd] ==> world.objects[i] == before.objects[i])
    {
      Interfere();
      ghost var before := world;
      var fails: bool, detail: string, stored: Bytes := *, *, *;
      world := world.(objects := world.objects[descriptors[fd] := File(stored)]);
      descriptors := descriptors - {fd};
      r := if fails then Failed(detail) else Done(());
      log := log + [Event(Action.WriteFile(dir, name, data), before, world, fails)];
    }

    /** Reading a file to its end and closing it; the log also holds the name under which it was opened. */
    method ReadFile(fd: Fd, ghost name: Name) returns (r: Sys<Bytes>)
      requires Valid() && fd in descriptors
      modifies this`world, this`descriptors, this`log
      ensures Valid() && descriptors == old(descriptors) - {fd}
      ensures Observed(old(log), log, Action.ReadFile(Handle(fd, old(descriptors)[fd]), name, Opt(r)), old(world), world, staged,
                       r.Failed?)
      ensures r.Done? ==> world.IsFile(old(descriptors)[fd], r.value)
    {
      Interfere();
      var inode := descriptors[fd];
      var fails: bool, detail: string := *, *;
      if fails || inode !in world.objects || !world.objects[inode].File? {
        r := Failed(detail);
      } else {
        r := Done(world.objects[inode].data);
      }
      descriptors := descriptors - {fd};
      log := log + [Event(Action.ReadFile(Handle(fd, inode), name, Opt(r)), world, world, r.Failed?)];
    }

    /** `os.listdir(fd)`, in whatever order. */
    method ListDir(fd: Fd) returns (r: Sys<seq<Name>>)
      requires Valid() && fd in descriptors
      modifies this`world, this`log
      ensures Valid()
      ensures Observed(old(log), log, Action.ListDir(descriptors[fd], Opt(r)), old(world), world, staged,
                       r.Failed?)
      ensures r.Done? ==>
                && descriptors[fd] in world.objects && world.objects[descriptors[fd]].Directory?
                && (forall n :: n in r.value <==> n in world.objects[descriptors[fd]].files)
    {
      Interfere();
      var dir := descriptors[fd];
      var fails: bool, detail: string := *, *;
      if fails || dir !in world.objects || !world.objects[dir].Directory? {
        r := Failed(detail);
      } else {
        var names: seq<Name>, rest := [], world.objects[dir].files.Keys;
        while rest != {}
          invariant forall n :: n in world.objects[dir].files <==> n in names || n in rest
          decreases rest
        {
          var n :| n in rest;
          names, rest := names + [n], rest - {n};
        }
        r := Done(names);
      }
      log := log + [Event(Action.ListDir(dir, Opt(r)), world, world, r.Failed?)];
    }

    /** `os.fsync(fd)` */
    method Sync(fd: Fd) returns (r: Sys<()>)
      requires Valid() && fd in descriptors
      modifies this`world, this`log
      ensures Valid()
      ensures Observed(old(log), log, Action.Sync(descriptors[fd]), old(world), world, staged, r.Failed?)
    {
      Interfere();
      r := *;
      log := log + [Event(Action.Sync(descriptors[fd]), world, world, r.Failed?)];
    }

    /** `os.fstat(fd)`: the identity of the directory behind a descriptor. */
    method Stat(fd: Fd) returns (r: Sys<Inode>)
      requires Valid() && fd in descriptors
      modifies this`world, this`log
      ensures Valid()
      ensures Observed(old(log), log, Action.Stat(fd, Opt(r)), old(world), world, staged,
                       r.Failed?)
      ensures r.Done? ==> r.value == descriptors[fd]
    {
      Interfere();
      var fails: bool, detail: string := *, *;
      r := if fails then Failed(detail) else Done(descriptors[fd]);
      log := log + [Event(Action.Stat(fd, Opt(r)), world, world, r.Failed?)];
    }

    method ReadRevision() returns (r: Reading<string>)
      requires Valid()
      modifies this`world, this`log
      ensures Valid()
      ensures Observed(old(log), log, Action.ReadRevision(OptReading(r)), old(world), world, staged, !r.Value?)
      ensures r.Value? ==> r.value == world.revision
    {
      Interfere();
      r := *;
      r := if r.Value? then Value(world.revision) else r;
      log := log + [Event(Action.ReadRevision(OptReading(r)), world, world, !r.Value?)];
    }

    method ReadState() returns (r: Reading<Bytes>)
      requires Valid()
      modifies this`world, this`log
      ensures Valid()
      ensures Observed(old(log), log, Action.ReadState(OptReading(r)), old(world), world, staged, !r.Value?)
      ensures r.Value? ==> r.value == world.state
    {
      Interfere();
      r := *;
      r := if r.Value? then Value(world.state) else r;
      log := log + [Event(Action.ReadState(OptReading(r)), world, world, !r.Value?)];
    }

    /** `_rename_noreplace_at` within the parent: atomic, and it never replaces a target. */
    method RenameNoReplace(source: Name, target: Name) returns (r: Renaming)
      requires Valid() && staged.Some?
      requires source in world.entries && world.entries[source] == staged.value
      modifies this`world, this`staged, this`log
      ensures Valid()
      ensures Logged(old(log), log, Action.Rename(source, target, r.Renamed?), old(world), world, old(staged), !r.Renamed?)
      ensures var before := log[|old(log)|].before;
              && (r.Renamed? ==>
                    && source in before.entries && target !in before.entries && staged == None
                    && world == before.(entries := (before.entries - {source})[target := before.entries[source]]))
              && (!r.Renamed? ==> world == before && staged == old(staged))
    {
      Interfere();
      ghost var before := world;
      r := *;
      if r.Renamed? && target in world.entries {
        r := TargetExists;
      }
      if r.Renamed? {
        world := world.(entries := (world.entries - {source})[target := world.entries[source]]);
        staged := None;
      }
      log := log + [Event(Action.Rename(source, target, r.Renamed?), before, world, !r.Renamed?)];
    }

    /** `os.unlink(file, dir_fd=fd)` */
    method Unlink(fd: Fd, file: Name) returns (r: Sys<()>)
      requires Valid() && fd in descriptors && staged == Some(descriptors[fd])
      requires world.objects[descriptors[fd]].Directory?
      modifies this`world, this`log
      ensures Valid()
      ensures Logged(old(log), log, Action.Unlink(descriptors[fd], file), old(world), world, staged, r.Failed?)
      ensures var before := log[|old(log)|].before;
              && world == before.(objects := world.objects)
              && world.objects.Keys == before.objects.Keys
              && (forall i :: i in before.objects && i != descriptors[fd] ==> world.objects[i] == before.objects[i])
              && world.objects[descriptors[fd]].Directory?
    {
      Interfere();
      ghost var before := world;
      var dir := descriptors[fd];
      var fails: bool, detail: string := *, *;
      if !fails && file in world.objects[dir].files {
        world := world.(objects := world.objects[dir := Directory(world.objects[dir].files - {file})]);
        r := Done(());
      } else {
        r := Failed(detail);
      }
      log := log + [Event(Action.Unlink(dir, file), before, world, r.Failed?)];
    }

    /** `os.rmdir(name, dir_fd=parent_fd)`: only an empty directory goes. */
    method RemoveDir(name: Name) returns (r: Sys<()>)
      requires Valid()
      modifies this`world, this`log
      ensures Valid()
      ensures Logged(old(log), log, Action.RemoveDir(name), old(world), world, staged, r.Failed?)
      ensures var before := log[|old(log)|].before;
              && (r.Done? ==> name in before.entries && world == before.(entries := before.entries - {name}))
              && (r.Failed? ==> world == before)
    {
      Interfere();
      ghost var before := world;
      var fails: bool, detail: string := *, *;
      if !fails && name in world.entries && world.objects[world.entries[name]] == Directory(map[]) {
        world := world.(entries := world.entries - {name});
        r := Done(());
      } else {
        r := Failed(detail);
      }
      log := log + [Event(Action.RemoveDir(name), before, world, r.Failed?)];
    }

    /** `os.close(fd)`: an open descriptor is gone even when an error is reported, for any other there is one. */
    method Close(fd: Fd) returns (r: Sys<()>)
      requires Valid()
      modifies this`world, this`descriptors, this`log
      ensures Valid() && descriptors == old(descriptors) - {fd}
      ensures Observed(old(log), log, Action.Close(fd), old(world), world, staged, r.Failed?)
      ensures fd !in old(descriptors) ==> r.Failed?
    {
      Interfere();
      var fails: bool, detail: string := *, *;
      r := if fails || fd !in descriptors then Failed(detail) else Done(());
      descriptors := descriptors - {fd};
      log := log + [Event(Action.Close(fd), world, world, r.Failed?)];
    }
  }
}

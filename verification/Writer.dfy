// The writer as it runs: system call by system call, with what every state of
// the disk looks like on the way.
module Writer {
  import opened Bytes
  import opened Wrappers
  import opened Hosts
  import opened Paths
  import opened Config
  import opened World
  import opened Kernel
  import opened Sources
  import opened Layout
  import Commit

  // --------------------------------------------------------- seen from above

  lemma LinkedFormed(f: Fs, p: Path, i: Inode)
    requires WellFormed(f)
    ensures WellFormed(Linked(f, p, i))
  {
  }

  lemma SeenLinked(f: Fs, path: Path, i: Inode)
    requires WellFormed(f) && !IsTemp(f, path)
    ensures WellFormed(Linked(f, path, i)) && Seen(Linked(f, path, i)) == Seen(f)[path := AsNode(i)]
  {
    var g := Linked(f, path, i);
    LinkedFormed(f, path, i);
    assert NodeAt(g, path) == AsNode(i);
    forall p | p in g.names && p != path
      ensures p in f.names && NodeAt(g, p) == NodeAt(f, p)
    {
    }
  }

  lemma SeenPerms(f: Fs, path: Path, perms: Perms)
    requires WellFormed(f) && !IsTemp(f, path) && path in f.names && f.names[path].Hard?
    requires f.inodes[f.names[path].ino].kind == Plain
    ensures var ino := f.names[path].ino; var g := SetInode(f, ino, f.inodes[ino].(perms := perms));
      WellFormed(g) && Seen(g) == Seen(f)[path := File(f.inodes[ino].data, perms)]
  {
    var ino := f.names[path].ino;
    var g := SetInode(f, ino, f.inodes[ino].(perms := perms));
    forall p | p in g.names && p != path
      ensures NodeAt(g, p) == NodeAt(f, p)
    {
    }
  }

  // ------------------------------------------------------------ atomic write

  // The state of the disk at any moment of an atomic write: every old inode is
  // as it was, so readers with the file open keep their bytes; every other
  // name is as it was; at most one temporary file more; and the path leads
  // either where it led before or to the complete new file.
  ghost predicate Replacing(f: Fs, s: Fs, path: Path, i: Inode) {
    && WellFormed(s) && s.missed == f.missed
    && (forall n <- f.inodes :: n in s.inodes && s.inodes[n] == f.inodes[n])
    && (forall p <- f.names :: p != path ==> p in s.names && s.names[p] == f.names[p])
    && (exists tmp :: IsTempIn(f, tmp, Parent(path)) && tmp !in f.names && s.names.Keys <= f.names.Keys + {path, tmp})
    && (Untouched(f, s, path) || Replaced(f, s, path, i))
  }

  ghost predicate Untouched(f: Fs, s: Fs, path: Path) {
    (path in s.names <==> path in f.names) && (path in f.names ==> s.names[path] == f.names[path])
  }

  ghost predicate Replaced(f: Fs, s: Fs, path: Path, i: Inode) {
    && s.names.Keys == f.names.Keys + {path}
    && s.names[path].Hard? && s.names[path].ino !in f.inodes
    && s.names[path].ino in s.inodes && s.inodes[s.names[path].ino] == i
  }

  // The temporary file exists; nothing else has happened yet.
  lemma StagedReplacing(f: Fs, tmp: Path, i: Inode, path: Path, goal: Inode)
    requires WellFormed(f) && tmp !in f.names && IsTempIn(f, tmp, Parent(path)) && !IsTemp(f, path)
    ensures Replacing(f, Linked(f, tmp, i), path, goal)
  {
  }

  lemma StagedInode(f: Fs, tmp: Path, i: Inode, j: Inode)
    ensures SetInode(Linked(f, tmp, i), f.next, j) == Linked(f, tmp, j)
  {
  }

  lemma RenamedReplacing(f: Fs, tmp: Path, i: Inode, path: Path)
    requires WellFormed(f) && tmp !in f.names && IsTempIn(f, tmp, Parent(path)) && !IsTemp(f, path)
    ensures Renamed(Linked(f, tmp, i), tmp, path) == Linked(f, path, i)
    ensures Replacing(f, Linked(f, path, i), path, i)
  {
    assert Linked(f, path, i).names.Keys == f.names.Keys + {path};
  }

  lemma RemovedReplacing(f: Fs, tmp: Path, i: Inode, path: Path, goal: Inode)
    requires WellFormed(f) && tmp !in f.names && IsTempIn(f, tmp, Parent(path)) && !IsTemp(f, path)
    ensures Unlinked(Linked(f, tmp, i), tmp) == f.(inodes := f.inodes[f.next := i], next := f.next + 1)
    ensures Replacing(f, Unlinked(Linked(f, tmp, i), tmp), path, goal)
  {
  }

  ghost predicate AllReplacing(f: Fs, history: seq<Fs>, from: nat, path: Path, i: Inode) {
    forall k :: from <= k < |history| ==> Replacing(f, history[k], path, i)
  }

  lemma Record(f: Fs, history: seq<Fs>, s: Fs, from: nat, path: Path, i: Inode)
    requires AllReplacing(f, history, from, path, i) && Replacing(f, s, path, i)
    ensures AllReplacing(f, history + [s], from, path, i)
  {
    forall k | from <= k < |history + [s]|
      ensures Replacing(f, (history + [s])[k], path, i)
    {
      if k < |history| {
        assert (history + [s])[k] == history[k];
      }
    }
  }

  // After a failure: the path as before, no temporary file unless removing it
  // failed as well.
  ghost predicate Abandoned(f: Fs, s: Fs, path: Path, removable: bool) {
    && WellFormed(s) && s.missed == f.missed
    && (forall n <- f.inodes :: n in s.inodes && s.inodes[n] == f.inodes[n])
    && (forall p <- f.names :: p in s.names && s.names[p] == f.names[p])
    && (removable ==> s.names == f.names)
    && (forall p <- s.names :: p in f.names || IsTempIn(f, p, Parent(path)))
  }

  method Cleanup(disk: Disk, tmp: Path, path: Path, close: bool,
                 ghost f: Fs, ghost i: Inode, ghost goal: Inode, ghost from: nat)
    requires disk.Valid() && WellFormed(f)
    requires AllReplacing(f, disk.history, from, path, goal)
    requires tmp !in f.names && IsTempIn(f, tmp, Parent(path)) && !IsTemp(f, path)
    requires disk.fs == Linked(f, tmp, i)
    modifies disk
    ensures disk.Valid()
    ensures Abandoned(f, disk.fs, path, !disk.oracle.faults(path, Remove))
    ensures old(disk.history) <= disk.history
    ensures AllReplacing(f, disk.history, from, path, goal)
  {
    if close {
      var _ := disk.Flush(path, Op.Close);
    }
    RemovedReplacing(f, tmp, i, path, goal);
    Record(f, disk.history, Unlinked(disk.fs, tmp), from, path, goal);
    var _ := disk.RemoveName(tmp, path);
  }

  lemma RecordStaged(f: Fs, tmp: Path, i: Inode, j: Inode, history: seq<Fs>, from: nat, path: Path, goal: Inode)
    requires WellFormed(f) && tmp !in f.names && IsTempIn(f, tmp, Parent(path)) && !IsTemp(f, path)
    requires AllReplacing(f, history, from, path, goal)
    ensures SetInode(Linked(f, tmp, i), f.next, j) == Linked(f, tmp, j)
    ensures AllReplacing(f, history + [Linked(f, tmp, j)], from, path, goal)
  {
    StagedInode(f, tmp, i, j);
    StagedReplacing(f, tmp, j, path, goal);
    Record(f, history, Linked(f, tmp, j), from, path, goal);
  }

  lemma RecordWrite(f: Fs, tmp: Path, empty: Inode, part: Inode, full: Inode,
                    history: seq<Fs>, from: nat, path: Path, goal: Inode)
    requires WellFormed(f) && tmp !in f.names && IsTempIn(f, tmp, Parent(path)) && !IsTemp(f, path)
    requires AllReplacing(f, history, from, path, goal)
    ensures SetInode(Linked(f, tmp, empty), f.next, part) == Linked(f, tmp, part)
    ensures SetInode(Linked(f, tmp, empty), f.next, full) == Linked(f, tmp, full)
    ensures AllReplacing(f, history + [Linked(f, tmp, part)], from, path, goal)
    ensures AllReplacing(f, history + [Linked(f, tmp, part)] + [Linked(f, tmp, full)], from, path, goal)
  {
    RecordStaged(f, tmp, empty, part, history, from, path, goal);
    RecordStaged(f, tmp, empty, full, history + [Linked(f, tmp, part)], from, path, goal);
  }

  // The calls on the open temporary file, in order, up to the first failure.
  method FillTemp(disk: Disk, tmp: Path, path: Path, content: bytes, perms: Perms, ghost f: Fs, ghost from: nat)
    returns (ok: bool, ghost i: Inode)
    requires disk.Valid() && WellFormed(f)
    requires tmp !in f.names && IsTempIn(f, tmp, Parent(path)) && !IsTemp(f, path)
    requires disk.fs == Linked(f, tmp, Inode(Plain, [], Perms(0x180, 0, 0)))
    requires AllReplacing(f, disk.history, from, path, Inode(Plain, content, perms))
    modifies disk
    ensures disk.Valid()
    ensures ok <==>
      && !disk.oracle.faults(path, Op.Write) && !disk.oracle.faults(path, Op.Sync)
      && !disk.oracle.faults(path, Chmod(Temp)) && !disk.oracle.faults(path, Chown(Temp))
    ensures disk.fs == Linked(f, tmp, i)
    ensures ok ==> i == Inode(Plain, content, perms)
    ensures old(disk.history) <= disk.history
    ensures AllReplacing(f, disk.history, from, path, Inode(Plain, content, perms))
  {
    var fd := disk.fs.names[tmp].ino;
    ghost var goal := Inode(Plain, content, perms);
    ghost var empty := Inode(Plain, [], Perms(0x180, 0, 0));
    ghost var n := if disk.oracle.partial(path) < |content| then disk.oracle.partial(path) else |content|;
    ghost var part, full := empty.(data := content[..n]), empty.(data := content);
    RecordWrite(f, tmp, empty, part, full, disk.history, from, path, goal);
    ok := disk.WriteAll(fd, content, path);
    if !ok {
      i := part;
      return;
    }
    i := full;
    ok := disk.Flush(path, Op.Sync);
    if !ok {
      return;
    }
    ok, i := SetTempPerms(disk, tmp, path, content, perms, f, from);
  }

  // Mode, then owner, of the open temporary file.
  method SetTempPerms(disk: Disk, tmp: Path, path: Path, ghost content: bytes, perms: Perms,
                      ghost f: Fs, ghost from: nat)
    returns (ok: bool, ghost i: Inode)
    requires disk.Valid() && WellFormed(f)
    requires tmp !in f.names && IsTempIn(f, tmp, Parent(path)) && !IsTemp(f, path)
    requires disk.fs == Linked(f, tmp, Inode(Plain, content, Perms(0x180, 0, 0)))
    requires AllReplacing(f, disk.history, from, path, Inode(Plain, content, perms))
    modifies disk
    ensures disk.Valid()
    ensures ok <==> !disk.oracle.faults(path, Chmod(Temp)) && !disk.oracle.faults(path, Chown(Temp))
    ensures disk.fs == Linked(f, tmp, i)
    ensures ok ==> i == Inode(Plain, content, perms)
    ensures old(disk.history) <= disk.history
    ensures AllReplacing(f, disk.history, from, path, Inode(Plain, content, perms))
  {
    var fd := disk.fs.names[tmp].ino;
    ghost var goal := Inode(Plain, content, perms);
    i := goal.(perms := Perms(0x180, 0, 0));
    ghost var moded := goal.(perms := Perms(perms.mode, 0, 0));
    RecordStaged(f, tmp, i, moded, disk.history, from, path, goal);
    ok := disk.Fchmod(fd, perms.mode, path, Temp);
    if !ok {
      return;
    }
    i := moded;
    RecordStaged(f, tmp, moded, goal, disk.history, from, path, goal);
    ok := disk.Fchown(fd, perms.uid, perms.gid, path, Temp);
    if ok {
      i := goal;
    }
  }

  // Closes the finished temporary file and renames it over the path.
  method PutInPlace(disk: Disk, tmp: Path, path: Path, content: bytes, perms: Perms, ghost f: Fs, ghost from: nat)
    returns (r: Result<Unit, Error>)
    requires disk.Valid() && WellFormed(f)
    requires tmp !in f.names && IsTempIn(f, tmp, Parent(path)) && !IsTemp(f, path)
    requires disk.fs == Linked(f, tmp, Inode(Plain, content, perms))
    requires AllReplacing(f, disk.history, from, path, Inode(Plain, content, perms))
    modifies disk
    ensures disk.Valid()
    ensures r.Success? <==>
      !disk.oracle.faults(path, Op.Close) && !disk.oracle.faults(path, Op.Rename) && !HoldsFolder(f, path)
    ensures r.Failure? ==> r.error == Io
    ensures r.Success? ==> disk.fs == Linked(f, path, Inode(Plain, content, perms))
    ensures r.Failure? ==> Abandoned(f, disk.fs, path, !disk.oracle.faults(path, Remove))
    ensures old(disk.history) <= disk.history
    ensures AllReplacing(f, disk.history, from, path, Inode(Plain, content, perms))
  {
    ghost var goal := Inode(Plain, content, perms);
    var ok := disk.Flush(path, Op.Close);
    if !ok {
      Cleanup(disk, tmp, path, false, f, goal, goal, from);
      return Failure(Io);
    }
    RenamedReplacing(f, tmp, goal, path);
    assert HoldsFolder(disk.fs, path) <==> HoldsFolder(f, path);
    Record(f, disk.history, Linked(f, path, goal), from, path, goal);
    ok := disk.RenameOver(tmp, path);
    if !ok {
      Cleanup(disk, tmp, path, false, f, goal, goal, from);
      return Failure(Io);
    }
    return Success(Unit);
  }

  // Stages the content in a temporary file beside the path, sets mode and
  // owner on it, then renames it into place.
  method AtomicWrite(disk: Disk, path: Path, content: bytes, perms: Perms) returns (r: Result<Unit, Error>)
    requires disk.Valid() && !IsTemp(disk.fs, path)
    modifies disk
    ensures disk.Valid()
    ensures r.Success? <==>
      !Commit.WriteFaulty(disk.oracle, path) && IsFolder(old(disk.fs), Parent(path)) && !HoldsFolder(old(disk.fs), path)
    ensures r.Failure? ==> r.error == Io
    ensures r.Success? ==> disk.fs == Linked(old(disk.fs), path, Inode(Plain, content, perms))
    ensures r.Failure? ==> Abandoned(old(disk.fs), disk.fs, path, !disk.oracle.faults(path, Remove))
    ensures old(disk.history) <= disk.history
    ensures AllReplacing(old(disk.fs), disk.history, |old(disk.history)|, path, Inode(Plain, content, perms))
  {
    ghost var f, from := disk.fs, |disk.history|;
    ghost var goal := Inode(Plain, content, perms);
    var dir := Parent(path);
    var created := disk.CreateTemp(dir, path);
    if created.Failure? {
      return Failure(Io);
    }
    var tmp := created.value;
    StagedReplacing(f, tmp, Inode(Plain, [], Perms(0x180, 0, 0)), path, goal);
    Record(f, old(disk.history), disk.fs, from, path, goal);
    ghost var i;
    var ok;
    ok, i := FillTemp(disk, tmp, path, content, perms, f, from);
    if !ok {
      Cleanup(disk, tmp, path, true, f, i, goal, from);
      return Failure(Io);
    }
    r := PutInPlace(disk, tmp, path, content, perms, f, from);
  }

  // ----------------------------------------------------- reading and perms

  lemma SeenAt(f: Fs, p: Path)
    requires WellFormed(f) && !IsTemp(f, p)
    ensures p in Seen(f) <==> p in f.names
    ensures p in f.names ==> Seen(f)[p] == NodeAt(f, p)
  {
  }

  method ReadRegularFile(disk: Disk, path: Path, phase: Phase) returns (r: Result<bytes, Error>)
    requires disk.Valid() && !IsTemp(disk.fs, path)
    ensures r == ReadRegular(Seen(disk.fs), path, phase, disk.oracle)
  {
    SeenAt(disk.fs, path);
    var fd := disk.OpenNoFollow(path, phase);
    if fd.Failure? {
      return Failure(fd.error);
    }
    var st := disk.StatRegular(fd.value, path, phase);
    if st.Failure? {
      return Failure(st.error);
    }
    r := disk.ReadAll(fd.value, path, phase);
  }

  // One step of a commit, seen from above: only this path, and in one of the
  // states a commit passes through; no more than one temporary file extra.
  ghost predicate CommitStep(f: Fs, s: Fs, file: SlotFile) {
    && WellFormed(f) && WellFormed(s) && s.missed == f.missed
    && OnlyAt(Seen(f), Seen(s), {file.path})
    && Commit.SlotState(Seen(f), Seen(s), file)
    && AtMostOneTemp(f, s, file.path)
  }

  ghost predicate AtMostOneTemp(f: Fs, s: Fs, path: Path) {
    exists tmp :: IsTempIn(f, tmp, Parent(path)) && s.names.Keys <= f.names.Keys + {path, tmp}
  }

  ghost predicate AllCommitSteps(f: Fs, history: seq<Fs>, from: nat, file: SlotFile) {
    forall k :: from <= k < |history| ==> CommitStep(f, history[k], file)
  }

  lemma SomeTemp(f: Fs, path: Path)
    ensures AtMostOneTemp(f, f, path)
  {
    TempNameExists(f.missed, Parent(path));
    var suffix :| NoSlash(suffix) && Child(Parent(path), TEMP_PREFIX + suffix) !in f.missed;
    var tmp := Child(Parent(path), TEMP_PREFIX + suffix);
    assert tmp.parts[..|tmp.parts| - 1] == Parent(path).parts;
    assert IsTempIn(f, tmp, Parent(path));
  }

  lemma ReplacingElsewhere(f: Fs, s: Fs, path: Path, i: Inode)
    requires WellFormed(f) && !IsTemp(f, path) && Replacing(f, s, path, i)
    ensures OnlyAt(Seen(f), Seen(s), {path})
    ensures AtMostOneTemp(f, s, path)
  {
    var tmp :| IsTempIn(f, tmp, Parent(path)) && tmp !in f.names && s.names.Keys <= f.names.Keys + {path, tmp};
    forall p | p != path
      ensures SameAt(Seen(f), Seen(s), p)
    {
      if !IsTemp(f, p) {
        assert p in s.names <==> p in f.names;
        SeenAt(f, p);
        SeenAt(s, p);
      }
    }
  }

  lemma ReplacingHere(f: Fs, s: Fs, path: Path, content: bytes, perms: Perms)
    requires WellFormed(f) && path.parts != [] && !IsTemp(f, path)
    requires Replacing(f, s, path, Inode(Plain, content, perms))
    ensures SameAt(Seen(f), Seen(s), path) || Holds(Seen(s), path, content, perms)
  {
    SeenAt(f, path);
    SeenAt(s, path);
  }

  lemma ReplacingStep(f: Fs, s: Fs, file: SlotFile)
    requires WellFormed(f) && file.path.parts != [] && !IsTemp(f, file.path)
    requires Replacing(f, s, file.path, Inode(Plain, file.content, file.perms))
    ensures CommitStep(f, s, file)
  {
    ReplacingElsewhere(f, s, file.path, Inode(Plain, file.content, file.perms));
    ReplacingHere(f, s, file.path, file.content, file.perms);
  }

  lemma AbandonedSeen(f: Fs, s: Fs, path: Path, removable: bool)
    requires WellFormed(f) && Abandoned(f, s, path, removable)
    ensures Seen(s) == Seen(f)
  {
    forall p | p in Seen(s)
      ensures p in Seen(f) && Seen(f)[p] == Seen(s)[p]
    {
      SeenAt(f, p);
    }
  }

  lemma PermsStep(f: Fs, file: SlotFile, perms: Perms)
    requires WellFormed(f) && file.path.parts != [] && !IsTemp(f, file.path)
    requires file.path in f.names && f.names[file.path].Hard?
    requires var i := f.inodes[f.names[file.path].ino]; i.kind == Plain && i.data == file.content
    requires var was := f.inodes[f.names[file.path].ino].perms;
             perms == file.perms || perms == was.(mode := file.perms.mode)
    ensures var ino := f.names[file.path].ino; var s := SetInode(f, ino, f.inodes[ino].(perms := perms));
      && CommitStep(f, s, file)
      && Seen(s) == Seen(f)[file.path := File(file.content, perms)]
  {
    SeenPerms(f, file.path, perms);
    SeenAt(f, file.path);
    SomeTemp(f, file.path);
  }

  lemma SetTwice(f: Fs, ino: nat, i: Inode, j: Inode)
    ensures SetInode(SetInode(f, ino, i), ino, j) == SetInode(f, ino, j)
  {
  }

  lemma RecordStep(f: Fs, history: seq<Fs>, s: Fs, from: nat, file: SlotFile)
    requires AllCommitSteps(f, history, from, file) && CommitStep(f, s, file)
    ensures AllCommitSteps(f, history + [s], from, file)
  {
    forall k | from <= k < |history + [s]|
      ensures CommitStep(f, (history + [s])[k], file)
    {
      if k < |history| {
        assert (history + [s])[k] == history[k];
      }
    }
  }

  // "No change" when all went well.
  function Unchanged(r: Result<Unit, Error>): Result<bool, Error> {
    match r
    case Failure(e) => Failure(e)
    case Success(_) => Success(false)
  }

  // Re-applies mode and owner to the file the descriptor pins.
  method EnforcePerms(disk: Disk, file: SlotFile) returns (r: Result<Unit, Error>)
    requires disk.Valid() && !IsTemp(disk.fs, file.path)
    requires file.path in Seen(disk.fs) && Seen(disk.fs)[file.path].File?
    requires Seen(disk.fs)[file.path].data == file.content
    modifies disk
    ensures disk.Valid() && disk.fs.missed == old(disk.fs.missed)
    ensures Commit.Committed(Seen(disk.fs), Unchanged(r))
         == Commit.EnforcePerms(old(Seen(disk.fs)), file.path, file.perms, disk.oracle)
    ensures old(disk.history) <= disk.history
    ensures AllCommitSteps(old(disk.fs), disk.history, |old(disk.history)|, file)
  {
    ghost var f, from := disk.fs, |disk.history|;
    SeenAt(f, file.path);
    var fd := disk.OpenNoFollow(file.path, Enforce);
    if fd.Failure? {
      return Failure(fd.error);
    }
    var st := disk.StatRegular(fd.value, file.path, Enforce);
    if st.Failure? {
      return Failure(st.error);
    }
    ghost var was := f.inodes[fd.value];
    ghost var moded := was.(perms := was.perms.(mode := file.perms.mode));
    PermsStep(f, file, moded.perms);
    RecordStep(f, disk.history, SetInode(f, fd.value, moded), from, file);
    var ok := disk.Fchmod(fd.value, file.perms.mode, file.path, Enforce);
    if !ok {
      return Failure(Io);
    }
    ghost var done := was.(perms := file.perms);
    PermsStep(f, file, file.perms);
    SetTwice(f, fd.value, moded, done);
    RecordStep(f, disk.history, SetInode(f, fd.value, done), from, file);
    ok := disk.Fchown(fd.value, file.perms.uid, file.perms.gid, file.path, Enforce);
    if !ok {
      return Failure(Io);
    }
    return Success(Unit);
  }

  // Writes the file if it differs from what is there and re-enforces mode and
  // owner otherwise.
  method CommitFile(disk: Disk, file: SlotFile) returns (r: Result<bool, Error>)
    requires disk.Valid() && !IsTemp(disk.fs, file.path) && IsFolder(disk.fs, Parent(file.path))
    modifies disk
    ensures disk.Valid() && disk.fs.missed == old(disk.fs.missed)
    ensures Commit.Committed(Seen(disk.fs), r) == Commit.CommitFile(old(Seen(disk.fs)), file, disk.oracle)
    ensures old(disk.history) <= disk.history
    ensures AllCommitSteps(old(disk.fs), disk.history, |old(disk.history)|, file)
  {
    ghost var f, from := disk.fs, |disk.history|;
    var existing := ReadRegularFile(disk, file.path, Existing);
    if existing.Failure? && existing.error != NotExist {
      return Failure(existing.error);
    }
    if existing.Success? && existing.value == file.content {
      var enforced := EnforcePerms(disk, file);
      if enforced.Failure? {
        return Failure(enforced.error);
      }
      return Success(false);
    }
    var written := AtomicWrite(disk, file.path, file.content, file.perms);
    forall k | from <= k < |disk.history|
      ensures CommitStep(f, disk.history[k], file)
    {
      ReplacingStep(f, disk.history[k], file);
    }
    if written.Failure? {
      AbandonedSeen(f, disk.fs, file.path, !disk.oracle.faults(file.path, Remove));
      return Failure(written.error);
    }
    SeenLinked(f, file.path, Inode(Plain, file.content, file.perms));
    return Success(true);
  }

  // --------------------------------------------------------- several files

  lemma {:induction false} DistinctIndices(files: seq<SlotFile>, i: nat, j: nat)
    requires DistinctPaths(files) && i < j < |files|
    ensures files[i].path != files[j].path
  {
    if i == 0 {
    } else {
      DistinctIndices(files[1..], i - 1, j - 1);
    }
  }

  // The first n files are in place, the rest and everything else untouched.
  ghost predicate DoneTo(w: World, s: World, files: seq<SlotFile>, n: nat) {
    && n <= |files|
    && (forall j :: 0 <= j < n ==> Holds(s, files[j].path, files[j].content, files[j].perms))
    && (forall j :: n <= j < |files| ==> SameAt(w, s, files[j].path))
    && OnlyAt(w, s, Commit.PathsOf(files))
  }

  lemma StepOthers(mid: World, s: World, files: seq<SlotFile>, n: nat)
    requires DistinctPaths(files) && n < |files|
    requires OnlyAt(mid, s, {files[n].path})
    ensures forall j :: 0 <= j < |files| && j != n ==> SameAt(mid, s, files[j].path)
  {
    forall j | 0 <= j < |files| && j != n
      ensures SameAt(mid, s, files[j].path)
    {
      DistinctIndices(files, if j < n then j else n, if j < n then n else j);
    }
  }

  lemma StepHeld(w: World, mid: World, s: World, files: seq<SlotFile>, n: nat)
    requires n < |files| && DoneTo(w, mid, files, n)
    requires forall j :: 0 <= j < |files| && j != n ==> SameAt(mid, s, files[j].path)
    ensures forall j :: 0 <= j < n ==> Holds(s, files[j].path, files[j].content, files[j].perms)
    ensures forall j :: n < j < |files| ==> SameAt(w, s, files[j].path)
  {
    forall j | 0 <= j < n
      ensures Holds(s, files[j].path, files[j].content, files[j].perms)
    {
      assert Holds(mid, files[j].path, files[j].content, files[j].perms);
    }
    forall j | n < j < |files|
      ensures SameAt(w, s, files[j].path)
    {
      assert SameAt(w, mid, files[j].path);
    }
  }

  lemma StepWithin(w: World, mid: World, s: World, files: seq<SlotFile>, n: nat)
    requires DistinctPaths(files) && n < |files| && DoneTo(w, mid, files, n)
    requires OnlyAt(mid, s, {files[n].path}) && Commit.SlotState(mid, s, files[n])
    ensures Commit.PrefixState(w, s, files, n)
    ensures Holds(s, files[n].path, files[n].content, files[n].perms) ==> DoneTo(w, s, files, n + 1)
  {
    StepOthers(mid, s, files, n);
    StepHeld(w, mid, s, files, n);
    assert SameAt(w, mid, files[n].path);
    assert files[n].path in Commit.PathsOf(files);
  }

  ghost predicate SomePrefix(w: World, f: Fs, files: seq<SlotFile>) {
    WellFormed(f) && exists i :: Commit.PrefixState(w, Seen(f), files, i)
  }

  // Every state since `from` is a prefix of the list of commits.
  ghost predicate AllPrefixes(w: World, history: seq<Fs>, from: nat, files: seq<SlotFile>) {
    forall k :: from <= k < |history| ==> SomePrefix(w, history[k], files)
  }

  lemma StepIsPrefix(w: World, f: Fs, s: Fs, files: seq<SlotFile>, n: nat)
    requires DistinctPaths(files) && n < |files|
    requires WellFormed(f) && DoneTo(w, Seen(f), files, n) && CommitStep(f, s, files[n])
    ensures SomePrefix(w, s, files)
  {
    StepWithin(w, Seen(f), Seen(s), files, n);
  }

  lemma StepsWithin(w: World, f: Fs, before: seq<Fs>, history: seq<Fs>, from: nat, files: seq<SlotFile>, n: nat)
    requires DistinctPaths(files) && n < |files|
    requires WellFormed(f) && DoneTo(w, Seen(f), files, n)
    requires before <= history && AllPrefixes(w, before, from, files)
    requires AllCommitSteps(f, history, |before|, files[n])
    ensures AllPrefixes(w, history, from, files)
  {
    forall k | from <= k < |history|
      ensures SomePrefix(w, history[k], files)
    {
      if k < |before| {
        assert before[k] == history[k];
      } else {
        StepIsPrefix(w, f, history[k], files, n);
      }
    }
  }

  ghost function Combine(changed: bool, rest: Result<bool, Error>): Result<bool, Error> {
    match rest
    case Failure(e) => Failure(e)
    case Success(more) => Success(changed || more)
  }

  // After n files: they are in place, and what is left to do is the rest.
  ghost predicate Progress(w: World, s: World, files: seq<SlotFile>, n: nat, changed: bool, o: Oracle) {
    && DoneTo(w, s, files, n)
    && var rest := Commit.CommitAll(s, files[n..], o);
       Commit.CommitAll(w, files, o) == Commit.Committed(rest.world, Combine(changed, rest.result))
  }

  lemma Advance(w: World, s: World, files: seq<SlotFile>, n: nat, changed: bool, o: Oracle)
    requires DistinctPaths(files) && n < |files| && Progress(w, s, files, n, changed, o)
    ensures var c := Commit.CommitFile(s, files[n], o);
      && (c.result.Failure? ==> Commit.CommitAll(w, files, o) == c)
      && (c.result.Success? ==> Progress(w, c.world, files, n + 1, changed || c.result.value, o))
  {
    var c := Commit.CommitFile(s, files[n], o);
    Commit.CommitFileEffect(s, files[n], o);
    StepWithin(w, s, c.world, files, n);
    assert files[n..][0] == files[n] && files[n..][1..] == files[n + 1..];
  }

  function PlannedPaths(files: seq<SlotFile>): seq<Path> {
    seq(|files|, i requires 0 <= i < |files| => files[i].path)
  }

  lemma PlannedNext(files: seq<SlotFile>, n: nat)
    requires n < |files|
    ensures PlannedPaths(files[..n + 1]) == PlannedPaths(files[..n]) + [files[n].path]
  {
  }

  lemma SeenFolder(f: Fs, d: Path)
    requires WellFormed(f) && !IsTemp(f, d)
    ensures IsFolder(f, d) <==> IsDirectory(Seen(f), d)
  {
  }

  // Committing the files of a directory leaves it a directory.
  lemma StillDirectory(w: World, f: Fs, files: seq<SlotFile>, n: nat, dir: Path)
    requires WellFormed(f) && DoneTo(w, Seen(f), files, n) && !IsTemp(f, dir) && IsDirectory(w, dir)
    requires forall i :: 0 <= i < |files| ==> Parent(files[i].path) == dir
    ensures IsFolder(f, dir)
  {
    SeenFolder(f, dir);
    if dir.parts != [] {
      forall i | 0 <= i < |files|
        ensures files[i].path != dir
      {
        assert |Parent(dir).parts| < |dir.parts|;
      }
      assert dir !in Commit.PathsOf(files);
      assert SameAt(w, Seen(f), dir);
    }
  }

  // After n files: they are in place, and every state on the way is a prefix.
  ghost predicate Committing(w: World, f: Fs, history: seq<Fs>, from: nat, files: seq<SlotFile>, n: nat,
                             changed: bool, paths: seq<Path>, o: Oracle)
  {
    && WellFormed(f) && Progress(w, Seen(f), files, n, changed, o)
    && paths == PlannedPaths(files[..n]) && AllPrefixes(w, history, from, files)
  }

  // One more file, or the failure that ends the loop.
  lemma CommitNext(w: World, f: Fs, g: Fs, before: seq<Fs>, history: seq<Fs>, from: nat, files: seq<SlotFile>, n: nat,
                   changed: bool, paths: seq<Path>, o: Oracle, r: Result<bool, Error>)
    requires DistinctPaths(files) && n < |files| && WellFormed(g) && before <= history
    requires Committing(w, f, before, from, files, n, changed, paths, o)
    requires Commit.Committed(Seen(g), r) == Commit.CommitFile(Seen(f), files[n], o)
    requires AllCommitSteps(f, history, |before|, files[n])
    ensures AllPrefixes(w, history, from, files)
    ensures r.Failure? ==> Commit.CommitAll(w, files, o) == Commit.Committed(Seen(g), r)
    ensures r.Success? ==>
      Committing(w, g, history, from, files, n + 1, changed || r.value, paths + [files[n].path], o)
  {
    Advance(w, Seen(f), files, n, changed, o);
    StepsWithin(w, f, before, history, from, files, n);
    PlannedNext(files, n);
  }

  // The loop over the files of a layout.
  method CommitFiles(disk: Disk, ghost dir: Path, files: seq<SlotFile>)
    returns (r: Result<bool, Error>, paths: seq<Path>)
    requires disk.Valid() && DistinctPaths(files)
    requires forall i :: 0 <= i < |files| ==> !IsTemp(disk.fs, files[i].path) && Parent(files[i].path) == dir
    requires !IsTemp(disk.fs, dir) && IsDirectory(Seen(disk.fs), dir)
    modifies disk
    ensures disk.Valid() && disk.fs.missed == old(disk.fs.missed)
    ensures Commit.Committed(Seen(disk.fs), r) == Commit.CommitAll(old(Seen(disk.fs)), files, disk.oracle)
    ensures r.Success? ==> paths == PlannedPaths(files)
    ensures old(disk.history) <= disk.history
    ensures AllPrefixes(old(Seen(disk.fs)), disk.history, |old(disk.history)|, files)
  {
    ghost var w, from := Seen(disk.fs), |disk.history|;
    paths := [];
    var changed := false;
    assert files[0..] == files;
    for n := 0 to |files|
      invariant disk.Valid() && disk.fs.missed == old(disk.fs.missed)
      invariant old(disk.history) <= disk.history
      invariant Committing(w, disk.fs, disk.history, from, files, n, changed, paths, disk.oracle)
    {
      ghost var f, before := disk.fs, disk.history;
      StillDirectory(w, f, files, n, dir);
      var c := CommitFile(disk, files[n]);
      CommitNext(w, f, disk.fs, before, disk.history, from, files, n, changed, paths, disk.oracle, c);
      if c.Failure? {
        return Failure(c.error), paths;
      }
      changed := changed || c.value;
      paths := paths + [files[n].path];
    }
    assert files[..|files|] == files;
    return Success(changed), paths;
  }

  // ------------------------------------------------------------------ write

  // Whether content changed, and every path touched, in order.
  datatype Outcome = Outcome(changed: bool, paths: seq<Path>)

  function Changed(r: Result<Outcome, Error>): Result<bool, Error> {
    match r
    case Failure(e) => Failure(e)
    case Success(out) => Success(out.changed)
  }

  // No temporary file takes one of the certificate's names, or one on the way
  // to them: it has an ordinary one, or the random choice misses it.
  ghost predicate Ordinary(f: Fs, c: CertConfig) {
    && (forall p <- CertPaths(c) :: !IsTemp(f, p))
    && (forall a :: Leads(a, TargetDir(c)) ==> !IsTemp(f, a))
  }

  lemma PlanOrdinary(f: Fs, c: CertConfig, m: Material, host: Host)
    requires ValidCert(c, host) && Ordinary(f, c) && Plan(c, m, host).Success?
    ensures var files := Plan(c, m, host).value;
      forall i :: 0 <= i < |files| ==> !IsTemp(f, files[i].path) && Parent(files[i].path) == TargetDir(c)
    ensures !IsTemp(f, TargetDir(c))
  {
    PlanWithin(c, m, host);
    ValidBelow(c, host);
    assert TargetDir(c).parts != [] ==> Leads(TargetDir(c), TargetDir(c));
  }

  // ------------------------------------------------------------- directories

  // Some of the directories that lead to a place have been made.
  ghost predicate SomeMade(w: World, f: Fs, d: Path, o: Oracle) {
    WellFormed(f) && exists a :: Leads(a, d) && Seen(f) == MakeDirs(w, a, o).world
  }

  ghost predicate AllMade(w: World, history: seq<Fs>, from: nat, d: Path, o: Oracle) {
    forall k :: from <= k < |history| ==> SomeMade(w, history[k], d, o)
  }

  lemma MadeFurther(w: World, history: seq<Fs>, from: nat, d: Path, o: Oracle)
    requires d.parts != [] && AllMade(w, history, from, Parent(d), o)
    ensures AllMade(w, history, from, d, o)
  {
    forall k | from <= k < |history|
      ensures SomeMade(w, history[k], d, o)
    {
      var a :| Leads(a, Parent(d)) && Seen(history[k]) == MakeDirs(w, a, o).world;
      LeadsUp(a, d);
    }
  }

  // Makes a directory and whatever is missing above it.
  method MkdirAll(disk: Disk, d: Path) returns (ok: bool)
    requires disk.Valid() && forall a :: Leads(a, d) ==> !IsTemp(disk.fs, a)
    modifies disk
    ensures disk.Valid() && disk.fs.missed == old(disk.fs.missed)
    ensures Made(Seen(disk.fs), ok) == MakeDirs(old(Seen(disk.fs)), d, disk.oracle)
    ensures old(disk.history) <= disk.history
    ensures AllMade(old(Seen(disk.fs)), disk.history, |old(disk.history)|, d, disk.oracle)
    decreases |d.parts|
  {
    ghost var w, from := Seen(disk.fs), |disk.history|;
    if d.parts != [] {
      assert Leads(d, d);
      SeenAt(disk.fs, d);
    }
    var there := disk.IsDirAt(d);
    if there.Some? {
      SeenFolder(disk.fs, d);
      return there.value;
    }
    forall a | Leads(a, Parent(d))
      ensures !IsTemp(disk.fs, a)
    {
      LeadsUp(a, d);
    }
    ok := MkdirAll(disk, Parent(d));
    MadeFurther(w, disk.history, from, d, disk.oracle);
    if !ok {
      return;
    }
    MadeOnly(w, Parent(d), disk.oracle);
    MadeParent(w, disk.fs, d, disk.oracle);
    SeenLinked(disk.fs, d, Inode(Folder, [], Perms(0x1ED, 0, 0)));
    ok := disk.MakeDir(d);
    assert ok ==> Seen(disk.fs) == MakeDirs(w, d, disk.oracle).world;
  }

  lemma MadeParent(w: World, f: Fs, d: Path, o: Oracle)
    requires WellFormed(f) && d.parts != [] && d !in w && MakeDirs(w, Parent(d), o) == Made(Seen(f), true)
    requires !IsTemp(f, d) && (Leads(Parent(d), d) ==> !IsTemp(f, Parent(d)))
    ensures d !in f.names && IsFolder(f, Parent(d))
  {
    MadeOnly(w, Parent(d), o);
    ParentShorter(d);
    SeenAt(f, d);
    if Parent(d).parts != [] {
      assert Leads(Parent(d), d);
      SeenFolder(f, Parent(d));
    }
  }

  // ------------------------------------------------------------------ write

  // Every state since `from` is one on the way of the write.
  ghost predicate Kept(w: World, history: seq<Fs>, from: nat, c: CertConfig, m: Material, o: Oracle, host: Host) {
    forall k :: from <= k < |history| ==> WellFormed(history[k]) && Commit.Way(w, Seen(history[k]), m, c, o, host)
  }

  lemma KeptMade(w: World, history: seq<Fs>, from: nat, c: CertConfig, m: Material, o: Oracle, host: Host)
    requires AllMade(w, history, from, TargetDir(c), o)
    ensures Kept(w, history, from, c, m, o, host)
  {
    forall k | from <= k < |history|
      ensures WellFormed(history[k]) && Commit.Way(w, Seen(history[k]), m, c, o, host)
    {
      assert SomeMade(w, history[k], TargetDir(c), o);
    }
  }

  lemma KeptCommits(w: World, before: seq<Fs>, history: seq<Fs>, from: nat,
                    c: CertConfig, m: Material, o: Oracle, host: Host)
    requires Kept(w, before, from, c, m, o, host) && before <= history
    requires MakeDirs(w, TargetDir(c), o).ok && Plan(c, m, host).Success?
    requires AllPrefixes(MakeDirs(w, TargetDir(c), o).world, history, |before|, Plan(c, m, host).value)
    ensures Kept(w, history, from, c, m, o, host)
  {
    forall k | from <= k < |history|
      ensures WellFormed(history[k]) && Commit.Way(w, Seen(history[k]), m, c, o, host)
    {
      if k < |before| {
        assert before[k] == history[k];
      } else {
        assert SomePrefix(MakeDirs(w, TargetDir(c), o).world, history[k], Plan(c, m, host).value);
      }
    }
  }

  // Commits the files of the plan in the directory made for them.
  method CommitPlan(disk: Disk, m: Material, c: CertConfig, files: seq<SlotFile>, host: Host,
                    ghost w: World, ghost from: nat)
    returns (r: Result<Outcome, Error>)
    requires disk.Valid() && ValidCert(c, host) && Ordinary(disk.fs, c) && Plan(c, m, host) == Success(files)
    requires MakeDirs(w, TargetDir(c), disk.oracle) == Made(Seen(disk.fs), true)
    requires Kept(w, disk.history, from, c, m, disk.oracle, host)
    modifies disk
    ensures disk.Valid() && disk.fs.missed == old(disk.fs.missed)
    ensures Commit.Committed(Seen(disk.fs), Changed(r)) == Commit.CommitAll(old(Seen(disk.fs)), files, disk.oracle)
    ensures r.Success? ==> r.value.paths == PlannedPaths(files)
    ensures old(disk.history) <= disk.history
    ensures Kept(w, disk.history, from, c, m, disk.oracle, host)
  {
    ghost var before := disk.history;
    ValidPlan(c, m, host);
    PlanOrdinary(disk.fs, c, m, host);
    MadeOnly(w, TargetDir(c), disk.oracle);
    var changed, paths := CommitFiles(disk, TargetDir(c), files);
    KeptCommits(w, before, disk.history, from, c, m, disk.oracle, host);
    if changed.Failure? {
      return Failure(changed.error);
    }
    return Success(Outcome(changed.value, paths));
  }

  method WriteSplit(disk: Disk, m: Material, c: CertConfig, perms: Perms, host: Host)
    returns (r: Result<Outcome, Error>)
    requires disk.Valid() && ValidCert(c, host) && Ordinary(disk.fs, c)
    requires c.format == FORMAT_SPLIT && ResolvePerms(c, host) == Success(perms)
    modifies disk
    ensures disk.Valid() && disk.fs.missed == old(disk.fs.missed)
    ensures Commit.Committed(Seen(disk.fs), Changed(r)) == Commit.Write(old(Seen(disk.fs)), m, c, disk.oracle, host)
    ensures r.Success? ==> r.value.paths == PlannedPaths(Plan(c, m, host).value)
    ensures old(disk.history) <= disk.history
    ensures Kept(old(Seen(disk.fs)), disk.history, |old(disk.history)|, c, m, disk.oracle, host)
  {
    ghost var w, from := Seen(disk.fs), |disk.history|;
    var made := MkdirAll(disk, Place(c.destination));
    KeptMade(w, disk.history, from, c, m, disk.oracle, host);
    if !made {
      return Failure(Io);
    }
    var keyPerms := ResolveKeyPerms(c, perms, host);
    if keyPerms.Failure? {
      return Failure(keyPerms.error);
    }
    var files := SplitFiles(c.destination, c.files.value, m, perms, keyPerms.value);
    r := CommitPlan(disk, m, c, files, host, w, from);
  }

  method WriteCombined(disk: Disk, m: Material, c: CertConfig, perms: Perms, host: Host)
    returns (r: Result<Outcome, Error>)
    requires disk.Valid() && ValidCert(c, host) && Ordinary(disk.fs, c)
    requires c.format == FORMAT_COMBINED && ResolvePerms(c, host) == Success(perms)
    modifies disk
    ensures disk.Valid() && disk.fs.missed == old(disk.fs.missed)
    ensures Commit.Committed(Seen(disk.fs), Changed(r)) == Commit.Write(old(Seen(disk.fs)), m, c, disk.oracle, host)
    ensures r.Success? ==> r.value.paths == PlannedPaths(Plan(c, m, host).value)
    ensures old(disk.history) <= disk.history
    ensures Kept(old(Seen(disk.fs)), disk.history, |old(disk.history)|, c, m, disk.oracle, host)
  {
    ghost var w, from := Seen(disk.fs), |disk.history|;
    var made := MkdirAll(disk, Parent(Place(c.destination)));
    KeptMade(w, disk.history, from, c, m, disk.oracle, host);
    if !made {
      return Failure(Io);
    }
    var content := Bundle(c.bundleOrder, m);
    if content.Failure? {
      return Failure(content.error);
    }
    r := CommitPlan(disk, m, c, [SlotFile(Place(c.destination), content.value, perms)], host, w, from);
  }

  // The parts of a bundle, one after the other.
  method Bundle(order: string, m: Material) returns (r: Result<bytes, Error>)
    ensures r == if LayoutOf(order) == None then Failure(UnknownBundleOrder)
                 else Success(Concatenated(LayoutOf(order).value, m))
  {
    var parts := BundleParts(order, m);
    if parts.Failure? {
      return Failure(parts.error);
    }
    var content: bytes := [];
    ghost var layout := LayoutOf(order).value;
    for i := 0 to parts.value.Length
      invariant content == Concatenated(layout[..i], m)
    {
      assert layout[..i + 1][..i] == layout[..i];
      content := content + parts.value[i];
    }
    assert layout[..|layout|] == layout;
    return Success(content);
  }

  // Commits material to disk and re-enforces mode and owner.
  method Write(disk: Disk, m: Material, c: CertConfig, host: Host) returns (r: Result<Outcome, Error>)
    requires disk.Valid() && ValidCert(c, host) && Ordinary(disk.fs, c)
    modifies disk
    ensures disk.Valid() && disk.fs.missed == old(disk.fs.missed)
    ensures Commit.Committed(Seen(disk.fs), Changed(r)) == Commit.Write(old(Seen(disk.fs)), m, c, disk.oracle, host)
    ensures r.Success? ==> r.value.paths == PlannedPaths(Plan(c, m, host).value)
    ensures old(disk.history) <= disk.history
    ensures Kept(old(Seen(disk.fs)), disk.history, |old(disk.history)|, c, m, disk.oracle, host)
  {
    var perms := ResolvePerms(c, host);
    if perms.Failure? {
      return Failure(perms.error);
    }
    if c.format == FORMAT_SPLIT {
      r := WriteSplit(disk, m, c, perms.value, host);
    } else {
      r := WriteCombined(disk, m, c, perms.value, host);
    }
  }
}

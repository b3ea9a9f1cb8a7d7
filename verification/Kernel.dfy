// The file system at the level of system calls: names, inodes, temporary
// files, and a record of every state the disk passes through, so that a crash
// at any point is a state of that record.
module Kernel {
  import opened Bytes
  import opened Wrappers
  import opened Paths
  import opened World

  datatype Kind = Plain | Folder | Other

  datatype Inode = Inode(kind: Kind, data: bytes, perms: Perms)

  datatype Entry = Hard(ino: nat) | Soft(target: Path)

  // `next` is the number the next inode gets; `missed` are names, the
  // configured ones, that the random choice of a temporary name does not hit.
  datatype Fs = Fs(names: map<Path, Entry>, inodes: map<nat, Inode>, next: nat, missed: set<Path>)

  // Every name leads to an inode, no two names to the same one.
  ghost predicate WellFormed(f: Fs) {
    && (forall p <- f.names :: f.names[p].Hard? ==> f.names[p].ino in f.inodes)
    && (forall p <- f.names, q <- f.names ::
          f.names[p].Hard? && f.names[p] == f.names[q] ==> p == q)
    && (forall n <- f.inodes :: n < f.next)
  }

  const TEMP_PREFIX := ".vault-cert-agent-"

  // Named like a temporary file and not one of the names never chosen.
  predicate IsTemp(f: Fs, p: Path) {
    p.parts != [] && TEMP_PREFIX <= p.parts[|p.parts| - 1] && p !in f.missed
  }

  predicate IsTempIn(f: Fs, p: Path, dir: Path) {
    IsTemp(f, p) && Parent(p) == dir
  }

  // How an inode looks from above.
  function AsNode(i: Inode): Node {
    match i.kind
    case Plain => File(i.data, i.perms)
    case Folder => Dir
    case Other => Special
  }

  ghost function NodeAt(f: Fs, p: Path): Node
    requires p in f.names && (f.names[p].Hard? ==> f.names[p].ino in f.inodes)
  {
    match f.names[p]
    case Soft(target) => Link(target)
    case Hard(ino) => AsNode(f.inodes[ino])
  }

  // What readers see, temporary files aside.
  ghost function Seen(f: Fs): World
    requires WellFormed(f)
  {
    map p | p in f.names && !IsTemp(f, p) :: NodeAt(f, p)
  }

  // A directory, or a symbolic link taken to lead to one.
  predicate IsFolder(f: Fs, d: Path) {
    || d.parts == []
    || (d in f.names && (f.names[d].Soft? || (f.names[d].ino in f.inodes && f.inodes[f.names[d].ino].kind == Folder)))
  }

  // A directory itself.
  predicate HoldsFolder(f: Fs, p: Path) {
    p in f.names && f.names[p].Hard? && f.names[p].ino in f.inodes && f.inodes[f.names[p].ino].kind == Folder
  }

  // ----------------------------------------------------- state functions

  function SetInode(f: Fs, n: nat, i: Inode): Fs {
    f.(inodes := f.inodes[n := i])
  }

  function Linked(f: Fs, p: Path, i: Inode): Fs {
    f.(names := f.names[p := Hard(f.next)], inodes := f.inodes[f.next := i], next := f.next + 1)
  }

  function Unlinked(f: Fs, p: Path): Fs {
    f.(names := f.names - {p})
  }

  function Renamed(f: Fs, source: Path, target: Path): Fs
    requires source in f.names
  {
    f.(names := (f.names - {source})[target := f.names[source]])
  }

  // ------------------------------------------------------ a free temp name

  lemma {:induction false} LongestName(ps: set<Path>) returns (b: nat)
    ensures forall p <- ps :: p.parts != [] ==> |p.parts[|p.parts| - 1]| <= b
  {
    if ps == {} {
      b := 0;
    } else {
      var p :| p in ps;
      var c := LongestName(ps - {p});
      b := if p.parts != [] && |p.parts[|p.parts| - 1]| > c then |p.parts[|p.parts| - 1]| else c;
    }
  }

  lemma TempNameExists(ps: set<Path>, dir: Path)
    ensures exists suffix :: NoSlash(suffix) && Child(dir, TEMP_PREFIX + suffix) !in ps
  {
    var b := LongestName(ps);
    var suffix := seq(b + 1, i => '0');
    var p := Child(dir, TEMP_PREFIX + suffix);
    assert p.parts[|p.parts| - 1] == TEMP_PREFIX + suffix;
    assert NoSlash(suffix) && p !in ps;
  }

  class Disk {
    var fs: Fs
    ghost var history: seq<Fs>
    const oracle: Oracle

    ghost predicate Valid()
      reads this
    {
      && WellFormed(fs)
      && history != [] && history[|history| - 1] == fs
    }

    constructor (fs: Fs, oracle: Oracle)
      requires WellFormed(fs)
      ensures Valid() && this.fs == fs && this.oracle == oracle && history == [fs]
    {
      this.fs := fs;
      this.oracle := oracle;
      history := [fs];
    }

    // Opens for reading without following a link; a success pins the inode.
    method OpenNoFollow(p: Path, phase: Phase) returns (r: Result<nat, Error>)
      requires Valid()
      ensures r.Success? ==> r.value in fs.inodes
      ensures r ==
        if oracle.faults(p, Open(phase)) then Failure(Io)
        else if p.parts == [] then Failure(NotRegular)
        else if p !in fs.names then Failure(NotExist)
        else if fs.names[p].Soft? then Failure(NotRegular)
        else Success(fs.names[p].ino)
    {
      if oracle.faults(p, Open(phase)) {
        return Failure(Io);
      }
      if p.parts == [] {
        return Failure(NotRegular);
      }
      if p !in fs.names {
        return Failure(NotExist);
      }
      if fs.names[p].Soft? {
        return Failure(NotRegular);
      }
      return Success(fs.names[p].ino);
    }

    method StatRegular(ino: nat, p: Path, phase: Phase) returns (r: Result<Unit, Error>)
      requires ino in fs.inodes
      ensures r ==
        if oracle.faults(p, Stat(phase)) then Failure(Io)
        else if fs.inodes[ino].kind != Plain then Failure(NotRegular)
        else Success(Unit)
    {
      if oracle.faults(p, Stat(phase)) {
        return Failure(Io);
      }
      return if fs.inodes[ino].kind == Plain then Success(Unit) else Failure(NotRegular);
    }

    method ReadAll(ino: nat, p: Path, phase: Phase) returns (r: Result<bytes, Error>)
      requires ino in fs.inodes
      ensures r == if oracle.faults(p, Read(phase)) then Failure(Io) else Success(fs.inodes[ino].data)
    {
      return if oracle.faults(p, Read(phase)) then Failure(Io) else Success(fs.inodes[ino].data);
    }

    // Looks at what a place is, following links: nothing, a directory, or
    // something else.
    method IsDirAt(p: Path) returns (r: Option<bool>)
      requires Valid()
      ensures r == if p.parts != [] && p !in fs.names then None else Some(IsFolder(fs, p))
    {
      return if p.parts != [] && p !in fs.names then None else Some(IsFolder(fs, p));
    }

    method MakeDir(p: Path) returns (ok: bool)
      requires Valid() && p !in fs.names && IsFolder(fs, Parent(p))
      modifies this
      ensures Valid()
      ensures ok <==> !oracle.faults(p, Mkdir)
      ensures fs == if ok then Linked(old(fs), p, Inode(Folder, [], Perms(0x1ED, 0, 0))) else old(fs) // 0755 root:root
      ensures history == if ok then old(history) + [fs] else old(history)
    {
      if oracle.faults(p, Mkdir) {
        return false;
      }
      fs := Linked(fs, p, Inode(Folder, [], Perms(0x1ED, 0, 0)));
      history := history + [fs];
      return true;
    }

    // A new, empty, private file under a name nobody uses.
    method CreateTemp(dir: Path, p: Path) returns (r: Result<Path, Error>)
      requires Valid()
      modifies this
      ensures Valid()
      ensures oracle.faults(p, Create) || !IsFolder(old(fs), dir) ==>
        r == Failure(Io) && fs == old(fs) && history == old(history)
      ensures !oracle.faults(p, Create) && IsFolder(old(fs), dir) ==>
        && r.Success? && r.value !in old(fs).names && IsTempIn(old(fs), r.value, dir)
        && fs == Linked(old(fs), r.value, Inode(Plain, [], Perms(0x180, 0, 0))) // 0600 root:root
        && history == old(history) + [fs]
    {
      if oracle.faults(p, Create) || !IsFolder(fs, dir) {
        return Failure(Io);
      }
      TempNameExists(fs.names.Keys + fs.missed, dir);
      var suffix :| NoSlash(suffix) && Child(dir, TEMP_PREFIX + suffix) !in fs.names.Keys + fs.missed;
      var tmp := Child(dir, TEMP_PREFIX + suffix);
      assert tmp.parts[..|tmp.parts| - 1] == dir.parts;
      fs := Linked(fs, tmp, Inode(Plain, [], Perms(0x180, 0, 0)));
      history := history + [fs];
      return Success(tmp);
    }

    // The bytes reach the file piece by piece: a prefix is on disk first.
    method WriteAll(ino: nat, content: bytes, p: Path) returns (ok: bool)
      requires Valid() && ino in fs.inodes
      modifies this
      ensures Valid()
      ensures ok <==> !oracle.faults(p, Write)
      ensures var n := if oracle.partial(p) < |content| then oracle.partial(p) else |content|;
              var part := SetInode(old(fs), ino, old(fs).inodes[ino].(data := content[..n]));
              var full := SetInode(old(fs), ino, old(fs).inodes[ino].(data := content));
              && fs == (if ok then full else part)
              && history == (if ok then old(history) + [part] + [full] else old(history) + [part])
    {
      var n := if oracle.partial(p) < |content| then oracle.partial(p) else |content|;
      ghost var f0 := fs;
      fs := SetInode(fs, ino, fs.inodes[ino].(data := content[..n]));
      history := history + [fs];
      if oracle.faults(p, Write) {
        return false;
      }
      fs := SetInode(fs, ino, fs.inodes[ino].(data := content));
      assert fs.inodes == f0.inodes[ino := f0.inodes[ino].(data := content)];
      history := history + [fs];
      return true;
    }

    // Calls that can only succeed or fail: fsync and close.
    method Flush(p: Path, op: Op) returns (ok: bool)
      ensures ok <==> !oracle.faults(p, op)
    {
      return !oracle.faults(p, op);
    }

    method Fchmod(ino: nat, mode: nat, p: Path, phase: Phase) returns (ok: bool)
      requires Valid() && ino in fs.inodes
      modifies this
      ensures Valid()
      ensures ok <==> !oracle.faults(p, Chmod(phase))
      ensures var i := old(fs).inodes[ino];
              fs == if ok then SetInode(old(fs), ino, i.(perms := i.perms.(mode := mode))) else old(fs)
      ensures history == if ok then old(history) + [fs] else old(history)
    {
      if oracle.faults(p, Chmod(phase)) {
        return false;
      }
      fs := SetInode(fs, ino, fs.inodes[ino].(perms := fs.inodes[ino].perms.(mode := mode)));
      history := history + [fs];
      return true;
    }

    method Fchown(ino: nat, uid: nat, gid: nat, p: Path, phase: Phase) returns (ok: bool)
      requires Valid() && ino in fs.inodes
      modifies this
      ensures Valid()
      ensures ok <==> !oracle.faults(p, Chown(phase))
      ensures var i := old(fs).inodes[ino];
              fs == if ok then SetInode(old(fs), ino, i.(perms := i.perms.(uid := uid, gid := gid))) else old(fs)
      ensures history == if ok then old(history) + [fs] else old(history)
    {
      if oracle.faults(p, Chown(phase)) {
        return false;
      }
      fs := SetInode(fs, ino, fs.inodes[ino].(perms := fs.inodes[ino].perms.(uid := uid, gid := gid)));
      history := history + [fs];
      return true;
    }

    // Atomic replacement (POSIX.1-2017 System Interfaces, rename()); a
    // directory is not replaced by a file.
    method RenameOver(source: Path, target: Path) returns (ok: bool)
      requires Valid() && source in fs.names && fs.names[source].Hard? && source != target
      modifies this
      ensures Valid()
      ensures ok <==> !oracle.faults(target, Rename) && !HoldsFolder(old(fs), target)
      ensures fs == if ok then Renamed(old(fs), source, target) else old(fs)
      ensures history == if ok then old(history) + [fs] else old(history)
    {
      if oracle.faults(target, Rename) || HoldsFolder(fs, target) {
        return false;
      }
      fs := Renamed(fs, source, target);
      history := history + [fs];
      return true;
    }

    method RemoveName(p: Path, target: Path) returns (ok: bool)
      requires Valid()
      modifies this
      ensures Valid()
      ensures ok <==> !oracle.faults(target, Remove)
      ensures fs == if ok then Unlinked(old(fs), p) else old(fs)
      ensures history == if ok then old(history) + [fs] else old(history)
    {
      if oracle.faults(target, Remove) {
        return false;
      }
      fs := Unlinked(fs, p);
      history := history + [fs];
      return true;
    }
  }
}

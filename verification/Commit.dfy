// Committing a list of files, seen from the outside: what each commit leaves
// behind, under any faults.
module Commit {
  import opened Bytes
  import opened Wrappers
  import opened Hosts
  import opened Paths
  import opened Config
  import opened World
  import opened Sources
  import opened Layout

  // The world afterwards and whether content changed.
  datatype Committed = Committed(world: World, result: Result<bool, Error>)

  // Re-applies mode and owner to an existing regular file.
  function EnforcePerms(w: World, p: Path, perms: Perms, o: Oracle): Committed {
    match OpenRegular(w, p, Enforce, o)
    case Failure(e) => Committed(w, Failure(e))
    case Success(node) =>
      if !node.File? then Committed(w, Failure(NotRegular))
      else if o.faults(p, Chmod(Enforce)) then Committed(w, Failure(Io))
      else if o.faults(p, Chown(Enforce)) then
        Committed(w[p := File(node.data, node.perms.(mode := perms.mode))], Failure(Io))
      else Committed(w[p := File(node.data, perms)], Success(false))
  }

  predicate WriteFaulty(o: Oracle, p: Path) {
    || o.faults(p, Create) || o.faults(p, Op.Write) || o.faults(p, Sync)
    || o.faults(p, Chmod(Temp)) || o.faults(p, Chown(Temp)) || o.faults(p, Close) || o.faults(p, Rename)
  }

  // All or nothing.
  function AtomicWrite(w: World, p: Path, content: bytes, perms: Perms, o: Oracle): Committed {
    if WriteFaulty(o, p) then Committed(w, Failure(Io))
    else Committed(w[p := File(content, perms)], Success(true))
  }

  function CommitFile(w: World, f: SlotFile, o: Oracle): Committed {
    match ReadRegular(w, f.path, Existing, o)
    case Failure(e) =>
      if e == NotExist then AtomicWrite(w, f.path, f.content, f.perms, o) else Committed(w, Failure(e))
    case Success(existing) =>
      if existing == f.content then EnforcePerms(w, f.path, f.perms, o)
      else AtomicWrite(w, f.path, f.content, f.perms, o)
  }

  // One file after the other, stopping at the first error.
  function CommitAll(w: World, files: seq<SlotFile>, o: Oracle): Committed
    decreases |files|
  {
    if files == [] then Committed(w, Success(false))
    else
      var c := CommitFile(w, files[0], o);
      if c.result.Failure? then c
      else
        var rest := CommitAll(c.world, files[1..], o);
        if rest.result.Failure? then rest
        else Committed(rest.world, Success(c.result.value || rest.result.value))
  }

  // Makes the directory, then commits file by file.
  function Write(w: World, m: Material, c: CertConfig, o: Oracle, host: Host): Committed {
    match ResolvePerms(c, host)
    case Failure(e) => Committed(w, Failure(e))
    case Success(_) =>
      if c.format != FORMAT_SPLIT && c.format != FORMAT_COMBINED then Committed(w, Failure(UnknownFormat))
      else
        var made := MakeDirs(w, TargetDir(c), o);
        if !made.ok then Committed(made.world, Failure(Io))
        else
          match Plan(c, m, host)
          case Failure(e) => Committed(made.world, Failure(e))
          case Success(files) => CommitAll(made.world, files, o)
  }

  // ------------------------------------------------- one file, any faults

  // What may stand at a slot at any moment of its commit: what was there, the
  // complete new file, or the old content under partly updated permissions.
  ghost predicate SlotState(before: World, after: World, f: SlotFile) {
    || SameAt(before, after, f.path)
    || Holds(after, f.path, f.content, f.perms)
    || (&& f.path in before && before[f.path].File? && before[f.path].data == f.content
        && Holds(after, f.path, f.content, before[f.path].perms.(mode := f.perms.mode)))
  }

  lemma CommitFileEffect(w: World, f: SlotFile, o: Oracle)
    ensures var c := CommitFile(w, f, o);
      && OnlyAt(w, c.world, {f.path})
      && SlotState(w, c.world, f)
      && (c.result.Success? ==>
            && Holds(c.world, f.path, f.content, f.perms)
            && (c.result.value <==> f.path !in w || (w[f.path].File? && w[f.path].data != f.content))
            && (f.path in w ==> w[f.path].File?))
  {
  }

  // A commit depends on nothing but its own path.
  lemma CommitFileLocal(v: World, w: World, f: SlotFile, o: Oracle)
    requires SameAt(v, w, f.path)
    ensures CommitFile(v, f, o).result == CommitFile(w, f, o).result
    ensures SameAt(CommitFile(v, f, o).world, CommitFile(w, f, o).world, f.path)
  {
  }

  // ------------------------------------------------------- the whole list

  function PathsOf(files: seq<SlotFile>): set<Path> {
    set i | 0 <= i < |files| :: files[i].path
  }

  lemma PathsOfTail(files: seq<SlotFile>)
    requires files != []
    ensures PathsOf(files) == {files[0].path} + PathsOf(files[1..])
  {
    assert forall i :: 1 <= i < |files| ==> files[i] == files[1..][i - 1];
  }

  lemma {:induction false} CommitAllFrame(w: World, files: seq<SlotFile>, o: Oracle)
    ensures OnlyAt(w, CommitAll(w, files, o).world, PathsOf(files))
    decreases |files|
  {
    if files == [] {
    } else {
      PathsOfTail(files);
      CommitFileEffect(w, files[0], o);
      var c := CommitFile(w, files[0], o);
      if c.result.Success? {
        CommitAllFrame(c.world, files[1..], o);
      }
    }
  }

  // Nothing is ever put in the place of the root.
  lemma {:induction false} CommitAllRoot(w: World, files: seq<SlotFile>, o: Oracle)
    ensures forall p: Path :: p.parts == [] ==> SameAt(w, CommitAll(w, files, o).world, p)
    decreases |files|
  {
    if files == [] {
    } else {
      var c := CommitFile(w, files[0], o);
      CommitFileEffect(w, files[0], o);
      CommitAllRoot(c.world, files[1..], o);
    }
  }

  lemma TailApart(files: seq<SlotFile>)
    requires files != [] && DistinctPaths(files)
    ensures files[0].path !in PathsOf(files[1..])
  {
  }

  ghost predicate AllHeld(w: World, files: seq<SlotFile>) {
    forall i :: 0 <= i < |files| ==> Holds(w, files[i].path, files[i].content, files[i].perms)
  }

  ghost predicate Stale(w: World, f: SlotFile) {
    f.path !in w || (w[f.path].File? && w[f.path].data != f.content)
  }

  // On success every file is in place with its permissions, and `changed` is
  // exactly "some file was absent or had other bytes".
  lemma {:induction false} CommitAllSucceeds(w: World, files: seq<SlotFile>, o: Oracle)
    requires DistinctPaths(files)
    requires CommitAll(w, files, o).result.Success?
    ensures AllHeld(CommitAll(w, files, o).world, files)
    ensures CommitAll(w, files, o).result.value <==> exists i :: 0 <= i < |files| && Stale(w, files[i])
    decreases |files|
  {
    if files == [] {
    } else {
      var c, rest := CommitFile(w, files[0], o), files[1..];
      CommitFileEffect(w, files[0], o);
      CommitAllSucceeds(c.world, rest, o);
      CommitAllFrame(c.world, rest, o);
      TailApart(files);
      var last := CommitAll(c.world, rest, o).world;
      assert Holds(last, files[0].path, files[0].content, files[0].perms);
      assert forall i :: 1 <= i < |files| ==> files[i] == rest[i - 1];
      forall i | 1 <= i < |files|
        ensures Stale(w, files[i]) <==> Stale(c.world, rest[i - 1])
      {
        assert files[i].path != files[0].path;
      }
      if exists i :: 0 <= i < |rest| && Stale(c.world, rest[i]) {
        var i :| 0 <= i < |rest| && Stale(c.world, rest[i]);
        assert Stale(w, files[i + 1]);
      }
    }
  }

  // At any moment: the first `i` files are complete, file `i` is in one of its
  // commit states, every later file and everything else is as before.
  ghost predicate PrefixState(w: World, s: World, files: seq<SlotFile>, i: nat) {
    && i <= |files|
    && (forall j :: 0 <= j < i ==> Holds(s, files[j].path, files[j].content, files[j].perms))
    && (i < |files| ==> SlotState(w, s, files[i]))
    && (forall j :: i < j < |files| ==> SameAt(w, s, files[j].path))
    && OnlyAt(w, s, PathsOf(files))
  }

  // However the list of commits ends, it ends in a prefix state.
  lemma {:induction false} CommitAllPrefix(w: World, files: seq<SlotFile>, o: Oracle) returns (i: nat)
    requires DistinctPaths(files)
    ensures PrefixState(w, CommitAll(w, files, o).world, files, i)
    ensures CommitAll(w, files, o).result.Success? ==> i == |files|
    decreases |files|
  {
    i := 0;
    if files == [] {
    } else {
      CommitFileEffect(w, files[0], o);
      var c := CommitFile(w, files[0], o);
      PathsOfTail(files);
      TailApart(files);
      if c.result.Success? {
        var k := CommitAllPrefix(c.world, files[1..], o);
        i := k + 1;
        PrefixExtend(w, c.world, CommitAll(c.world, files[1..], o).world, files, k);
      } else {
        HeadPrefix(w, c.world, files);
      }
    }
  }

  lemma HeadPrefix(w: World, s: World, files: seq<SlotFile>)
    requires files != [] && DistinctPaths(files)
    requires OnlyAt(w, s, {files[0].path}) && SlotState(w, s, files[0])
    ensures PrefixState(w, s, files, 0)
  {
    assert forall j :: 0 < j < |files| ==> files[j].path != files[0].path;
    assert files[0].path in PathsOf(files);
  }

  // A prefix state of the tail is a prefix state of the list once the head is
  // in place.
  lemma PrefixExtend(w: World, mid: World, s: World, files: seq<SlotFile>, k: nat)
    requires files != [] && DistinctPaths(files)
    requires OnlyAt(w, mid, {files[0].path})
    requires Holds(mid, files[0].path, files[0].content, files[0].perms)
    requires PrefixState(mid, s, files[1..], k)
    ensures PrefixState(w, s, files, k + 1)
  {
    PathsOfTail(files);
    TailApart(files);
    var rest := files[1..];
    assert forall j :: 1 <= j < |files| ==> files[j] == rest[j - 1] && files[j].path != files[0].path;
    assert SameAt(mid, s, files[0].path);
    forall j | 0 <= j < k + 1
      ensures Holds(s, files[j].path, files[j].content, files[j].perms)
    {
      if j > 0 {
        assert Holds(s, rest[j - 1].path, rest[j - 1].content, rest[j - 1].perms);
      }
    }
    if k + 1 < |files| {
      assert SlotState(mid, s, rest[k]);
      assert SameAt(w, mid, files[k + 1].path);
    }
    forall j | k + 1 < j < |files|
      ensures SameAt(w, s, files[j].path)
    {
      assert SameAt(mid, s, rest[j - 1].path) && SameAt(w, mid, files[j].path);
    }
  }

  // At any moment a planned path holds its old node or its new bytes.
  lemma OldOrNew(w: World, s: World, files: seq<SlotFile>, i: nat, p: Path, content: bytes)
    requires PrefixState(w, s, files, i) && InPlan(files, p, content)
    ensures SameAt(w, s, p) || (p in s && s[p].File? && s[p].data == content)
  {
    var j :| 0 <= j < |files| && files[j].path == p && files[j].content == content;
    if j < i {
      assert Holds(s, files[j].path, files[j].content, files[j].perms);
    } else if j > i {
      assert SameAt(w, s, files[j].path);
    } else {
      assert SlotState(w, s, files[i]);
    }
  }

  // A symbolic link, or anything else that is not a regular file, at one of
  // the paths makes the whole commit fail and stays as it is.
  lemma {:induction false} NonRegularRefused(w: World, files: seq<SlotFile>, o: Oracle, i: nat)
    requires DistinctPaths(files) && i < |files|
    requires files[i].path in w && !w[files[i].path].File?
    ensures CommitAll(w, files, o).result.Failure?
    ensures SameAt(w, CommitAll(w, files, o).world, files[i].path)
    decreases |files|
  {
    CommitFileEffect(w, files[0], o);
    if i == 0 {
    } else {
      var c := CommitFile(w, files[0], o);
      assert files[i].path != files[0].path && files[1..][i - 1] == files[i];
      if c.result.Success? {
        NonRegularRefused(c.world, files[1..], o, i - 1);
      }
    }
  }

  // A second pass over files already in place finds nothing to change and
  // leaves the world as it is.
  lemma {:induction false} CommitAllIdempotent(w: World, files: seq<SlotFile>, o: Oracle)
    requires AllHeld(w, files)
    requires forall i :: 0 <= i < |files| ==> NoFaults(o, files[i].path)
    ensures CommitAll(w, files, o) == Committed(w, Success(false))
  {
    if files == [] {
    } else {
      var f := files[0];
      assert Holds(w, f.path, f.content, f.perms);
      assert w[f.path := File(f.content, f.perms)] == w;
      assert CommitFile(w, f, o) == Committed(w, Success(false));
      assert forall i :: 0 <= i < |files[1..]| ==> files[1..][i] == files[i + 1];
      CommitAllIdempotent(w, files[1..], o);
    }
  }

  // A regular file or nothing; the root is neither.
  predicate Regular(w: World, p: Path) {
    p.parts != [] && (p in w ==> w[p].File?)
  }

  // Without faults and with nothing but regular files in the way, it succeeds.
  lemma {:induction false} CommitAllUnhindered(w: World, files: seq<SlotFile>, o: Oracle)
    requires forall i :: 0 <= i < |files| ==> NoFaults(o, files[i].path)
    requires forall i :: 0 <= i < |files| ==> Regular(w, files[i].path)
    ensures CommitAll(w, files, o).result.Success?
    decreases |files|
  {
    if files == [] {
    } else {
      var c := CommitFile(w, files[0], o);
      assert NoFaults(o, files[0].path);
      assert c.result.Success?;
      CommitFileEffect(w, files[0], o);
      forall i | 0 <= i < |files[1..]|
        ensures NoFaults(o, files[1..][i].path) && Regular(c.world, files[1..][i].path)
      {
        assert files[1..][i] == files[i + 1];
      }
      CommitAllUnhindered(c.world, files[1..], o);
    }
  }

  // The list depends on nothing but its own paths.
  lemma {:induction false} CommitAllLocal(v: World, w: World, files: seq<SlotFile>, o: Oracle, ps: set<Path>)
    requires PathsOf(files) <= ps && Agree(v, w, ps)
    ensures CommitAll(v, files, o).result == CommitAll(w, files, o).result
    ensures Agree(CommitAll(v, files, o).world, CommitAll(w, files, o).world, ps)
    decreases |files|
  {
    if files == [] {
    } else {
      PathsOfTail(files);
      assert SameAt(v, w, files[0].path);
      CommitFileLocal(v, w, files[0], o);
      CommitFileEffect(v, files[0], o);
      CommitFileEffect(w, files[0], o);
      var c, d := CommitFile(v, files[0], o), CommitFile(w, files[0], o);
      assert Agree(c.world, d.world, ps);
      if c.result.Success? {
        CommitAllLocal(c.world, d.world, files[1..], o, ps);
      }
    }
  }

  // ------------------------------------------- whole or mixed, exactly when

  function DataAt(w: World, p: Path): Option<bytes> {
    if p.parts != [] && p in w && w[p].File? then Some(w[p].data) else None
  }

  // The file does not hold its content yet.
  predicate NeedsWrite(w: World, f: SlotFile) {
    DataAt(w, f.path) != Some(f.content)
  }

  predicate EnforceFaulty(o: Oracle, p: Path) {
    || o.faults(p, Open(Enforce)) || o.faults(p, Stat(Enforce))
    || o.faults(p, Chmod(Enforce)) || o.faults(p, Chown(Enforce))
  }

  // What makes a commit fail: something other than a regular file in the way,
  // or a failing call among those it needs.
  predicate Blocked(w: World, f: SlotFile, o: Oracle) {
    || o.faults(f.path, Open(Existing)) || f.path.parts == []
    || (f.path !in w && WriteFaulty(o, f.path))
    || (&& f.path in w
        && (|| !w[f.path].File? || o.faults(f.path, Stat(Existing)) || o.faults(f.path, Read(Existing))
            || (if w[f.path].data == f.content then EnforceFaulty(o, f.path) else WriteFaulty(o, f.path))))
  }

  // The first file whose commit is blocked; the number of files if none is.
  function FirstBlocked(w: World, files: seq<SlotFile>, o: Oracle): (n: nat)
    ensures n <= |files|
    ensures forall i :: 0 <= i < n ==> !Blocked(w, files[i], o)
    ensures n < |files| ==> Blocked(w, files[n], o)
  {
    if files == [] || Blocked(w, files[0], o) then 0 else 1 + FirstBlocked(w, files[1..], o)
  }

  lemma CommitFileBlocked(w: World, f: SlotFile, o: Oracle)
    ensures var c := CommitFile(w, f, o);
      && (c.result.Failure? <==> Blocked(w, f, o))
      && DataAt(c.world, f.path) == if Blocked(w, f, o) then DataAt(w, f.path) else Some(f.content)
  {
  }

  // The first n files hold their new bytes, the others what they held before.
  ghost predicate CutAt(w: World, s: World, files: seq<SlotFile>, n: nat) {
    && n <= |files|
    && (forall j :: 0 <= j < n ==> DataAt(s, files[j].path) == Some(files[j].content))
    && (forall j :: n <= j < |files| ==> DataAt(s, files[j].path) == DataAt(w, files[j].path))
  }

  lemma {:induction false} FirstBlockedLocal(v: World, w: World, files: seq<SlotFile>, o: Oracle)
    requires forall i :: 0 <= i < |files| ==> SameAt(v, w, files[i].path)
    ensures FirstBlocked(v, files, o) == FirstBlocked(w, files, o)
  {
    if files == [] {
    } else {
      assert SameAt(v, w, files[0].path);
      assert Blocked(v, files[0], o) == Blocked(w, files[0], o);
      assert forall i :: 0 <= i < |files[1..]| ==> files[1..][i] == files[i + 1];
      FirstBlockedLocal(v, w, files[1..], o);
    }
  }

  lemma CutExtend(w: World, mid: World, s: World, files: seq<SlotFile>, n: nat)
    requires files != [] && DistinctPaths(files)
    requires OnlyAt(w, mid, {files[0].path}) && DataAt(mid, files[0].path) == Some(files[0].content)
    requires OnlyAt(mid, s, PathsOf(files[1..])) && CutAt(mid, s, files[1..], n)
    ensures CutAt(w, s, files, n + 1)
  {
    var rest := files[1..];
    TailApart(files);
    assert forall j :: 1 <= j < |files| ==> files[j] == rest[j - 1] && files[j].path != files[0].path;
    forall j | 0 <= j < n + 1
      ensures DataAt(s, files[j].path) == Some(files[j].content)
    {
      if j > 0 {
        assert DataAt(s, rest[j - 1].path) == Some(rest[j - 1].content);
      }
    }
    forall j | n + 1 <= j < |files|
      ensures DataAt(s, files[j].path) == DataAt(w, files[j].path)
    {
      assert DataAt(s, rest[j - 1].path) == DataAt(mid, rest[j - 1].path);
      assert SameAt(w, mid, files[j].path);
    }
  }

  lemma HeadApart(w: World, s: World, files: seq<SlotFile>)
    requires files != [] && DistinctPaths(files) && OnlyAt(w, s, {files[0].path})
    ensures forall j :: 1 <= j < |files| ==> SameAt(w, s, files[j].path)
    ensures forall j :: 0 <= j < |files[1..]| ==> SameAt(w, s, files[1..][j].path)
  {
    assert forall j :: 1 <= j < |files| ==> files[j].path != files[0].path;
    assert forall j :: 0 <= j < |files[1..]| ==> files[1..][j] == files[j + 1];
  }

  lemma HeadBlockedCut(w: World, files: seq<SlotFile>, o: Oracle)
    requires files != [] && DistinctPaths(files) && Blocked(w, files[0], o)
    ensures CommitAll(w, files, o) == CommitFile(w, files[0], o)
    ensures CommitFile(w, files[0], o).result.Failure?
    ensures CutAt(w, CommitFile(w, files[0], o).world, files, 0)
  {
    var c := CommitFile(w, files[0], o);
    CommitFileEffect(w, files[0], o);
    CommitFileBlocked(w, files[0], o);
    HeadApart(w, c.world, files);
    assert forall j :: 1 <= j < |files| ==> SameAt(w, c.world, files[j].path);
  }

  // The commits stop at the first blocked file, told from the state before.
  lemma {:induction false} CommitAllCut(w: World, files: seq<SlotFile>, o: Oracle)
    requires DistinctPaths(files)
    ensures CommitAll(w, files, o).result.Success? <==> FirstBlocked(w, files, o) == |files|
    ensures CutAt(w, CommitAll(w, files, o).world, files, FirstBlocked(w, files, o))
    decreases |files|
  {
    if files == [] {
    } else if Blocked(w, files[0], o) {
      HeadBlockedCut(w, files, o);
    } else {
      var mid, rest := CommitFile(w, files[0], o).world, files[1..];
      CommitFileEffect(w, files[0], o);
      CommitFileBlocked(w, files[0], o);
      HeadApart(w, mid, files);
      CommitAllCut(mid, rest, o);
      CommitAllFrame(mid, rest, o);
      FirstBlockedLocal(w, mid, rest, o);
      var last := CommitAll(mid, rest, o).world;
      CutExtend(w, mid, last, files, FirstBlocked(mid, rest, o));
      assert CommitAll(w, files, o).world == last;
    }
  }

  // A process killed on the way leaves a cut as well.
  lemma PrefixCut(w: World, s: World, files: seq<SlotFile>, i: nat) returns (n: nat)
    requires PrefixState(w, s, files, i)
    ensures n <= i + 1 && CutAt(w, s, files, n)
  {
    n := if i < |files| && Holds(s, files[i].path, files[i].content, files[i].perms) then i + 1 else i;
    forall j | 0 <= j < n
      ensures DataAt(s, files[j].path) == Some(files[j].content)
    {
      if j < i {
        assert Holds(s, files[j].path, files[j].content, files[j].perms);
      }
    }
    forall j | n <= j < |files|
      ensures DataAt(s, files[j].path) == DataAt(w, files[j].path)
    {
      if i < j {
        assert SameAt(w, s, files[j].path);
      }
    }
  }

  ghost predicate AllNew(s: World, files: seq<SlotFile>) {
    forall i :: 0 <= i < |files| ==> DataAt(s, files[i].path) == Some(files[i].content)
  }

  ghost predicate AllOld(w: World, s: World, files: seq<SlotFile>) {
    forall i :: 0 <= i < |files| ==> DataAt(s, files[i].path) == DataAt(w, files[i].path)
  }

  ghost predicate Whole(w: World, s: World, files: seq<SlotFile>) {
    AllNew(s, files) || AllOld(w, s, files)
  }

  ghost predicate NoneNeedsWrite(w: World, files: seq<SlotFile>, from: nat, to: nat)
    requires from <= to <= |files|
  {
    forall i :: from <= i < to ==> !NeedsWrite(w, files[i])
  }

  // A cut is whole exactly when there was nothing to write before it or
  // nothing after it.
  lemma CutWhole(w: World, s: World, files: seq<SlotFile>, n: nat)
    requires CutAt(w, s, files, n)
    ensures AllOld(w, s, files) <==> NoneNeedsWrite(w, files, 0, n)
    ensures AllNew(s, files) <==> NoneNeedsWrite(w, files, n, |files|)
  {
    if AllOld(w, s, files) {
      forall i | 0 <= i < n
        ensures !NeedsWrite(w, files[i])
      {
        assert DataAt(s, files[i].path) == DataAt(w, files[i].path);
      }
    }
    if AllNew(s, files) {
      forall i | n <= i < |files|
        ensures !NeedsWrite(w, files[i])
      {
        assert DataAt(s, files[i].path) == Some(files[i].content);
      }
    }
  }

  // However a write ends, the certificate's files are of one material, the old
  // or the new, if and only if no file before the first blocked one needed
  // writing or none from there on did.
  lemma WriteWhole(w: World, m: Material, c: CertConfig, o: Oracle, host: Host)
    requires ValidCert(c, host) && Plan(c, m, host).Success? && MakeDirs(w, TargetDir(c), o).ok
    ensures var files, s := Plan(c, m, host).value, Write(w, m, c, o, host).world;
            var n := FirstBlocked(w, files, o);
      && (Write(w, m, c, o, host).result.Success? <==> n == |files|)
      && (Whole(w, s, files) <==> NoneNeedsWrite(w, files, 0, n) || NoneNeedsWrite(w, files, n, |files|))
  {
    var files, s := Plan(c, m, host).value, Write(w, m, c, o, host).world;
    WriteCut(w, m, c, o, host);
    CutWhole(w, s, files, FirstBlocked(w, files, o));
  }

  // A write whose directory can be made cuts the list at the first blocked
  // file.
  lemma WriteCut(w: World, m: Material, c: CertConfig, o: Oracle, host: Host)
    requires ValidCert(c, host) && Plan(c, m, host).Success? && MakeDirs(w, TargetDir(c), o).ok
    ensures var files, r := Plan(c, m, host).value, Write(w, m, c, o, host);
      && (r.result.Success? <==> FirstBlocked(w, files, o) == |files|)
      && CutAt(w, r.world, files, FirstBlocked(w, files, o))
  {
    var files, mid := Plan(c, m, host).value, MakeDirs(w, TargetDir(c), o).world;
    ValidPlan(c, m, host);
    PlanPaths(c, m, host);
    MadeAside(w, c, o, host);
    forall i | 0 <= i < |files|
      ensures SameAt(w, mid, files[i].path)
    {
      assert files[i].path in PathsOf(files);
    }
    CommitAllCut(mid, files, o);
    FirstBlockedLocal(w, mid, files, o);
    CutFrom(w, mid, CommitAll(mid, files, o).world, files, FirstBlocked(w, files, o));
  }

  lemma CutFrom(w: World, mid: World, s: World, files: seq<SlotFile>, n: nat)
    requires CutAt(mid, s, files, n) && forall i :: 0 <= i < |files| ==> SameAt(w, mid, files[i].path)
    ensures CutAt(w, s, files, n)
  {
    forall j | n <= j < |files|
      ensures DataAt(s, files[j].path) == DataAt(w, files[j].path)
    {
      assert SameAt(w, mid, files[j].path);
    }
  }

  ghost predicate MayMix(w: World, files: seq<SlotFile>) {
    exists s, i :: PrefixState(w, s, files, i) && !Whole(w, s, files)
  }

  ghost predicate TwoNeedWrite(w: World, files: seq<SlotFile>) {
    exists i, k :: 0 <= i < k < |files| && NeedsWrite(w, files[i]) && NeedsWrite(w, files[k])
  }

  lemma {:induction false} DistinctPrefix(files: seq<SlotFile>, n: nat)
    requires DistinctPaths(files) && n <= |files|
    ensures DistinctPaths(files[..n])
  {
    if n == 0 {
    } else {
      DistinctPrefix(files[1..], n - 1);
      assert files[..n][1..] == files[1..][..n - 1];
    }
  }

  lemma CommittedPrefix(w: World, files: seq<SlotFile>, n: nat) returns (s: World)
    requires DistinctPaths(files) && n <= |files|
    requires forall i :: 0 <= i < |files| ==> Regular(w, files[i].path)
    ensures AllHeld(s, files[..n]) && OnlyAt(w, s, PathsOf(files[..n]))
  {
    var done := files[..n];
    var o := Oracle((_, _) => false, _ => 0);
    DistinctPrefix(files, n);
    assert forall i :: 0 <= i < |done| ==> done[i] == files[i];
    CommitAllUnhindered(w, done, o);
    CommitAllSucceeds(w, done, o);
    CommitAllFrame(w, done, o);
    s := CommitAll(w, done, o).world;
  }

  // Over regular files a process killed after n commits leaves a cut at n.
  lemma CutReached(w: World, files: seq<SlotFile>, n: nat) returns (s: World)
    requires DistinctPaths(files) && n <= |files|
    requires forall i :: 0 <= i < |files| ==> Regular(w, files[i].path)
    ensures PrefixState(w, s, files, n) && CutAt(w, s, files, n)
  {
    s := CommittedPrefix(w, files, n);
    forall j | 0 <= j < n
      ensures Holds(s, files[j].path, files[j].content, files[j].perms)
    {
      assert files[..n][j] == files[j];
    }
    forall j | n <= j < |files|
      ensures SameAt(w, s, files[j].path)
    {
      PrefixApart(files, n, j);
    }
    assert PathsOf(files[..n]) <= PathsOf(files);
  }

  lemma {:induction false} PrefixApart(files: seq<SlotFile>, n: nat, j: nat)
    requires DistinctPaths(files) && n <= j < |files|
    ensures files[j].path !in PathsOf(files[..n])
  {
    if n == 0 {
    } else {
      PrefixApart(files[1..], n - 1, j - 1);
      assert files[..n][1..] == files[1..][..n - 1];
      PathsOfTail(files[..n]);
    }
  }

  // Being killed can leave files of two materials if and only if two files
  // need writing.
  lemma DeathMayMix(w: World, files: seq<SlotFile>)
    requires DistinctPaths(files)
    requires forall i :: 0 <= i < |files| ==> Regular(w, files[i].path)
    ensures MayMix(w, files) <==> TwoNeedWrite(w, files)
  {
    if MayMix(w, files) {
      var s, i :| PrefixState(w, s, files, i) && !Whole(w, s, files);
      var n := PrefixCut(w, s, files, i);
      CutWhole(w, s, files, n);
      var a :| 0 <= a < n && NeedsWrite(w, files[a]);
      var b :| n <= b < |files| && NeedsWrite(w, files[b]);
      assert a < b;
    }
    if TwoNeedWrite(w, files) {
      var a, b :| 0 <= a < b < |files| && NeedsWrite(w, files[a]) && NeedsWrite(w, files[b]);
      var s := CutReached(w, files, b);
      CutWhole(w, s, files, b);
      assert PrefixState(w, s, files, b) && !Whole(w, s, files);
    }
  }

  // ------------------------------------------------------------- `Write`

  // What stands on disk at any moment of a write: some of the directories have
  // been made, or all of them and a prefix of the list is committed.
  ghost predicate Way(w: World, s: World, m: Material, c: CertConfig, o: Oracle, host: Host) {
    var d := TargetDir(c);
    || (exists a :: Leads(a, d) && s == MakeDirs(w, a, o).world)
    || (&& MakeDirs(w, d, o).ok && Plan(c, m, host).Success?
        && exists i :: PrefixState(MakeDirs(w, d, o).world, s, Plan(c, m, host).value, i))
  }

  lemma PlanPaths(c: CertConfig, m: Material, host: Host)
    requires Plan(c, m, host).Success?
    ensures PathsOf(Plan(c, m, host).value) <= CertPaths(c)
  {
    PlanWithin(c, m, host);
  }

  // Making the directory leaves the certificate's own files alone.
  lemma MadeAside(w: World, c: CertConfig, o: Oracle, host: Host)
    requires ValidCert(c, host)
    ensures Agree(w, MakeDirs(w, TargetDir(c), o).world, CertPaths(c))
  {
    ValidBelow(c, host);
    MadeOnly(w, TargetDir(c), o);
  }

  // Wherever a write is stopped, it leaves a cut.
  lemma WayCut(w: World, s: World, m: Material, c: CertConfig, o: Oracle, host: Host) returns (n: nat)
    requires ValidCert(c, host) && Plan(c, m, host).Success? && Way(w, s, m, c, o, host)
    ensures CutAt(w, s, Plan(c, m, host).value, n)
  {
    var files, d := Plan(c, m, host).value, TargetDir(c);
    PlanPaths(c, m, host);
    if a :| Leads(a, d) && s == MakeDirs(w, a, o).world {
      n := 0;
      MadePartAside(w, c, a, o, host);
      CutFrom(w, s, s, files, 0);
    } else {
      var mid := MakeDirs(w, d, o).world;
      var i :| PrefixState(mid, s, files, i);
      n := PrefixCut(mid, s, files, i);
      MadeAside(w, c, o, host);
      forall j | 0 <= j < |files|
        ensures SameAt(w, mid, files[j].path)
      {
        assert files[j].path in PathsOf(files);
      }
      CutFrom(w, mid, s, files, n);
    }
  }

  lemma MadePartAside(w: World, c: CertConfig, a: Path, o: Oracle, host: Host)
    requires ValidCert(c, host) && Leads(a, TargetDir(c))
    ensures Agree(w, MakeDirs(w, a, o).world, CertPaths(c))
  {
    ValidBelow(c, host);
    MadeOnly(w, a, o);
    forall p | p in CertPaths(c)
      ensures SameAt(w, MakeDirs(w, a, o).world, p)
    {
      if Leads(p, a) {
        LeadsTrans(p, a, TargetDir(c));
      }
    }
  }

  // Nothing changes but the certificate's own files, and directories appear
  // above them where nothing was.
  ghost predicate OnlyOwn(w: World, s: World, c: CertConfig, o: Oracle) {
    forall p ::
      || SameAt(w, s, p)
      || (p in CertPaths(c) && p.parts != [])
      || (Leads(p, TargetDir(c)) && NewDir(w, s, p, o))
  }

  lemma OwnCommits(w: World, s: World, c: CertConfig, o: Oracle, ps: set<Path>)
    requires ps <= CertPaths(c) && OnlyAt(MakeDirs(w, TargetDir(c), o).world, s, ps)
    requires forall p <- ps :: p.parts == [] ==> SameAt(MakeDirs(w, TargetDir(c), o).world, s, p)
    ensures OnlyOwn(w, s, c, o)
  {
    var mid := MakeDirs(w, TargetDir(c), o).world;
    MadeOnly(w, TargetDir(c), o);
    forall p | !(p in CertPaths(c) && p.parts != [])
      ensures SameAt(w, s, p) || (Leads(p, TargetDir(c)) && NewDir(w, s, p, o))
    {
      assert SameAt(mid, s, p);
      assert SameAt(w, mid, p) || (Leads(p, TargetDir(c)) && NewDir(w, mid, p, o));
    }
  }

  // So does every state on the way.
  lemma WayFrame(w: World, s: World, m: Material, c: CertConfig, o: Oracle, host: Host)
    requires ValidCert(c, host) && Way(w, s, m, c, o, host)
    ensures OnlyOwn(w, s, c, o)
  {
    var d := TargetDir(c);
    if a :| Leads(a, d) && s == MakeDirs(w, a, o).world {
      MadeOnly(w, a, o);
      forall p
        ensures SameAt(w, s, p) || (Leads(p, d) && NewDir(w, s, p, o))
      {
        if !SameAt(w, s, p) {
          LeadsTrans(p, a, d);
        }
      }
    } else {
      var mid, files := MakeDirs(w, d, o).world, Plan(c, m, host).value;
      var i :| PrefixState(mid, s, files, i);
      PlanPaths(c, m, host);
      PrefixRoot(mid, s, files, i);
      OwnCommits(w, s, c, o, PathsOf(files));
    }
  }

  lemma PrefixRoot(w: World, s: World, files: seq<SlotFile>, i: nat)
    requires PrefixState(w, s, files, i)
    ensures forall p <- PathsOf(files) :: p.parts == [] ==> SameAt(w, s, p)
  {
    forall p | p in PathsOf(files) && p.parts == []
      ensures SameAt(w, s, p)
    {
      var j :| 0 <= j < |files| && files[j].path == p;
      assert j < i ==> Holds(s, files[j].path, files[j].content, files[j].perms);
      assert j == i ==> SlotState(w, s, files[i]);
    }
  }

  // However a write ends, it ends on its way.
  lemma WriteWay(w: World, m: Material, c: CertConfig, o: Oracle, host: Host)
    requires ValidCert(c, host)
    ensures Write(w, m, c, o, host).world == w || Way(w, Write(w, m, c, o, host).world, m, c, o, host)
  {
    var d := TargetDir(c);
    if d.parts != [] {
      assert Leads(d, d);
    }
    if MakeDirs(w, d, o).ok && Plan(c, m, host).Success? {
      ValidPlan(c, m, host);
      var i := CommitAllPrefix(MakeDirs(w, d, o).world, Plan(c, m, host).value, o);
    }
  }

  // Success means: every planned file is a regular file with the configured
  // bytes, mode and owner; nothing else moved; `changed` is exact.
  lemma WriteSucceeds(w: World, m: Material, c: CertConfig, o: Oracle, host: Host)
    requires ValidCert(c, host) && Write(w, m, c, o, host).result.Success?
    ensures MakeDirs(w, TargetDir(c), o).ok && Plan(c, m, host).Success?
    ensures var r, files := Write(w, m, c, o, host), Plan(c, m, host).value;
      && AllHeld(r.world, files)
      && OnlyOwn(w, r.world, c, o)
      && (r.result.value <==> exists i :: 0 <= i < |files| && Stale(w, files[i]))
  {
    var files, mid := Plan(c, m, host).value, MakeDirs(w, TargetDir(c), o).world;
    ValidPlan(c, m, host);
    PlanPaths(c, m, host);
    MadeAside(w, c, o, host);
    WriteFrame(w, m, c, o, host);
    CommitAllSucceeds(mid, files, o);
    StaleSame(w, mid, files);
  }

  lemma StaleSame(w: World, mid: World, files: seq<SlotFile>)
    requires Agree(w, mid, PathsOf(files))
    ensures forall i :: 0 <= i < |files| ==> (Stale(w, files[i]) <==> Stale(mid, files[i]))
  {
    forall i | 0 <= i < |files|
      ensures Stale(w, files[i]) <==> Stale(mid, files[i])
    {
      assert files[i].path in PathsOf(files);
    }
  }

  // Nothing but regular files, or nothing at all, where the certificate's
  // files go, and no file in the way of their directory.
  ghost predicate Unobstructed(w: World, c: CertConfig) {
    && (forall p <- CertPaths(c) :: Regular(w, p))
    && (forall a :: Leads(a, TargetDir(c)) && a in w ==> IsDirectory(w, a))
  }

  // No call fails on the certificate's files or on the way to them.
  ghost predicate Faultless(c: CertConfig, o: Oracle) {
    && (forall p <- CertPaths(c) :: NoFaults(o, p))
    && (forall a :: Leads(a, TargetDir(c)) ==> !o.faults(a, Mkdir))
  }

  lemma UnhinderedWrite(w: World, c: CertConfig, m: Material, o: Oracle, host: Host)
    requires ValidCert(c, host) && Unobstructed(w, c) && AccountsKnown(c, host) && Faultless(c, o)
    ensures Write(w, m, c, o, host).result.Success?
  {
    var mid := MakeDirs(w, TargetDir(c), o).world;
    ValidPlan(c, m, host);
    PlanWithin(c, m, host);
    MakeUnhindered(w, TargetDir(c), o);
    MadeAside(w, c, o, host);
    var files := Plan(c, m, host).value;
    forall i | 0 <= i < |files|
      ensures NoFaults(o, files[i].path) && Regular(mid, files[i].path)
    {
      assert files[i].path in CertPaths(c);
    }
    CommitAllUnhindered(mid, files, o);
  }

  // Writing the same material again reports no change and changes nothing,
  // neither content nor mode nor owner, nor any directory.
  lemma WriteIdempotent(w: World, m: Material, c: CertConfig, o: Oracle, again: Oracle, host: Host)
    requires ValidCert(c, host) && Write(w, m, c, o, host).result.Success?
    requires forall p <- CertPaths(c) :: NoFaults(again, p)
    ensures var s := Write(w, m, c, o, host).world;
            Write(s, m, c, again, host) == Committed(s, Success(false))
  {
    WriteSucceeds(w, m, c, o, host);
    var files, s := Plan(c, m, host).value, Write(w, m, c, o, host).world;
    PlanWithin(c, m, host);
    DirectoryStays(w, m, c, o, host);
    CommitAllIdempotent(s, files, again);
  }

  lemma DirectoryStays(w: World, m: Material, c: CertConfig, o: Oracle, host: Host)
    requires ValidCert(c, host) && Plan(c, m, host).Success? && MakeDirs(w, TargetDir(c), o).ok
    ensures IsDirectory(Write(w, m, c, o, host).world, TargetDir(c))
  {
    var mid := MakeDirs(w, TargetDir(c), o).world;
    MadeOnly(w, TargetDir(c), o);
    ValidBelow(c, host);
    PlanPaths(c, m, host);
    CommitAllFrame(mid, Plan(c, m, host).value, o);
  }

  lemma WriteFrame(w: World, m: Material, c: CertConfig, o: Oracle, host: Host)
    ensures OnlyOwn(w, Write(w, m, c, o, host).world, c, o)
  {
    var mid := MakeDirs(w, TargetDir(c), o);
    OwnCommits(w, mid.world, c, o, {});
    if mid.ok && Plan(c, m, host).Success? {
      PlanPaths(c, m, host);
      CommitAllFrame(mid.world, Plan(c, m, host).value, o);
      CommitAllRoot(mid.world, Plan(c, m, host).value, o);
      OwnCommits(w, CommitAll(mid.world, Plan(c, m, host).value, o).world, c, o, PathsOf(Plan(c, m, host).value));
    }
  }

  // A write depends on the certificate's own files and on which directories
  // above them are there or could be made.
  lemma WriteLocal(w: World, v: World, m: Material, c: CertConfig, o: Oracle, host: Host)
    requires ValidCert(c, host)
    requires Agree(w, v, CertPaths(c)) && Grown(w, v, TargetDir(c), o)
    ensures Write(v, m, c, o, host).result == Write(w, m, c, o, host).result
    ensures Agree(Write(w, m, c, o, host).world, Write(v, m, c, o, host).world, CertPaths(c))
  {
    MakeGrown(w, v, TargetDir(c), o);
    MadeAside(w, c, o, host);
    MadeAside(v, c, o, host);
    var mw, mv := MakeDirs(w, TargetDir(c), o), MakeDirs(v, TargetDir(c), o);
    assert Agree(mw.world, mv.world, CertPaths(c));
    if mw.ok && Plan(c, m, host).Success? {
      PlanPaths(c, m, host);
      CommitAllLocal(mw.world, mv.world, Plan(c, m, host).value, o, CertPaths(c));
    }
  }

  // Where a write can fail before its first commit, in order: an account of the
  // owner missing, with nothing touched; the directory, of which a part may be
  // there then; an account of the key's owner missing, with the directory made.
  // No file is touched in any of these.
  lemma EarlyFailures(w: World, m: Material, c: CertConfig, o: Oracle, host: Host)
    requires ValidCert(c, host)
    ensures var r, made := Write(w, m, c, o, host), MakeDirs(w, TargetDir(c), o);
      && (!AccountKnown(c.owner, host) ==> r == Committed(w, Failure(UnknownAccount)))
      && (AccountKnown(c.owner, host) && !made.ok ==> r == Committed(made.world, Failure(Io)))
      && (AccountKnown(c.owner, host) && made.ok && !AccountKnown(c.keyOwner, host) ==>
            r == Committed(made.world, Failure(UnknownAccount)))
      && Agree(w, made.world, CertPaths(c))
  {
    PermsResolve(c, host);
    ValidPlan(c, m, host);
    MadeAside(w, c, o, host);
    assert ParseOwner("") == None;
  }
}

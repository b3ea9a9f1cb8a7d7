// What a reader of the file system sees, and which system calls fail: the
// abstract level at which the writer and the renewer are specified.
module World {
  import opened Bytes
  import opened Wrappers
  import opened Paths

  datatype Perms = Perms(mode: nat, uid: nat, gid: nat)

  datatype Node =
    | Dir                              // a directory
    | Link(target: Path)               // a symbolic link; never followed
    | Special                          // fifo, device, socket
    | File(data: bytes, perms: Perms)  // a regular file

  type World = map<Path, Node>

  // The four places a file is opened, and the temporary file.
  datatype Phase = Audit | LeafRead | Existing | Enforce | Temp

  datatype Op =
    | Open(phase: Phase) | Stat(phase: Phase) | Read(phase: Phase)
    | Chmod(phase: Phase) | Chown(phase: Phase)
    | Create | Write | Sync | Close | Rename | Remove | Mkdir

  // Which calls made on behalf of a path fail during a run: one outcome for
  // each path and call, so a call repeated in the run, such as making the
  // directory two certificates share, ends the same way.  And how much of a
  // write is on disk when it is interrupted.
  datatype Oracle = Oracle(faults: (Path, Op) -> bool, partial: Path -> nat)

  // Open without following links, check for a regular file.  The root is a
  // directory.
  function OpenRegular(w: World, p: Path, phase: Phase, o: Oracle): Result<Node, Error> {
    if o.faults(p, Open(phase)) then Failure(Io)
    else if p.parts == [] then Failure(NotRegular)
    else if p !in w then Failure(NotExist)
    else if w[p].Link? then Failure(NotRegular)
    else if o.faults(p, Stat(phase)) then Failure(Io)
    else if !w[p].File? then Failure(NotRegular)
    else Success(w[p])
  }

  function ReadRegular(w: World, p: Path, phase: Phase, o: Oracle): (r: Result<bytes, Error>)
    ensures r.Success? ==> p.parts != [] && p in w && w[p].File? && r.value == w[p].data
    ensures r == Failure(NotExist) ==> p !in w && p.parts != []
  {
    match OpenRegular(w, p, phase, o)
    case Failure(e) => Failure(e)
    case Success(node) => if o.faults(p, Read(phase)) then Failure(Io) else Success(node.data)
  }

  ghost predicate NoFaults(o: Oracle, p: Path) {
    forall op :: !o.faults(p, op)
  }

  predicate Readable(o: Oracle, p: Path, phase: Phase) {
    !o.faults(p, Open(phase)) && !o.faults(p, Stat(phase)) && !o.faults(p, Read(phase))
  }

  // Two worlds look the same at a set of paths.
  ghost predicate Agree(v: World, w: World, ps: set<Path>) {
    forall p <- ps :: (p in v <==> p in w) && (p in v ==> v[p] == w[p])
  }

  // Nothing outside the given paths differs.
  ghost predicate OnlyAt(v: World, w: World, ps: set<Path>) {
    forall p :: p !in ps ==> (p in v <==> p in w) && (p in v ==> v[p] == w[p])
  }

  ghost predicate Holds(w: World, p: Path, data: bytes, perms: Perms) {
    p.parts != [] && p in w && w[p] == File(data, perms)
  }

  ghost predicate SameAt(v: World, w: World, p: Path) {
    (p in v <==> p in w) && (p in v ==> v[p] == w[p])
  }

  // ------------------------------------------------------------ directories

  // The world afterwards and whether the directory is there.
  datatype Made = Made(world: World, ok: bool)

  // Makes a directory and whatever is missing above it, from the top down.  A
  // symbolic link among them is taken to lead to a directory.
  function MakeDirs(w: World, d: Path, o: Oracle): Made
    decreases |d.parts|
  {
    if d.parts == [] then Made(w, true)
    else if d in w then Made(w, w[d].Dir? || w[d].Link?)
    else
      var up := MakeDirs(w, Parent(d), o);
      if !up.ok then up
      else if o.faults(d, Mkdir) then Made(up.world, false)
      else Made(up.world[d := Dir], true)
  }

  predicate IsDirectory(w: World, d: Path) {
    d.parts == [] || (d in w && (w[d].Dir? || w[d].Link?))
  }

  // A directory where nothing was, that could be made there.
  ghost predicate NewDir(w: World, s: World, a: Path, o: Oracle) {
    a !in w && a in s && s[a].Dir? && MakeDirs(w, a, o).ok
  }

  // Making directories changes nothing else, and it does make them.
  lemma {:induction false} MadeOnly(w: World, d: Path, o: Oracle)
    ensures var m := MakeDirs(w, d, o);
      && (forall a :: SameAt(w, m.world, a) || (Leads(a, d) && NewDir(w, m.world, a, o)))
      && (m.ok ==> IsDirectory(m.world, d))
    decreases |d.parts|
  {
    if d.parts == [] || d in w {
    } else {
      MadeOnly(w, Parent(d), o);
      forall a
        ensures SameAt(w, MakeDirs(w, d, o).world, a) || (Leads(a, d) && NewDir(w, MakeDirs(w, d, o).world, a, o))
      {
        LeadsUp(a, d);
      }
    }
  }

  // On the way to a place, u differs from w by directories that could be made
  // in w as well.
  ghost predicate Grown(w: World, u: World, d: Path, o: Oracle) {
    forall a :: Leads(a, d) ==> SameAt(w, u, a) || NewDir(w, u, a, o)
  }

  // Then making the directory succeeds in both or in neither.
  lemma {:induction false} MakeGrown(w: World, u: World, d: Path, o: Oracle)
    requires Grown(w, u, d, o)
    ensures MakeDirs(u, d, o).ok == MakeDirs(w, d, o).ok
    decreases |d.parts|
  {
    if d.parts == [] || d in w {
      assert d.parts != [] ==> Leads(d, d);
    } else {
      assert Leads(d, d);
      forall a | Leads(a, Parent(d))
        ensures SameAt(w, u, a) || NewDir(w, u, a, o)
      {
        LeadsUp(a, d);
      }
      MakeGrown(w, u, Parent(d), o);
    }
  }

  lemma {:induction false} MakeUnhindered(w: World, d: Path, o: Oracle)
    requires forall a :: Leads(a, d) ==> !o.faults(a, Mkdir) && (a in w ==> IsDirectory(w, a))
    ensures MakeDirs(w, d, o).ok
    decreases |d.parts|
  {
    if d.parts == [] || d in w {
      assert d.parts != [] ==> Leads(d, d);
    } else {
      assert Leads(d, d);
      forall a | Leads(a, Parent(d))
        ensures !o.faults(a, Mkdir) && (a in w ==> IsDirectory(w, a))
      {
        LeadsUp(a, d);
      }
      MakeUnhindered(w, Parent(d), o);
    }
  }

  // Reading succeeds exactly when there is a regular file and none of the three
  // calls fails; it reports a missing file exactly when nothing is there and
  // the first call goes through.
  lemma ReadExactly(w: World, p: Path, phase: Phase, o: Oracle)
    ensures var r := ReadRegular(w, p, phase, o);
      && (r.Success? <==>
            && p.parts != [] && p in w && w[p].File?
            && !o.faults(p, Open(phase)) && !o.faults(p, Stat(phase)) && !o.faults(p, Read(phase)))
      && (r == Failure(NotExist) <==> p.parts != [] && p !in w && !o.faults(p, Open(phase)))
  {
  }

  // Where what is there stands in directories: making one succeeds exactly when
  // everything on the way is a directory or missing, and making the missing
  // ones does not fail.
  lemma {:induction false} MakeExactly(w: World, d: Path, o: Oracle)
    requires forall a, b :: Leads(a, b) && a != b && Leads(b, d) && b in w ==> IsDirectory(w, a)
    ensures MakeDirs(w, d, o).ok <==>
      forall a :: Leads(a, d) ==> if a in w then IsDirectory(w, a) else !o.faults(a, Mkdir)
    decreases |d.parts|
  {
    if d.parts == [] {
    } else if d in w {
      assert Leads(d, d);
      forall a | Leads(a, d) && IsDirectory(w, d)
        ensures IsDirectory(w, a)
      {
        assert a != d ==> Leads(a, d) && Leads(d, d);
      }
    } else {
      assert Leads(d, d);
      forall a, b | Leads(a, b) && a != b && Leads(b, Parent(d)) && b in w
        ensures IsDirectory(w, a)
      {
        LeadsUp(b, d);
      }
      MakeExactly(w, Parent(d), o);
      forall a
        ensures Leads(a, d) <==> a == d || Leads(a, Parent(d))
      {
        LeadsUp(a, d);
      }
    }
  }
}

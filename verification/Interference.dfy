// Files apart are not only enough for certificates to be independent, they are
// needed.
module Interference {
  import opened Bytes
  import opened Wrappers
  import opened Hosts
  import opened Paths
  import opened Config
  import opened World
  import opened Sources
  import opened Layout
  import opened Renewer
  import Commit
  import Pem

  // No directory on the way to a certificate's files is a symbolic link.
  ghost predicate NoLinksAbove(w: World, certs: seq<CertConfig>) {
    forall i, a :: 0 <= i < |certs| && Leads(a, TargetDir(certs[i])) && a in w ==> !w[a].Link?
  }

  // In every run on this host, from every state of the disk, each certificate
  // ends up with the files it would have had alone.
  ghost predicate Independent(certs: seq<CertConfig>, host: Host) {
    forall w: World, env: Env, i: nat | env.host == host && i < |certs| && NoLinksAbove(w, certs) ::
      Agree(Run(w, certs, env).world, ProcessCert(w, certs[i], env).world, CertPaths(certs[i]))
  }

  predicate Usable(certs: seq<CertConfig>, host: Host) {
    forall i :: 0 <= i < |certs| ==> UsableCert(certs[i], host)
  }

  // ------------------------------------------------ every file is planned

  lemma SplitCovers(c: CertConfig, m: Material, perms: Perms, keyPerms: Perms, p: Path)
    requires c.format == FORMAT_SPLIT && c.files.Some? && p in CertPaths(c)
    ensures p in Commit.PathsOf(SplitLayout(c.destination, c.files.value, m, perms, keyPerms))
  {
    var f := c.files.value;
    SplitLayoutHas(c.destination, f, m, perms, keyPerms);
    var name :| name in Slots(f) && name != "" && p == FileIn(c.destination, name);
    assert name == f.cert || name == f.key || name == f.ca || name == f.fullchain;
  }

  // A write that succeeds writes every file the certificate owns.
  lemma PlanCovers(c: CertConfig, m: Material, host: Host, p: Path)
    requires ValidCert(c, host) && Plan(c, m, host).Success? && p in CertPaths(c)
    ensures p in Commit.PathsOf(Plan(c, m, host).value)
  {
    if c.format == FORMAT_SPLIT {
      var perms := ResolvePerms(c, host).value;
      SplitCovers(c, m, perms, ResolveKeyPerms(c, perms, host).value, p);
    } else {
      assert Plan(c, m, host).value[0].path == p;
    }
  }

  // ------------------------------------------- two materials told by length

  // Certificates and key around these bytes.
  function Around(b: bytes): Material {
    Issued(b, [b], b)
  }

  const MANY: bytes := seq(200, _ => 0)

  lemma BlobLengths(b: bytes, part: Part)
    ensures b == [] ==> |Blob(part, Around(b))| == 54
    ensures b == MANY ==> |Blob(part, Around(b))| > 162
  {
    Pem.EncodeLength(Pem.Block(Pem.CERTIFICATE, b));
    Pem.EncodeLength(Pem.Block(Pem.PRIVATE_KEY, b));
    assert Certs([b]) == [Pem.Block(Pem.CERTIFICATE, b)] by { assert [b][1..] == []; }
    assert Pem.EncodeAll(Certs([b])) == Pem.Encode(Pem.Block(Pem.CERTIFICATE, b)) + Pem.EncodeAll([]);
  }

  // No file of the one is as long as any file of the other.
  predicate Short(content: bytes) {
    |content| <= 162
  }

  lemma {:induction false} BundleLength(layout: seq<Part>, b: bytes)
    requires b in {[], MANY}
    ensures b == [] ==> |Concatenated(layout, Around(b))| == 54 * |layout|
    ensures b == MANY && layout != [] ==> !Short(Concatenated(layout, Around(b)))
  {
    if layout == [] {
    } else {
      BundleLength(layout[..|layout| - 1], b);
      BlobLengths(b, layout[|layout| - 1]);
    }
  }

  lemma SplitLengths(dest: string, f: FilesBlock, b: bytes, perms: Perms, keyPerms: Perms)
    requires b in {[], MANY}
    ensures forall x <- SplitLayout(dest, f, Around(b), perms, keyPerms) :: Short(x.content) <==> b == []
  {
    var m := Around(b);
    BlobLengths(b, CertPart);
    BlobLengths(b, KeyPart);
    BlobLengths(b, ChainPart);
    forall x | x in SplitLayout(dest, f, m, perms, keyPerms)
      ensures Short(x.content) <==> b == []
    {
      assert x in Slot(dest, f.cert, m.cert, perms) || x in Slot(dest, f.key, m.key, keyPerms)
          || x in Slot(dest, f.ca, m.ca, perms) || x in Slot(dest, f.fullchain, m.cert + m.ca, perms);
    }
  }

  lemma PlanLengths(c: CertConfig, b: bytes, host: Host)
    requires ValidCert(c, host) && Plan(c, Around(b), host).Success? && b in {[], MANY}
    ensures forall x <- Plan(c, Around(b), host).value :: Short(x.content) <==> b == []
  {
    if c.format == FORMAT_SPLIT {
      var perms := ResolvePerms(c, host).value;
      SplitLengths(c.destination, c.files.value, b, perms, ResolveKeyPerms(c, perms, host).value);
    } else {
      OrderNamesParts(if c.bundleOrder == "" then DEFAULT_BUNDLE_ORDER else c.bundleOrder);
      BundleLength(LayoutOf(c.bundleOrder).value, b);
    }
  }

  // -------------------------------------------------------- the spoiler run

  // A forced run without failures in which one certificate is issued short
  // texts and every other one long ones.
  ghost function Spoiler(victim: CertConfig, host: Host): Env {
    Env(host, Options(0.5, true, false), Oracle((_, _) => false, _ => 0), _ => 0,
        c => Success(Around(if c == victim then [] else MANY)), false, _ => true)
  }

  lemma AloneWrites(c: CertConfig, victim: CertConfig, host: Host, b: bytes)
    requires UsableCert(c, host) && b == (if c == victim then [] else MANY)
    ensures var env := Spoiler(victim, host); var plan := Plan(c, Around(b), host);
      plan.Success? && Commit.AllHeld(ProcessCert(map[], c, env).world, plan.value)
  {
    var env := Spoiler(victim, host);
    assert env.fetch(c) == Success(Around(b)) && KnownSource(c.source);
    UsableNotRoot(c, host);
    Commit.UnhinderedWrite(map[], c, Around(b), env.oracle, host);
    Commit.WriteSucceeds(map[], Around(b), c, env.oracle, host);
    FetchingProcess(map[], c, env);
  }

  // Alone, from nothing, a certificate gets every one of its files.
  lemma AloneHolds(c: CertConfig, victim: CertConfig, host: Host, p: Path)
    requires UsableCert(c, host) && p in CertPaths(c)
    ensures var s := ProcessCert(map[], c, Spoiler(victim, host)).world;
      Commit.DataAt(s, p).Some? && (Short(Commit.DataAt(s, p).value) <==> c == victim)
  {
    var b: bytes := if c == victim then [] else MANY;
    assert |MANY| == 200;
    AloneWrites(c, victim, host, b);
    var s, files := ProcessCert(map[], c, Spoiler(victim, host)).world, Plan(c, Around(b), host).value;
    PlanLengths(c, b, host);
    PlanCovers(c, Around(b), host, p);
    var i :| 0 <= i < |files| && files[i].path == p;
    assert Holds(s, files[i].path, files[i].content, files[i].perms) && files[i] in files;
  }

  // ------------------------------------------------------- the tree of names

  // Whatever is there stands in directories, and there are no links.
  ghost predicate Tree(w: World) {
    && (forall q <- w :: !w[q].Link?)
    && (forall q, a :: q in w && Leads(a, Parent(q)) ==> IsDirectory(w, a))
  }

  ghost predicate DirsTo(w: World, d: Path) {
    forall a :: Leads(a, d) ==> IsDirectory(w, a)
  }

  lemma GrowTree(w: World, p: Path, node: Node)
    requires Tree(w) && DirsTo(w, Parent(p)) && !node.Link?
    requires p in w ==> !w[p].Dir?
    ensures Tree(w[p := node])
  {
    forall q, a | q in w[p := node] && Leads(a, Parent(q))
      ensures IsDirectory(w[p := node], a)
    {
      assert IsDirectory(w, a);
    }
  }

  lemma {:induction false} MakeTree(w: World, d: Path, o: Oracle)
    requires Tree(w)
    ensures Tree(MakeDirs(w, d, o).world)
    ensures MakeDirs(w, d, o).ok ==> DirsTo(MakeDirs(w, d, o).world, d)
    decreases |d.parts|
  {
    if d.parts == [] {
    } else if d in w {
      forall a | Leads(a, d) && IsDirectory(w, d)
        ensures IsDirectory(w, a)
      {
        LeadsUp(a, d);
      }
    } else {
      var up := MakeDirs(w, Parent(d), o);
      MakeTree(w, Parent(d), o);
      MadeOnly(w, Parent(d), o);
      ParentShorter(d);
      if up.ok && !o.faults(d, Mkdir) {
        GrowTree(up.world, d, Dir);
        forall a | Leads(a, d)
          ensures IsDirectory(up.world[d := Dir], a)
        {
          LeadsUp(a, d);
        }
      }
    }
  }

  lemma CommitTree(w: World, f: SlotFile, o: Oracle)
    requires Tree(w) && DirsTo(w, Parent(f.path))
    ensures var s := Commit.CommitFile(w, f, o).world; Tree(s) && DirsTo(s, Parent(f.path))
  {
    var s := Commit.CommitFile(w, f, o).world;
    ParentShorter(f.path);
    if s != w {
      assert f.path in s && s == w[f.path := s[f.path]] && s[f.path].File?;
      GrowTree(w, f.path, s[f.path]);
    }
  }

  lemma {:induction false} CommitAllTree(w: World, files: seq<SlotFile>, o: Oracle, d: Path)
    requires Tree(w) && DirsTo(w, d) && forall i :: 0 <= i < |files| ==> Parent(files[i].path) == d
    ensures Tree(Commit.CommitAll(w, files, o).world)
    decreases |files|
  {
    if files == [] {
    } else {
      CommitTree(w, files[0], o);
      assert forall i :: 0 <= i < |files[1..]| ==> files[1..][i] == files[i + 1];
      CommitAllTree(Commit.CommitFile(w, files[0], o).world, files[1..], o, d);
    }
  }

  lemma ProcessTree(w: World, c: CertConfig, env: Env)
    requires ValidCert(c, env.host) && Tree(w)
    ensures Tree(ProcessCert(w, c, env).world)
  {
    if env.fetch(c).Success? {
      WriteTree(w, env.fetch(c).value, c, env.oracle, env.host);
    }
  }

  lemma WriteTree(w: World, m: Material, c: CertConfig, o: Oracle, host: Host)
    requires ValidCert(c, host) && Tree(w)
    ensures Tree(Commit.Write(w, m, c, o, host).world)
  {
    var d := TargetDir(c);
    MakeTree(w, d, o);
    if MakeDirs(w, d, o).ok && Plan(c, m, host).Success? {
      PlanWithin(c, m, host);
      ValidBelow(c, host);
      CommitAllTree(MakeDirs(w, d, o).world, Plan(c, m, host).value, o, d);
    }
  }

  lemma {:induction false} RunTree(w: World, certs: seq<CertConfig>, env: Env)
    requires AllValid(certs, env.host) && Tree(w)
    ensures Tree(Run(w, certs, env).world)
  {
    if certs == [] {
    } else {
      var init := certs[..|certs| - 1];
      assert forall k :: 0 <= k < |init| ==> init[k] == certs[k];
      RunTree(w, init, env);
      ProcessTree(Run(w, init, env).world, certs[|certs| - 1], env);
    }
  }

  // --------------------------------------------------------------- the clash

  // A file of one certificate is a file of another or lies above one.
  ghost predicate Clash(certs: seq<CertConfig>, i: nat, j: nat, p: Path, q: Path) {
    && i < |certs| && j < |certs| && i != j
    && p in CertPaths(certs[i]) && q in CertPaths(certs[j]) && Leads(p, q)
  }

  ghost predicate AsAlone(certs: seq<CertConfig>, env: Env, i: nat)
    requires i < |certs|
  {
    Agree(Run(map[], certs, env).world, ProcessCert(map[], certs[i], env).world, CertPaths(certs[i]))
  }

  lemma TreeFiles(s: World, p: Path, q: Path)
    requires Tree(s) && Leads(p, q) && Commit.DataAt(s, p).Some? && Commit.DataAt(s, q).Some?
    ensures p == q
  {
    LeadsUp(p, q);
    assert q in s && p in s && s[p].File?;
    assert Leads(p, Parent(q)) ==> IsDirectory(s, p);
  }

  lemma AloneData(certs: seq<CertConfig>, host: Host, v: nat, i: nat, p: Path)
    requires v < |certs| && i < |certs| && UsableCert(certs[i], host) && p in CertPaths(certs[i])
    requires AsAlone(certs, Spoiler(certs[v], host), i)
    ensures var s := Run(map[], certs, Spoiler(certs[v], host)).world;
      Commit.DataAt(s, p).Some? && (Short(Commit.DataAt(s, p).value) <==> certs[i] == certs[v])
  {
    AloneHolds(certs[i], certs[v], host, p);
  }

  // Then a run from nothing in which nothing need fail leaves one of the two
  // without a file it would have got alone.
  lemma ClashSpoils(certs: seq<CertConfig>, host: Host, i: nat, j: nat, p: Path, q: Path)
    requires Usable(certs, host) && DistinctNames(certs) && Clash(certs, i, j, p, q)
    ensures var env := Spoiler(certs[i], host); !(AsAlone(certs, env, i) && AsAlone(certs, env, j))
  {
    var env := Spoiler(certs[i], host);
    assert certs[i].name != certs[j].name;
    if AsAlone(certs, env, i) && AsAlone(certs, env, j) {
      AloneData(certs, host, i, i, p);
      AloneData(certs, host, i, j, q);
      UsableValid(certs, host);
      RunTree(map[], certs, env);
      TreeFiles(Run(map[], certs, env).world, p, q);
    }
  }

  lemma UsableValid(certs: seq<CertConfig>, host: Host)
    requires Usable(certs, host)
    ensures AllValid(certs, host)
  {
    forall i | 0 <= i < |certs|
      ensures ValidCert(certs[i], host)
    {
      assert UsableCert(certs[i], host);
    }
  }

  // Valid certificates with straight destinations are independent in every run
  // if and only if no file of one is, or lies above, a file of another.
  lemma InterferenceExactly(certs: seq<CertConfig>, host: Host)
    requires Usable(certs, host) && DistinctNames(certs)
    ensures Independent(certs, host) <==> AllApart(certs)
  {
    if AllApart(certs) {
      forall w: World, env: Env, i: nat | env.host == host && i < |certs| && NoLinksAbove(w, certs)
        ensures Agree(Run(w, certs, env).world, ProcessCert(w, certs[i], env).world, CertPaths(certs[i]))
      {
        RunIndependent(w, certs, env, i);
      }
    } else {
      var i, j :| 0 <= i < j < |certs| && !FilesApart(certs[i], certs[j]);
      var p, q :| p in CertPaths(certs[i]) && q in CertPaths(certs[j]) && (Leads(p, q) || Leads(q, p));
      if Leads(p, q) {
        ClashNotIndependent(certs, host, i, j, p, q);
      } else {
        ClashNotIndependent(certs, host, j, i, q, p);
      }
    }
  }

  lemma ClashNotIndependent(certs: seq<CertConfig>, host: Host, i: nat, j: nat, p: Path, q: Path)
    requires Usable(certs, host) && DistinctNames(certs) && Clash(certs, i, j, p, q)
    ensures !Independent(certs, host)
  {
    ClashSpoils(certs, host, i, j, p, q);
    assert NoLinksAbove(map[], certs) && Spoiler(certs[i], host).host == host;
  }

  // A bundle at the place of another certificate's directory: no file in
  // common, and still not independent.
  lemma NestedPair(bundle: CertConfig, split: CertConfig, host: Host)
    requires UsableCert(bundle, host) && UsableCert(split, host) && bundle.name != split.name
    requires bundle.format == FORMAT_COMBINED && split.format == FORMAT_SPLIT
    requires Place(bundle.destination) == Place(split.destination)
    ensures CertPaths(bundle) !! CertPaths(split)
    ensures !Independent([bundle, split], host)
  {
    var certs, p := [bundle, split], Place(bundle.destination);
    assert FORMAT_COMBINED[0] != FORMAT_SPLIT[0];
    UsableNotRoot(bundle, host);
    ValidBelow(split, host);
    ValidLeafPath(split, host);
    LeafPathOwned(split);
    var q := ResolveLeafPath(split).value;
    ParentShorter(q);
    assert p in CertPaths(bundle) && Leads(p, q);
    ClashNotIndependent(certs, host, 0, 1, p, q);
  }
}

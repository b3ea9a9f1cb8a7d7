// What the writer leaves on disk is what the renewer accepts: the theorems
// that go from fetched material through the written bytes and back.
module Renewal {
  import opened Bytes
  import opened Wrappers
  import opened Hosts
  import opened Paths
  import opened Config
  import opened World
  import opened Sources
  import opened Layout
  import opened Renewer
  import Commit
  import Pem
  import Ttl

  // --------------------------------------------------- shapes of the blobs

  lemma {:induction false} CertCountCerts(bs: seq<Pem.Block>, ders: seq<bytes>)
    ensures CertCount(bs + Certs(ders)) == CertCount(bs) + |ders|
    decreases |ders|
  {
    if ders == [] {
      assert bs + Certs(ders) == bs;
    } else {
      var b := Pem.Block(Pem.CERTIFICATE, ders[0]);
      CertCountCerts(bs + [b], ders[1..]);
      CertCountStep(bs, b);
      Associative(bs, [b], Certs(ders[1..]));
      assert Certs(ders) == [b] + Certs(ders[1..]);
    }
  }

  function ParseLeaf(der: bytes, host: Host): Result<Leaf, Error> {
    match host.parseCertificate(der)
    case None => Failure(BadCertificate)
    case Some(leaf) => Success(leaf)
  }

  lemma FirstOfBlocks(raw: bytes, host: Host)
    ensures Pem.Blocks(raw) == [] ==> FirstLeaf(raw, host) == Failure(NoPemBlock)
    ensures Pem.Blocks(raw) != [] ==>
      (FirstLeaf(raw, host) == if Pem.Blocks(raw)[0].IsCertificate()
                               then ParseLeaf(Pem.Blocks(raw)[0].der, host)
                               else Failure(WrongBlockType))
  {
  }

  // The fullchain bytes are the leaf block followed by the chain blocks.
  lemma FullchainBlocks(m: Material, leaf: bytes, chain: seq<bytes>)
    requires Presents(m, leaf, chain)
    ensures Pem.Blocks(m.cert + m.ca) == Certs([leaf] + chain)
  {
    Pem.BlocksAppend(m.cert, m.ca);
    assert ([leaf] + chain)[1..] == chain;
  }

  lemma CertsShape(raw: bytes, leaf: bytes, chain: seq<bytes>, host: Host)
    requires Pem.Blocks(raw) == Certs([leaf] + chain)
    ensures LeafOnly(raw) <==> chain == []
    ensures LeafPlusChain(raw) <==> chain != []
    ensures FirstLeaf(raw, host) == ParseLeaf(leaf, host)
  {
    CertsCounted(Pem.Blocks(raw), leaf, chain);
    FirstOfBlocks(raw, host);
  }

  lemma CertsCounted(bs: seq<Pem.Block>, leaf: bytes, chain: seq<bytes>)
    requires bs == Certs([leaf] + chain)
    ensures bs != [] && bs[0] == Pem.Block(Pem.CERTIFICATE, leaf)
    ensures CertCount(bs) == 1 + |chain|
  {
    CertCountCerts([], [leaf] + chain);
    assert [] + bs == bs;
  }

  lemma SlotShapes(m: Material, leaf: bytes, chain: seq<bytes>, host: Host)
    requires Presents(m, leaf, chain)
    ensures LeafOnly(m.cert)
    ensures LeafPlusChain(m.cert + m.ca) <==> chain != []
    ensures FirstLeaf(m.cert, host) == ParseLeaf(leaf, host)
    ensures FirstLeaf(m.cert + m.ca, host) == ParseLeaf(leaf, host)
  {
    assert Certs([leaf] + []) == [Pem.Block(Pem.CERTIFICATE, leaf)];
    CertsShape(m.cert, leaf, [], host);
    FullchainBlocks(m, leaf, chain);
    CertsShape(m.cert + m.ca, leaf, chain, host);
  }

  // ------------------------------------------------------ after a write

  // What a later reader finds once every commit of a write is done and nobody
  // else has touched the certificate's files, however the run went on.
  ghost predicate WrittenWith(w: World, c: CertConfig, m: Material, host: Host) {
    exists start, s :: WrittenFrom(start, s, w, c, m, host)
  }

  ghost predicate WrittenFrom(start: World, s: World, w: World, c: CertConfig, m: Material, host: Host) {
    && Plan(c, m, host).Success?
    && var files := Plan(c, m, host).value;
       && Commit.PrefixState(start, s, files, |files|)
       && Agree(s, w, CertPaths(c))
  }

  // A write that succeeds has done every commit.
  lemma WriteSettles(w: World, c: CertConfig, m: Material, o: Oracle, host: Host)
    requires ValidCert(c, host) && Commit.Write(w, m, c, o, host).result.Success?
    ensures WrittenWith(Commit.Write(w, m, c, o, host).world, c, m, host)
  {
    var files, s := Plan(c, m, host).value, Commit.Write(w, m, c, o, host).world;
    ValidPlan(c, m, host);
    var mid := MakeDirs(w, TargetDir(c), o).world;
    var i := Commit.CommitAllPrefix(mid, files, o);
    assert Agree(s, s, CertPaths(c));
    assert WrittenFrom(mid, s, s, c, m, host);
  }

  ghost predicate HasContent(w: World, p: Path, content: bytes) {
    Commit.DataAt(w, p) == Some(content)
  }

  // The declared slots hold the text of one material each.
  ghost predicate SlotsFrom(w: World, c: CertConfig, mc: Material, mk: Material, ma: Material, mf: Material) {
    c.files.Some? && var f := c.files.value;
    && (f.cert != "" ==> HasContent(w, FileIn(c.destination, f.cert), mc.cert))
    && (f.key != "" ==> HasContent(w, FileIn(c.destination, f.key), mk.key))
    && (f.ca != "" ==> HasContent(w, FileIn(c.destination, f.ca), ma.ca))
    && (f.fullchain != "" ==> HasContent(w, FileIn(c.destination, f.fullchain), mf.cert + mf.ca))
  }

  lemma WrittenContents(w: World, c: CertConfig, m: Material, host: Host)
    requires ValidCert(c, host) && WrittenWith(w, c, m, host)
    ensures c.format == FORMAT_SPLIT ==> SlotsFrom(w, c, m, m, m, m)
    ensures c.format == FORMAT_COMBINED ==>
      && LayoutOf(c.bundleOrder).Some?
      && HasContent(w, Place(c.destination), Concatenated(LayoutOf(c.bundleOrder).value, m))
  {
    var start, s :| WrittenFrom(start, s, w, c, m, host);
    var files := Plan(c, m, host).value;
    assert Commit.AllHeld(s, files);
    if c.format == FORMAT_SPLIT {
      var f := c.files.value;
      var perms := ResolvePerms(c, host).value;
      SplitLayoutHas(c.destination, f, m, perms, ResolveKeyPerms(c, perms, host).value);
      SlotPaths(c);
      if f.cert != "" { PlannedContent(s, w, c, files, FileIn(c.destination, f.cert), m.cert); }
      if f.key != "" { PlannedContent(s, w, c, files, FileIn(c.destination, f.key), m.key); }
      if f.ca != "" { PlannedContent(s, w, c, files, FileIn(c.destination, f.ca), m.ca); }
      if f.fullchain != "" { PlannedContent(s, w, c, files, FileIn(c.destination, f.fullchain), m.cert + m.ca); }
    } else {
      assert |files| == 1;
      assert Holds(s, files[0].path, files[0].content, files[0].perms);
    }
  }

  lemma PlannedContent(s: World, w: World, c: CertConfig, files: seq<SlotFile>, p: Path, content: bytes)
    requires Commit.AllHeld(s, files) && InPlan(files, p, content)
    requires Agree(s, w, CertPaths(c)) && p in CertPaths(c)
    ensures HasContent(w, p, content)
  {
    var i :| 0 <= i < |files| && files[i].path == p && files[i].content == content;
    assert Holds(s, files[i].path, files[i].content, files[i].perms);
  }

  // The permissions a mode text and an owner text stand for on this host: the
  // number that is written in base 8, and the ids of the two names.
  ghost predicate HasPerms(w: World, p: Path, mode: string, owner: string, host: Host) {
    && p in w && w[p].File?
    && ModeFor(w[p].perms.mode, mode)
    && exists user, group ::
         && OwnerFor(user, group, owner)
         && host.userId(user) == Some(w[p].perms.uid) && host.groupId(group) == Some(w[p].perms.gid)
  }

  lemma PermsMean(w: World, p: Path, mode: string, owner: string, host: Host)
    requires p in w && w[p].File? && ParseMode(mode) == Some(w[p].perms.mode) && ParseOwner(owner).Some?
    requires host.userId(ParseOwner(owner).value.user) == Some(w[p].perms.uid)
    requires host.groupId(ParseOwner(owner).value.group) == Some(w[p].perms.gid)
    ensures HasPerms(w, p, mode, owner, host)
  {
    var o := ParseOwner(owner).value;
    ModeMeans(mode, w[p].perms.mode);
    OwnerMeans(owner, o.user, o.group);
    assert OwnerFor(o.user, o.group, owner);
  }

  lemma ResolvedPerms(c: CertConfig, perms: Perms, w: World, p: Path, content: bytes, host: Host)
    requires ResolvePerms(c, host) == Success(perms) && Holds(w, p, content, perms)
    ensures HasPerms(w, p, c.mode, c.owner, host)
  {
    PermsMean(w, p, c.mode, c.owner, host);
  }

  lemma ResolvedKeyPerms(c: CertConfig, perms: Perms, w: World, p: Path, content: bytes, host: Host)
    requires ResolvePerms(c, host) == Success(perms) && ResolveKeyPerms(c, perms, host).Success?
    requires Holds(w, p, content, ResolveKeyPerms(c, perms, host).value)
    ensures HasPerms(w, p, if c.keyMode != "" then c.keyMode else c.mode,
                     if c.keyOwner != "" then c.keyOwner else c.owner, host)
  {
    PermsMean(w, p, if c.keyMode != "" then c.keyMode else c.mode,
              if c.keyOwner != "" then c.keyOwner else c.owner, host);
  }

  // After a successful write every file has the configured mode and owner; the
  // key file alone follows key_mode and key_owner, each where it is set.
  lemma WrittenPerms(start: World, c: CertConfig, m: Material, o: Oracle, host: Host)
    requires ValidCert(c, host) && Commit.Write(start, m, c, o, host).result.Success?
    ensures ConfiguredPerms(Commit.Write(start, m, c, o, host).world, c, host)
  {
    Commit.WriteSucceeds(start, m, c, o, host);
    var w, files := Commit.Write(start, m, c, o, host).world, Plan(c, m, host).value;
    var perms := ResolvePerms(c, host).value;
    if c.format == FORMAT_SPLIT {
      var keyPerms := ResolveKeyPerms(c, perms, host).value;
      SplitHeld(w, c, c.files.value, m, perms, keyPerms, host);
    } else {
      HeldMember(w, files, files[0]);
      ResolvedPerms(c, perms, w, files[0].path, files[0].content, host);
    }
  }

  ghost predicate ConfiguredPerms(w: World, c: CertConfig, host: Host) {
    && (c.format == FORMAT_COMBINED ==> HasPerms(w, Place(c.destination), c.mode, c.owner, host))
    && (c.format == FORMAT_SPLIT && c.files.Some? ==> SplitPerms(w, c, c.files.value, host))
  }

  ghost predicate SplitPerms(w: World, c: CertConfig, f: FilesBlock, host: Host) {
    && (f.cert != "" ==> HasPerms(w, FileIn(c.destination, f.cert), c.mode, c.owner, host))
    && (f.ca != "" ==> HasPerms(w, FileIn(c.destination, f.ca), c.mode, c.owner, host))
    && (f.fullchain != "" ==> HasPerms(w, FileIn(c.destination, f.fullchain), c.mode, c.owner, host))
    && (f.key != "" ==> HasPerms(w, FileIn(c.destination, f.key),
                                 if c.keyMode != "" then c.keyMode else c.mode,
                                 if c.keyOwner != "" then c.keyOwner else c.owner, host))
  }

  lemma SplitHeld(w: World, c: CertConfig, f: FilesBlock, m: Material, perms: Perms, keyPerms: Perms, host: Host)
    requires ResolvePerms(c, host) == Success(perms) && ResolveKeyPerms(c, perms, host) == Success(keyPerms)
    requires Commit.AllHeld(w, SplitLayout(c.destination, f, m, perms, keyPerms))
    ensures SplitPerms(w, c, f, host)
  {
    var files := SplitLayout(c.destination, f, m, perms, keyPerms);
    SplitLayoutFiles(c.destination, f, m, perms, keyPerms);
    if f.cert != "" {
      HeldMember(w, files, SlotFile(FileIn(c.destination, f.cert), m.cert, perms));
      ResolvedPerms(c, perms, w, FileIn(c.destination, f.cert), m.cert, host);
    }
    if f.key != "" {
      HeldMember(w, files, SlotFile(FileIn(c.destination, f.key), m.key, keyPerms));
      ResolvedKeyPerms(c, perms, w, FileIn(c.destination, f.key), m.key, host);
    }
    if f.ca != "" {
      HeldMember(w, files, SlotFile(FileIn(c.destination, f.ca), m.ca, perms));
      ResolvedPerms(c, perms, w, FileIn(c.destination, f.ca), m.ca, host);
    }
    if f.fullchain != "" {
      HeldMember(w, files, SlotFile(FileIn(c.destination, f.fullchain), m.cert + m.ca, perms));
      ResolvedPerms(c, perms, w, FileIn(c.destination, f.fullchain), m.cert + m.ca, host);
    }
  }

  lemma HeldMember(w: World, files: seq<SlotFile>, f: SlotFile)
    requires Commit.AllHeld(w, files) && f in files
    ensures Holds(w, f.path, f.content, f.perms)
  {
    var i :| 0 <= i < |files| && files[i] == f;
    assert Holds(w, files[i].path, files[i].content, files[i].perms);
  }

  // ---------------------------------------------------- reading it back

  // The calls the audit and the leaf check make on the certificate's files.
  predicate AuditReadable(c: CertConfig, o: Oracle) {
    forall p <- CertPaths(c) :: Readable(o, p, Audit) && Readable(o, p, LeafRead)
  }

  // A certificate that parses, is above the threshold and, for Let's Encrypt,
  // carries the expected names.
  predicate FreshLeaf(c: CertConfig, der: bytes, now: int, threshold: real, host: Host) {
    && host.parseCertificate(der).Some?
    && var leaf := host.parseCertificate(der).value;
       && !Ttl.Due(leaf.notBefore, leaf.notAfter, now, threshold)
       && (c.source == SOURCE_LETSENCRYPT ==> !AltNamesDiffer(c, leaf))
  }

  // A fresh leaf, and a chain where a fullchain file is declared.
  predicate Fresh(c: CertConfig, der: bytes, chain: seq<bytes>, now: int, threshold: real, host: Host) {
    && (c.format == FORMAT_SPLIT && c.files.Some? && c.files.value.fullchain != "" ==> chain != [])
    && FreshLeaf(c, der, now, threshold, host)
  }

  lemma ContentRead(w: World, p: Path, content: bytes, phase: Phase, o: Oracle)
    requires HasContent(w, p, content) && Readable(o, p, phase)
    ensures ReadRegular(w, p, phase, o) == Success(content)
    ensures OpenRegular(w, p, phase, o).Success?
  {
  }

  lemma WrittenSlot(w: World, p: Path, content: bytes, o: Oracle)
    requires HasContent(w, p, content) && Readable(o, p, Audit)
    ensures CheckExists(w, p, o)
    ensures AuditedLeafOnly(w, p, o) <==> LeafOnly(content)
    ensures AuditedLeafPlusChain(w, p, o) <==> LeafPlusChain(content)
  {
    ContentRead(w, p, content, Audit, o);
  }

  lemma SlotsAudit(w: World, c: CertConfig, mc: Material, mk: Material, ma: Material, mf: Material,
                   leafC: bytes, chainC: seq<bytes>, leafF: bytes, chainF: seq<bytes>, o: Oracle, host: Host)
    requires c.format == FORMAT_SPLIT && SlotsFrom(w, c, mc, mk, ma, mf) && AuditReadable(c, o)
    requires Presents(mc, leafC, chainC) && Presents(mf, leafF, chainF)
    ensures AuditPasses(w, c, o) <==> (c.files.value.fullchain != "" ==> chainF != [])
  {
    var f := c.files.value;
    SlotShapes(mc, leafC, chainC, host);
    SlotShapes(mf, leafF, chainF, host);
    SlotPaths(c);
    if f.cert != "" { WrittenSlot(w, FileIn(c.destination, f.cert), mc.cert, o); }
    if f.key != "" { WrittenSlot(w, FileIn(c.destination, f.key), mk.key, o); }
    if f.ca != "" { WrittenSlot(w, FileIn(c.destination, f.ca), ma.ca, o); }
    if f.fullchain != "" { WrittenSlot(w, FileIn(c.destination, f.fullchain), mf.cert + mf.ca, o); }
  }

  lemma SlotsLeaf(w: World, c: CertConfig, mc: Material, mk: Material, ma: Material, mf: Material,
                  leafC: bytes, chainC: seq<bytes>, leafF: bytes, chainF: seq<bytes>, o: Oracle, host: Host)
    requires ValidCert(c, host) && c.format == FORMAT_SPLIT
    requires SlotsFrom(w, c, mc, mk, ma, mf) && AuditReadable(c, o)
    requires Presents(mc, leafC, chainC) && Presents(mf, leafF, chainF)
    ensures ResolveLeafPath(c).Some?
    ensures LoadLeaf(w, ResolveLeafPath(c).value, o, host)
         == ParseLeaf(if c.files.value.cert != "" then leafC else leafF, host)
  {
    var f := c.files.value;
    SlotShapes(mc, leafC, chainC, host);
    SlotShapes(mf, leafF, chainF, host);
    SlotPaths(c);
    if f.cert != "" {
      ContentRead(w, FileIn(c.destination, f.cert), mc.cert, LeafRead, o);
    } else {
      ContentRead(w, FileIn(c.destination, f.fullchain), mf.cert + mf.ca, LeafRead, o);
    }
  }

  lemma SkipsWhenFresh(c: CertConfig, leaf: Leaf, now: int, threshold: real)
    ensures DecideLeaf(c, leaf, now, threshold) == Skip <==>
      && !Ttl.Due(leaf.notBefore, leaf.notAfter, now, threshold)
      && (c.source == SOURCE_LETSENCRYPT ==> !AltNamesDiffer(c, leaf))
  {
  }

  // What is decided once the leaf file holds a given certificate first.
  lemma DecisionOfLeaf(w: World, c: CertConfig, der: bytes, now: int, o: Oracle, opts: Options, host: Host)
    requires !opts.force && ResolveLeafPath(c).Some?
    requires LoadLeaf(w, ResolveLeafPath(c).value, o, host) == ParseLeaf(der, host)
    ensures Decide(w, c, now, o, opts, host) == Skip <==>
      && AuditPasses(w, c, o) && host.parseCertificate(der).Some?
      && DecideLeaf(c, host.parseCertificate(der).value, now, opts.threshold) == Skip
  {
  }

  // Slots of different materials, whatever brought them together: the leaf
  // file decides about the lifetime, the fullchain file about the chain, and
  // nothing compares either of them with the key or the ca file.
  lemma MixedDecision(w: World, c: CertConfig, mc: Material, mk: Material, ma: Material, mf: Material,
                      leafC: bytes, chainC: seq<bytes>, leafF: bytes, chainF: seq<bytes>,
                      now: int, o: Oracle, opts: Options, host: Host)
    requires ValidCert(c, host) && c.format == FORMAT_SPLIT
    requires SlotsFrom(w, c, mc, mk, ma, mf) && AuditReadable(c, o) && !opts.force
    requires Presents(mc, leafC, chainC) && Presents(mf, leafF, chainF)
    ensures Decide(w, c, now, o, opts, host) == Skip <==>
            Fresh(c, if c.files.value.cert != "" then leafC else leafF, chainF, now, opts.threshold, host)
  {
    var der := if c.files.value.cert != "" then leafC else leafF;
    SlotsAudit(w, c, mc, mk, ma, mf, leafC, chainC, leafF, chainF, o, host);
    SlotsLeaf(w, c, mc, mk, ma, mf, leafC, chainC, leafF, chainF, o, host);
    DecisionOfLeaf(w, c, der, now, o, opts, host);
    if host.parseCertificate(der).Some? {
      SkipsWhenFresh(c, host.parseCertificate(der).value, now, opts.threshold);
    }
  }

  // What the audit demands of the blocks of the certificate and chain blobs.
  predicate ShapesFit(f: FilesBlock, cert: seq<Pem.Block>, ca: seq<Pem.Block>) {
    && (f.cert != "" ==> LeafFirst(cert) && CertCount(cert) == 1)
    && (f.fullchain != "" ==> LeafFirst(cert + ca) && CertCount(cert + ca) >= 2)
  }

  lemma BlobAudit(w: World, c: CertConfig, m: Material, o: Oracle)
    requires c.format == FORMAT_SPLIT && SlotsFrom(w, c, m, m, m, m) && AuditReadable(c, o)
    requires Pem.Blocks(m.cert + m.ca) == Pem.Blocks(m.cert) + Pem.Blocks(m.ca)
    ensures AuditPasses(w, c, o) <==> ShapesFit(c.files.value, Pem.Blocks(m.cert), Pem.Blocks(m.ca))
  {
    var f := c.files.value;
    SlotPaths(c);
    if f.cert != "" { WrittenSlot(w, FileIn(c.destination, f.cert), m.cert, o); }
    if f.key != "" { WrittenSlot(w, FileIn(c.destination, f.key), m.key, o); }
    if f.ca != "" { WrittenSlot(w, FileIn(c.destination, f.ca), m.ca, o); }
    if f.fullchain != "" { WrittenSlot(w, FileIn(c.destination, f.fullchain), m.cert + m.ca, o); }
  }

  lemma BlobLeaf(w: World, c: CertConfig, m: Material, o: Oracle, host: Host)
    requires ValidCert(c, host) && c.format == FORMAT_SPLIT && SlotsFrom(w, c, m, m, m, m) && AuditReadable(c, o)
    requires Pem.Blocks(m.cert + m.ca) == Pem.Blocks(m.cert) + Pem.Blocks(m.ca)
    requires ShapesFit(c.files.value, Pem.Blocks(m.cert), Pem.Blocks(m.ca))
    ensures var bs := Pem.Blocks(m.cert) + Pem.Blocks(m.ca);
      && ResolveLeafPath(c).Some? && bs != []
      && LoadLeaf(w, ResolveLeafPath(c).value, o, host) == ParseLeaf(bs[0].der, host)
  {
    SlotPaths(c);
    if c.files.value.cert != "" {
      ContentRead(w, FileIn(c.destination, c.files.value.cert), m.cert, LeafRead, o);
      FirstOfBlocks(m.cert, host);
    } else {
      ContentRead(w, FileIn(c.destination, c.files.value.fullchain), m.cert + m.ca, LeafRead, o);
      FirstOfBlocks(m.cert + m.ca, host);
    }
  }

  // The skip condition for any material, well-formed or not, whose seam joins:
  // the blocks have the shapes the declared slots demand, and the first of
  // them is fresh.
  lemma BlobDecision(w: World, c: CertConfig, m: Material, now: int, o: Oracle, opts: Options, host: Host)
    requires ValidCert(c, host) && c.format == FORMAT_SPLIT && WrittenWith(w, c, m, host)
    requires Pem.Closed(m.cert) && Pem.Joins(m.cert, m.ca)
    requires AuditReadable(c, o) && !opts.force
    ensures var bs := Pem.Blocks(m.cert) + Pem.Blocks(m.ca);
      Decide(w, c, now, o, opts, host) == Skip <==>
        && ShapesFit(c.files.value, Pem.Blocks(m.cert), Pem.Blocks(m.ca))
        && bs != [] && FreshLeaf(c, bs[0].der, now, opts.threshold, host)
  {
    WrittenContents(w, c, m, host);
    Pem.BlocksAppend(m.cert, m.ca);
    BlobAudit(w, c, m, o);
    if ShapesFit(c.files.value, Pem.Blocks(m.cert), Pem.Blocks(m.ca)) {
      var der := (Pem.Blocks(m.cert) + Pem.Blocks(m.ca))[0].der;
      BlobLeaf(w, c, m, o, host);
      DecisionOfLeaf(w, c, der, now, o, opts, host);
      if host.parseCertificate(der).Some? {
        SkipsWhenFresh(c, host.parseCertificate(der).value, now, opts.threshold);
      }
    }
  }

  // So where a cert slot is declared, a certificate field that holds two
  // certificates makes every run fetch.
  lemma TwoCertificatesFetch(w: World, c: CertConfig, m: Material, now: int, o: Oracle, opts: Options, host: Host)
    requires ValidCert(c, host) && c.format == FORMAT_SPLIT && WrittenWith(w, c, m, host)
    requires Pem.Closed(m.cert) && Pem.Joins(m.cert, m.ca)
    requires AuditReadable(c, o) && c.files.value.cert != "" && CertCount(Pem.Blocks(m.cert)) >= 2
    ensures Decide(w, c, now, o, opts, host) != Skip
  {
    if !opts.force {
      BlobDecision(w, c, m, now, o, opts, host);
    }
  }

  // ------------------------------------------------------ combined layout

  // The part whose first block is the first block of the bundle: an empty
  // chain in front of the others is passed over.
  function WatchedPart(layout: seq<Part>, chain: seq<bytes>): Part
    requires |layout| == 3
  {
    if layout[0] == ChainPart && chain == [] then layout[1] else layout[0]
  }

  // What the first part, or the first two, must be like for that: chain text
  // without a certificate is no unfinished block, a key is a block.
  predicate PartsRead(layout: seq<Part>, m: Material, chain: seq<bytes>)
    requires |layout| == 3
  {
    && (layout[0] == ChainPart && chain == [] ==> Pem.Finished(m.ca))
    && (WatchedPart(layout, chain) == KeyPart ==> Pem.Blocks(m.key) != [] && !Pem.Blocks(m.key)[0].IsCertificate())
  }

  lemma ThreeParts(layout: seq<Part>, m: Material)
    requires |layout| == 3
    ensures Concatenated(layout, m) == Blob(layout[0], m) + (Blob(layout[1], m) + Blob(layout[2], m))
  {
    assert layout[..2][..1] == layout[..1] && layout[..1][..0] == [];
    assert Concatenated(layout[..1], m) == Blob(layout[0], m);
    Associative(Blob(layout[0], m), Blob(layout[1], m), Blob(layout[2], m));
  }

  lemma FirstBlockAppend(s: bytes, t: bytes)
    requires Pem.Closed(s) && Pem.Blocks(s) != []
    ensures Pem.Blocks(s + t) != [] && Pem.Blocks(s + t)[0] == Pem.Blocks(s)[0]
  {
    Pem.DecodeAppend(s, t);
  }

  predicate OrderReads(order: string, m: Material, chain: seq<bytes>) {
    LayoutOf(order).Some? && |LayoutOf(order).value| == 3 && PartsRead(LayoutOf(order).value, m, chain)
  }

  // The first block of the whole is the first block of the watched part.
  lemma ConcatenatedFirst(layout: seq<Part>, m: Material, leaf: bytes, chain: seq<bytes>)
    requires |layout| == 3 && layout[0] != layout[1]
    requires Presents(m, leaf, chain) && PartsRead(layout, m, chain)
    ensures var watched := Pem.Blocks(Blob(WatchedPart(layout, chain), m));
      var all := Pem.Blocks(Concatenated(layout, m));
      watched != [] && all != [] && all[0] == watched[0]
  {
    var a, b, c := Blob(layout[0], m), Blob(layout[1], m), Blob(layout[2], m);
    ThreeParts(layout, m);
    if layout[0] == ChainPart && chain == [] {
      Pem.BlocksAppend(a, b + c);
      FirstBlockAppend(b, c);
    } else {
      FirstBlockAppend(a, b + c);
    }
  }

  // Which of the configurable orders start with which part.
  lemma OrdersByFirstPart(order: string)
    requires order == "" || order in BUNDLE_ORDERS
    ensures LayoutOf(order).Some? && |LayoutOf(order).value| == 3
    ensures LayoutOf(order).value[0] == CertPart <==> order in {"", CERT_CHAIN_KEY, CERT_KEY_CHAIN}
    ensures LayoutOf(order).value[0] == ChainPart <==> order in {CHAIN_CERT_KEY, CHAIN_KEY_CERT}
    ensures LayoutOf(order).value[0] == KeyPart <==> order in {KEY_CERT_CHAIN, KEY_CHAIN_CERT}
  {
    assert CERT_CHAIN_KEY[1] == 'e' && CERT_KEY_CHAIN[1] == 'e' && CERT_CHAIN_KEY[0] == 'c' && CERT_KEY_CHAIN[0] == 'c';
    assert CHAIN_CERT_KEY[1] == 'h' && CHAIN_KEY_CERT[1] == 'h';
    assert KEY_CERT_CHAIN[0] == 'k' && KEY_CHAIN_CERT[0] == 'k';
    assert CERT_CHAIN_KEY[5] == 'c' && CERT_KEY_CHAIN[5] == 'k';
    assert CHAIN_CERT_KEY[6] == 'c' && CHAIN_KEY_CERT[6] == 'k';
    assert KEY_CERT_CHAIN[5] == 'e' && KEY_CHAIN_CERT[5] == 'h';
  }

  // The certificate taken for the leaf of a bundle, by order; none when a key
  // comes first.
  function WatchedDer(order: string, leaf: bytes, chain: seq<bytes>): Option<bytes> {
    if order in {"", CERT_CHAIN_KEY, CERT_KEY_CHAIN} then Some(leaf)
    else if order in {CHAIN_CERT_KEY, CHAIN_KEY_CERT} && chain != [] then Some(chain[0])
    else if order == CHAIN_CERT_KEY then Some(leaf)
    else None
  }

  // Which order puts the certificate second.
  lemma OrderOfSecond(order: string)
    requires order in {CHAIN_CERT_KEY, CHAIN_KEY_CERT}
    ensures LayoutOf(order).value[1] == if order == CHAIN_CERT_KEY then CertPart else KeyPart
  {
    assert order != "" && order != CERT_CHAIN_KEY && order != CERT_KEY_CHAIN && order != KEY_CERT_CHAIN
        && order != KEY_CHAIN_CERT by {
      assert CERT_CHAIN_KEY[1] == 'e' && CERT_KEY_CHAIN[1] == 'e';
      assert CHAIN_CERT_KEY[1] == 'h' && CHAIN_KEY_CERT[1] == 'h';
      assert KEY_CERT_CHAIN[0] == 'k' && KEY_CHAIN_CERT[0] == 'k';
    }
    assert CHAIN_CERT_KEY[6] == 'c' && CHAIN_KEY_CERT[6] == 'k';
  }

  lemma WatchedByOrder(order: string, leaf: bytes, chain: seq<bytes>)
    requires order == "" || order in BUNDLE_ORDERS
    ensures LayoutOf(order).Some? && |LayoutOf(order).value| == 3
    ensures WatchedDer(order, leaf, chain) ==
      match WatchedPart(LayoutOf(order).value, chain)
      case CertPart => Some(leaf)
      case ChainPart => if chain == [] then None else Some(chain[0])
      case KeyPart => None
  {
    OrdersByFirstPart(order);
    if order in {CHAIN_CERT_KEY, CHAIN_KEY_CERT} {
      OrderOfSecond(order);
    }
  }

  // The first block of the watched part.
  lemma WatchedBlock(layout: seq<Part>, m: Material, leaf: bytes, chain: seq<bytes>)
    requires |layout| == 3 && layout[0] != layout[1]
    requires Presents(m, leaf, chain) && PartsRead(layout, m, chain)
    ensures var b := Pem.Blocks(Blob(WatchedPart(layout, chain), m));
      match WatchedPart(layout, chain)
      case CertPart => b != [] && b[0] == Pem.Block(Pem.CERTIFICATE, leaf)
      case ChainPart => chain != [] && b != [] && b[0] == Pem.Block(Pem.CERTIFICATE, chain[0])
      case KeyPart => b != [] && !b[0].IsCertificate()
  {
    if chain != [] {
      assert Certs(chain)[0] == Pem.Block(Pem.CERTIFICATE, chain[0]);
    }
  }

  // What the renewer takes for the leaf of a bundle.
  lemma BundleLeaf(layout: seq<Part>, m: Material, leaf: bytes, chain: seq<bytes>, host: Host)
    requires |layout| == 3 && layout[0] != layout[1]
    requires Presents(m, leaf, chain) && PartsRead(layout, m, chain)
    ensures FirstLeaf(Concatenated(layout, m), host) ==
      match WatchedPart(layout, chain)
      case CertPart => ParseLeaf(leaf, host)
      case ChainPart => if chain == [] then Failure(WrongBlockType) else ParseLeaf(chain[0], host)
      case KeyPart => Failure(WrongBlockType)
  {
    WatchedBlock(layout, m, leaf, chain);
    ConcatenatedFirst(layout, m, leaf, chain);
    FirstOfBlocks(Concatenated(layout, m), host);
  }

  // The combined layout, characterised: what `loadLeaf` reads back from a
  // written bundle under each of the orders.
  lemma CombinedLeaf(w: World, c: CertConfig, m: Material, leaf: bytes, chain: seq<bytes>, o: Oracle, host: Host)
    requires ValidCert(c, host) && c.format == FORMAT_COMBINED
    requires WrittenWith(w, c, m, host) && AuditReadable(c, o)
    requires Presents(m, leaf, chain) && OrderReads(c.bundleOrder, m, chain)
    ensures ResolveLeafPath(c).Some?
    ensures LoadLeaf(w, ResolveLeafPath(c).value, o, host) ==
      match WatchedDer(c.bundleOrder, leaf, chain)
      case Some(der) => ParseLeaf(der, host)
      case None => Failure(WrongBlockType)
  {
    OrdersByFirstPart(c.bundleOrder);
    WrittenContents(w, c, m, host);
    var layout := LayoutOf(c.bundleOrder).value;
    OrderParts(c.bundleOrder);
    ContentRead(w, Place(c.destination), Concatenated(layout, m), LeafRead, o);
    BundleLeaf(layout, m, leaf, chain, host);
    WatchedByOrder(c.bundleOrder, leaf, chain);
  }

  lemma OrderParts(order: string)
    requires order == "" || order in BUNDLE_ORDERS
    ensures LayoutOf(order).Some? && |LayoutOf(order).value| == 3
    ensures LayoutOf(order).value[0] != LayoutOf(order).value[1]
  {
    OrderNamesParts(if order == "" then DEFAULT_BUNDLE_ORDER else order);
  }

  lemma CombinedAudit(w: World, c: CertConfig, o: Oracle)
    requires c.format == FORMAT_COMBINED
    ensures AuditPasses(w, c, o)
  {
    assert FORMAT_COMBINED[0] != FORMAT_SPLIT[0];
  }

  lemma UnloadableFetches(w: World, c: CertConfig, now: int, o: Oracle, opts: Options, host: Host)
    requires ResolveLeafPath(c).Some? && LoadLeaf(w, ResolveLeafPath(c).value, o, host).Failure?
    ensures Decide(w, c, now, o, opts, host) != Skip
  {
  }

  lemma CombinedDecisionOf(w: World, c: CertConfig, der: bytes, chain: seq<bytes>,
                           now: int, o: Oracle, opts: Options, host: Host)
    requires c.format == FORMAT_COMBINED && ResolveLeafPath(c).Some? && !opts.force
    requires LoadLeaf(w, ResolveLeafPath(c).value, o, host) == ParseLeaf(der, host)
    ensures Decide(w, c, now, o, opts, host) == Skip <==> Fresh(c, der, chain, now, opts.threshold, host)
  {
    CombinedAudit(w, c, o);
    DecisionOfLeaf(w, c, der, now, o, opts, host);
    assert FORMAT_COMBINED[0] != FORMAT_SPLIT[0];
    if host.parseCertificate(der).Some? {
      SkipsWhenFresh(c, host.parseCertificate(der).value, now, opts.threshold);
    }
  }

  // The decision about a bundle: a skip exactly while the watched certificate
  // is fresh.  That is the leaf under a leaf-first order, the first chain
  // certificate under a chain-first one; under a key-first order, or when an
  // empty chain lets the key come first, every run fetches.
  lemma CombinedDecision(w: World, c: CertConfig, m: Material, leafDer: bytes, chain: seq<bytes>,
                         now: int, o: Oracle, opts: Options, host: Host)
    requires ValidCert(c, host) && c.format == FORMAT_COMBINED
    requires WrittenWith(w, c, m, host) && AuditReadable(c, o) && !opts.force
    requires Presents(m, leafDer, chain) && OrderReads(c.bundleOrder, m, chain)
    ensures Decide(w, c, now, o, opts, host) == Skip <==>
      && WatchedDer(c.bundleOrder, leafDer, chain).Some?
      && Fresh(c, WatchedDer(c.bundleOrder, leafDer, chain).value, chain, now, opts.threshold, host)
  {
    CombinedLeaf(w, c, m, leafDer, chain, o, host);
    if WatchedDer(c.bundleOrder, leafDer, chain).Some? {
      CombinedDecisionOf(w, c, WatchedDer(c.bundleOrder, leafDer, chain).value, chain, now, o, opts, host);
    } else {
      UnloadableFetches(w, c, now, o, opts, host);
    }
  }

  // So with a chain-first order an expired leaf is skipped as long as its
  // issuer is fresh.
  lemma ExpiredLeafSkipped(w: World, c: CertConfig, m: Material, leafDer: bytes, chain: seq<bytes>,
                           now: int, o: Oracle, opts: Options, host: Host)
    requires ValidCert(c, host) && c.format == FORMAT_COMBINED && c.bundleOrder in {CHAIN_CERT_KEY, CHAIN_KEY_CERT}
    requires WrittenWith(w, c, m, host) && AuditReadable(c, o) && !opts.force
    requires Presents(m, leafDer, chain) && chain != []
    requires host.parseCertificate(leafDer).Some? && host.parseCertificate(leafDer).value.notAfter <= now
    requires Fresh(c, chain[0], chain, now, opts.threshold, host)
    ensures Decide(w, c, now, o, opts, host) == Skip
  {
    OrdersByFirstPart(c.bundleOrder);
    CombinedDecision(w, c, m, leafDer, chain, now, o, opts, host);
  }

  // --------------------------------------------------------- the fixpoint

  // THE FIXPOINT.  Once material has been written, in any layout in which the
  // leaf comes first, a later decision skips if and only if the certificate is
  // fresh.
  lemma RenewalFixpoint(w: World, c: CertConfig, m: Material, leafDer: bytes, chain: seq<bytes>,
                        now: int, o: Oracle, opts: Options, host: Host)
    requires ValidCert(c, host) && LeafComesFirst(c)
    requires WrittenWith(w, c, m, host) && Presents(m, leafDer, chain)
    requires AuditReadable(c, o) && !opts.force
    ensures Decide(w, c, now, o, opts, host) == Skip <==> Fresh(c, leafDer, chain, now, opts.threshold, host)
  {
    if c.format == FORMAT_SPLIT {
      WrittenContents(w, c, m, host);
      MixedDecision(w, c, m, m, m, m, leafDer, chain, leafDer, chain, now, o, opts, host);
    } else {
      OrdersByFirstPart(c.bundleOrder);
      CombinedDecision(w, c, m, leafDer, chain, now, o, opts, host);
    }
  }

  // From the plugin's bundle to the skip, through the bytes on disk.
  lemma LetsencryptFixpoint(w: World, c: CertConfig, bundle: bytes, key: bytes,
                            leafDer: bytes, chain: seq<bytes>,
                            now: int, o: Oracle, opts: Options, host: Host)
    requires ValidCert(c, host) && LeafComesFirst(c)
    requires Pem.Blocks(bundle) == [Pem.Block(Pem.CERTIFICATE, leafDer)] + Certs(chain)
    requires SplitOf(Pem.Blocks(bundle)).Success? ==>
      var s := SplitOf(Pem.Blocks(bundle)).value;
      WrittenWith(w, c, Material(s.leaf, EnsureNewline(key), s.chain), host)
    requires AuditReadable(c, o) && !opts.force
    ensures Decide(w, c, now, o, opts, host) == Skip <==> Fresh(c, leafDer, chain, now, opts.threshold, host)
  {
    LetsencryptPresents(bundle, key, leafDer, chain);
    var s := SplitOf(Pem.Blocks(bundle)).value;
    RenewalFixpoint(w, c, Material(s.leaf, EnsureNewline(key), s.chain), leafDer, chain, now, o, opts, host);
  }

  // From the PKI engine's response to the skip: whatever text surrounds the
  // certificates, as long as no entry leaves a block unfinished that the next
  // one could end.
  lemma PkiFixpoint(w: World, c: CertConfig, cert: bytes, key: bytes, items: seq<bytes>,
                    leafDer: bytes, chain: seq<bytes>,
                    now: int, o: Oracle, opts: Options, host: Host)
    requires ValidCert(c, host) && LeafComesFirst(c)
    requires Pem.Blocks(cert) == [Pem.Block(Pem.CERTIFICATE, leafDer)]
    requires items != [] && BlocksOf(items) == Certs(chain)
    requires SeamsJoin(items) && Pem.Joins(EnsureNewline(cert), EnsureNewline(ChainText(items)))
    requires WrittenWith(w, c, Material(EnsureNewline(cert), EnsureNewline(key), EnsureNewline(ChainText(items))), host)
    requires AuditReadable(c, o) && !opts.force
    ensures Decide(w, c, now, o, opts, host) == Skip <==> Fresh(c, leafDer, chain, now, opts.threshold, host)
  {
    PkiPresents(cert, key, items, leafDer, chain);
    RenewalFixpoint(w, c, Material(EnsureNewline(cert), EnsureNewline(key), EnsureNewline(ChainText(items))),
                    leafDer, chain, now, o, opts, host);
  }

  lemma SkipTouchesNothing(w: World, c: CertConfig, env: Env)
    requires KnownSource(c.source)
    requires Decide(w, c, env.clock(c), env.oracle, env.opts, env.host) == Skip
    ensures ProcessCert(w, c, env) == Processed(w, Skip, Success(Unit), false)
  {
  }

  // Later runs that can read the files and are not forced.
  ghost predicate Calm(c: CertConfig, later: Env, host: Host) {
    later.host == host && AuditReadable(c, later.oracle) && !later.opts.force
  }

  // Written and fresh: a run fetches nothing, reloads nothing and leaves every
  // file as it is.
  lemma WrittenFreshSkips(w: World, c: CertConfig, m: Material, later: Env, host: Host,
                          leafDer: bytes, chain: seq<bytes>)
    requires ValidCert(c, host) && LeafComesFirst(c) && Calm(c, later, host)
    requires WrittenWith(w, c, m, host) && Presents(m, leafDer, chain)
    requires Fresh(c, leafDer, chain, later.clock(c), later.opts.threshold, host)
    ensures ProcessCert(w, c, later) == Processed(w, Skip, Success(Unit), false)
  {
    RenewalFixpoint(w, c, m, leafDer, chain, later.clock(c), later.oracle, later.opts, later.host);
    assert KnownSource(c.source);
    SkipTouchesNothing(w, c, later);
  }

  // Steady state: after a run that fetched and either succeeded or got as far
  // as the reload, a later run that finds the certificate fresh fetches
  // nothing, reloads nothing and leaves every file as it is.
  lemma SteadyState(w: World, c: CertConfig, first: Env, later: Env, leafDer: bytes, chain: seq<bytes>)
    requires ValidCert(c, first.host) && LeafComesFirst(c) && Calm(c, later, first.host)
    requires !first.opts.dryRun && ProcessCert(w, c, first).verdict != Skip
    requires ProcessCert(w, c, first).result.Success? || ProcessCert(w, c, first).reloaded
    requires first.fetch(c).Success? ==> Presents(first.fetch(c).value, leafDer, chain)
    requires Fresh(c, leafDer, chain, later.clock(c), later.opts.threshold, first.host)
    ensures var s := ProcessCert(w, c, first).world;
            ProcessCert(s, c, later) == Processed(s, Skip, Success(Unit), false)
  {
    var m := first.fetch(c).value;
    assert Commit.Write(w, m, c, first.oracle, first.host).result.Success?;
    WriteSettles(w, c, m, first.oracle, first.host);
    WrittenFreshSkips(ProcessCert(w, c, first).world, c, m, later, first.host, leafDer, chain);
  }

  // Every certificate was due, its write succeeded, and what was written is
  // still fresh at a later run.
  ghost predicate Settled(w: World, c: CertConfig, first: Env, later: Env, leafDer: bytes, chain: seq<bytes>) {
    && LeafComesFirst(c) && Calm(c, later, first.host) && !first.opts.dryRun
    && ProcessCert(w, c, first).verdict != Skip
    && (ProcessCert(w, c, first).result.Success? || ProcessCert(w, c, first).reloaded)
    && first.fetch(c).Success? && Presents(first.fetch(c).value, leafDer, chain)
    && Fresh(c, leafDer, chain, later.clock(c), later.opts.threshold, first.host)
  }

  lemma WrittenSame(w: World, s: World, c: CertConfig, m: Material, host: Host)
    requires WrittenWith(w, c, m, host) && Agree(w, s, CertPaths(c))
    ensures WrittenWith(s, c, m, host)
  {
    var start, u :| WrittenFrom(start, u, w, c, m, host);
    assert Agree(u, s, CertPaths(c));
    assert WrittenFrom(start, u, s, c, m, host);
  }

  lemma SettledSkips(w: World, s: World, c: CertConfig, first: Env, later: Env, leafDer: bytes, chain: seq<bytes>)
    requires ValidCert(c, first.host) && Settled(w, c, first, later, leafDer, chain)
    requires Agree(ProcessCert(w, c, first).world, s, CertPaths(c))
    ensures Decide(s, c, later.clock(c), later.oracle, later.opts, later.host) == Skip
  {
    var m := first.fetch(c).value;
    assert Commit.Write(w, m, c, first.oracle, first.host).result.Success?;
    WriteSettles(w, c, m, first.oracle, first.host);
    WrittenSame(ProcessCert(w, c, first).world, s, c, m, first.host);
    RenewalFixpoint(s, c, m, leafDer, chain, later.clock(c), later.oracle, later.opts, later.host);
  }

  // The steady state of a whole run: over certificates with files apart, once
  // each has been written, a later run that finds every one fresh fails
  // nowhere, reloads nothing and leaves every file on the host as it is.
  lemma RunSteadyState(w: World, certs: seq<CertConfig>, first: Env, later: Env,
                       ders: seq<bytes>, chains: seq<seq<bytes>>)
    requires AllApart(certs) && AllValid(certs, first.host) && later.host == first.host
    requires |ders| == |chains| == |certs|
    requires forall i :: 0 <= i < |certs| ==> Settled(w, certs[i], first, later, ders[i], chains[i])
    ensures var s := Run(w, certs, first).world; Run(s, certs, later) == Ran(s, 0, [])
  {
    var s := Run(w, certs, first).world;
    forall i | 0 <= i < |certs|
      ensures Decide(s, certs[i], later.clock(certs[i]), later.oracle, later.opts, later.host) == Skip
    {
      RunIndependent(w, certs, first, i);
      SettledSkips(w, s, certs[i], first, later, ders[i], chains[i]);
    }
    AllSkipped(s, certs, later);
  }

  // So a reload that fails is not tried again: the run fails, and the next one
  // skips without an error.
  lemma FailedReloadForgotten(w: World, c: CertConfig, first: Env, later: Env, leafDer: bytes, chain: seq<bytes>)
    requires ValidCert(c, first.host) && LeafComesFirst(c) && Calm(c, later, first.host)
    requires ProcessCert(w, c, first).reloaded && !first.reload(c)
    requires first.fetch(c).Success? ==> Presents(first.fetch(c).value, leafDer, chain)
    requires Fresh(c, leafDer, chain, later.clock(c), later.opts.threshold, first.host)
    ensures ProcessCert(w, c, first).result == Failure(ReloadFailed)
    ensures var s := ProcessCert(w, c, first).world;
            ProcessCert(s, c, later) == Processed(s, Skip, Success(Unit), false)
  {
    SteadyState(w, c, first, later, leafDer, chain);
  }

  // Nor is one that a process killed after the last commit never reached.
  lemma DeathBeforeReloadForgotten(start: World, s: World, c: CertConfig, first: Env, later: Env,
                                   leafDer: bytes, chain: seq<bytes>)
    requires ValidCert(c, first.host) && LeafComesFirst(c) && Calm(c, later, first.host)
    requires first.fetch(c).Success? && Presents(first.fetch(c).value, leafDer, chain)
    requires Plan(c, first.fetch(c).value, first.host).Success?
    requires var files := Plan(c, first.fetch(c).value, first.host).value;
             Commit.PrefixState(start, s, files, |files|)
    requires Fresh(c, leafDer, chain, later.clock(c), later.opts.threshold, first.host)
    ensures ProcessCert(s, c, later) == Processed(s, Skip, Success(Unit), false)
  {
    assert Agree(s, s, CertPaths(c));
    assert WrittenFrom(start, s, s, c, first.fetch(c).value, first.host);
    WrittenFreshSkips(s, c, first.fetch(c).value, later, first.host, leafDer, chain);
  }

  // One good run settles it: from any state of regular files, a run that
  // fetches while nothing fails but perhaps the reload ends without another
  // error, and every later run that finds the certificate fresh skips and
  // leaves everything alone.
  lemma GoodRunSettles(w: World, c: CertConfig, first: Env, later: Env, leafDer: bytes, chain: seq<bytes>)
    requires ValidCert(c, first.host) && LeafComesFirst(c) && Calm(c, later, first.host)
    requires Commit.Unobstructed(w, c) && AccountsKnown(c, first.host) && !first.opts.dryRun
    requires Commit.Faultless(c, first.oracle)
    requires ProcessCert(w, c, first).verdict != Skip
    requires first.fetch(c).Success? && Presents(first.fetch(c).value, leafDer, chain)
    requires Fresh(c, leafDer, chain, later.clock(c), later.opts.threshold, first.host)
    ensures ProcessCert(w, c, first).result.Success? <==> !ProcessCert(w, c, first).reloaded || first.reload(c)
    ensures var s := ProcessCert(w, c, first).world;
            ProcessCert(s, c, later) == Processed(s, Skip, Success(Unit), false)
  {
    Commit.UnhinderedWrite(w, c, first.fetch(c).value, first.oracle, first.host);
    assert KnownSource(c.source);
    FetchingProcess(w, c, first);
    SteadyState(w, c, first, later, leafDer, chain);
  }

  // ------------------------------------------------------- moved filenames

  // A file that satisfies the cert slot cannot satisfy the fullchain slot, so
  // renaming the slot in the configuration always forces a fetch; and back.
  lemma MovedSlotFetches(w: World, a: CertConfig, b: CertConfig, name: string, now: int,
                         o: Oracle, p: Oracle, opts: Options, host: Host)
    requires a.format == FORMAT_SPLIT && a.files.Some? && b.format == FORMAT_SPLIT && b.files.Some?
    requires a.destination == b.destination && name != ""
    requires a.files.value.cert == name && b.files.value.fullchain == name
    ensures AuditPasses(w, a, o) ==> Decide(w, b, now, p, opts, host) != Skip
    ensures AuditPasses(w, b, o) ==> Decide(w, a, now, p, opts, host) != Skip
  {
    var path := FileIn(a.destination, name);
    if path in w && w[path].File? {
      AuditPartition(w[path].data);
    }
  }

  // ---------------------------------------------------- what a skip leaves

  // Permissions are as configured after an error-free run exactly when the run
  // was to write or they were so before: a skip re-enforces nothing.
  lemma PermsAfterRun(w: World, c: CertConfig, env: Env)
    requires ValidCert(c, env.host) && ProcessCert(w, c, env).result.Success?
    ensures ConfiguredPerms(ProcessCert(w, c, env).world, c, env.host) <==>
      || (Decide(w, c, env.clock(c), env.oracle, env.opts, env.host) != Skip && !env.opts.dryRun)
      || ConfiguredPerms(w, c, env.host)
  {
    if Decide(w, c, env.clock(c), env.oracle, env.opts, env.host) != Skip && !env.opts.dryRun {
      WrittenPerms(w, c, env.fetch(c).value, env.oracle, env.host);
    }
  }

  // The same files with the same bytes, permissions aside.
  ghost predicate SameData(v: World, w: World, p: Path) {
    && (p in v <==> p in w)
    && (p in v ==> v[p] == w[p] || (v[p].File? && w[p].File? && v[p].data == w[p].data))
  }

  lemma ReadSameData(v: World, w: World, p: Path, o: Oracle)
    requires SameData(v, w, p)
    ensures forall phase :: OpenRegular(v, p, phase, o).Success? == OpenRegular(w, p, phase, o).Success?
    ensures forall phase :: ReadRegular(v, p, phase, o) == ReadRegular(w, p, phase, o)
  {
  }

  // The decision is blind to permissions.
  lemma DecideIgnoresPerms(v: World, w: World, c: CertConfig, now: int, o: Oracle, opts: Options, host: Host)
    requires forall p <- CertPaths(c) :: SameData(v, w, p)
    ensures Decide(v, c, now, o, opts, host) == Decide(w, c, now, o, opts, host)
  {
    if c.format == FORMAT_SPLIT && c.files.Some? {
      SlotPaths(c);
      var f := c.files.value;
      if f.cert != "" { ReadSameData(v, w, FileIn(c.destination, f.cert), o); }
      if f.key != "" { ReadSameData(v, w, FileIn(c.destination, f.key), o); }
      if f.ca != "" { ReadSameData(v, w, FileIn(c.destination, f.ca), o); }
      if f.fullchain != "" { ReadSameData(v, w, FileIn(c.destination, f.fullchain), o); }
    }
    assert AuditPasses(v, c, o) == AuditPasses(w, c, o);
    LeafPathOwned(c);
    if ResolveLeafPath(c).Some? {
      ReadSameData(v, w, ResolveLeafPath(c).value, o);
    }
  }

  lemma OtherModeShows(w: World, p: Path, text: string, owner: string, host: Host, mode: nat)
    requires HasPerms(w, p, text, owner, host) && mode != w[p].perms.mode
    ensures !HasPerms(w[p := File(w[p].data, w[p].perms.(mode := mode))], p, text, owner, host)
  {
    ModeMeans(text, w[p].perms.mode);
    ModeMeans(text, mode);
  }

  lemma SlotModeShows(w: World, c: CertConfig, f: FilesBlock, name: string, mode: nat, host: Host)
    requires SplitPerms(w, c, f, host) && name in Slots(f) && name != ""
    requires var p := FileIn(c.destination, name); p in w && w[p].File? && mode != w[p].perms.mode
    ensures var p := FileIn(c.destination, name);
            !SplitPerms(w[p := File(w[p].data, w[p].perms.(mode := mode))], c, f, host)
  {
    var p := FileIn(c.destination, name);
    if name == f.key {
      OtherModeShows(w, p, if c.keyMode != "" then c.keyMode else c.mode,
                     if c.keyOwner != "" then c.keyOwner else c.owner, host, mode);
    } else {
      assert name == f.cert || name == f.ca || name == f.fullchain;
      OtherModeShows(w, p, c.mode, c.owner, host, mode);
    }
  }

  lemma ChangedModeShows(w: World, c: CertConfig, p: Path, mode: nat, host: Host)
    requires ValidCert(c, host) && ConfiguredPerms(w, c, host)
    requires p in CertPaths(c) && p in w && w[p].File? && mode != w[p].perms.mode
    ensures !ConfiguredPerms(w[p := File(w[p].data, w[p].perms.(mode := mode))], c, host)
  {
    if c.format == FORMAT_SPLIT {
      var name :| name in Slots(c.files.value) && name != "" && p == FileIn(c.destination, name);
      SlotModeShows(w, c, c.files.value, name, mode, host);
    } else {
      OtherModeShows(w, p, c.mode, c.owner, host, mode);
    }
  }

  // A file whose mode was changed from outside while the certificate is fresh:
  // the run reports success and the mode stays wrong.
  lemma DriftStays(w: World, c: CertConfig, env: Env, p: Path, mode: nat)
    requires ValidCert(c, env.host) && ConfiguredPerms(w, c, env.host)
    requires Decide(w, c, env.clock(c), env.oracle, env.opts, env.host) == Skip
    requires p in CertPaths(c) && p in w && w[p].File? && mode != w[p].perms.mode
    ensures var v := w[p := File(w[p].data, w[p].perms.(mode := mode))];
      && ProcessCert(v, c, env) == Processed(v, Skip, Success(Unit), false)
      && !ConfiguredPerms(ProcessCert(v, c, env).world, c, env.host)
  {
    var v := w[p := File(w[p].data, w[p].perms.(mode := mode))];
    DecideIgnoresPerms(v, w, c, env.clock(c), env.oracle, env.opts, env.host);
    assert KnownSource(c.source);
    SkipTouchesNothing(v, c, env);
    ChangedModeShows(w, c, p, mode, env.host);
  }

  // ------------------------------------------- interrupted between two files

  function Count(name: string): nat {
    if name == "" then 0 else 1
  }

  // How many of the slots cert, key, ca, fullchain, declared or not, lie
  // before a cut through the list of declared ones.
  function SlotCut(f: FilesBlock, n: nat): (k: nat)
    ensures k <= 4
  {
    if n > Count(f.cert) + Count(f.key) + Count(f.ca) then 4
    else if n > Count(f.cert) + Count(f.key) then 3
    else if n > Count(f.cert) then 2
    else if n > 0 then 1
    else 0
  }

  // A slot before the cut comes from the new material, one behind it from the
  // old.
  function Pick(slot: nat, cut: nat, prev: Material, renewed: Material): Material {
    if slot < cut then renewed else prev
  }

  lemma SplitPositions(dest: string, f: FilesBlock, m: Material, perms: Perms, keyPerms: Perms)
    ensures var files := SplitLayout(dest, f, m, perms, keyPerms);
            var k, a := Count(f.cert), Count(f.cert) + Count(f.key);
            var d := a + Count(f.ca);
      && |files| == d + Count(f.fullchain)
      && (f.cert != "" ==> files[0].path == FileIn(dest, f.cert) && files[0].content == m.cert)
      && (f.key != "" ==> files[k].path == FileIn(dest, f.key) && files[k].content == m.key)
      && (f.ca != "" ==> files[a].path == FileIn(dest, f.ca) && files[a].content == m.ca)
      && (f.fullchain != "" ==> files[d].path == FileIn(dest, f.fullchain) && files[d].content == m.cert + m.ca)
  {
  }

  lemma CutSlot(w: World, s: World, files: seq<SlotFile>, n: nat, i: nat, p: Path, was: bytes)
    requires Commit.CutAt(w, s, files, n) && i < |files| && files[i].path == p && HasContent(w, p, was)
    ensures HasContent(s, p, if i < n then files[i].content else was)
  {
  }

  lemma CutSplit(w: World, s: World, c: CertConfig, f: FilesBlock, prev: Material, renewed: Material,
                 perms: Perms, keyPerms: Perms, n: nat)
    requires c.files == Some(f) && SlotsFrom(w, c, prev, prev, prev, prev)
    requires Commit.CutAt(w, s, SplitLayout(c.destination, f, renewed, perms, keyPerms), n)
    ensures var cut := SlotCut(f, n);
            SlotsFrom(s, c, Pick(0, cut, prev, renewed), Pick(1, cut, prev, renewed),
                      Pick(2, cut, prev, renewed), Pick(3, cut, prev, renewed))
  {
    var files := SplitLayout(c.destination, f, renewed, perms, keyPerms);
    var k, a := Count(f.cert), Count(f.cert) + Count(f.key);
    SplitPositions(c.destination, f, renewed, perms, keyPerms);
    if f.cert != "" { CutSlot(w, s, files, n, 0, FileIn(c.destination, f.cert), prev.cert); }
    if f.key != "" { CutSlot(w, s, files, n, k, FileIn(c.destination, f.key), prev.key); }
    if f.ca != "" { CutSlot(w, s, files, n, a, FileIn(c.destination, f.ca), prev.ca); }
    if f.fullchain != "" {
      CutSlot(w, s, files, n, a + Count(f.ca), FileIn(c.destination, f.fullchain), prev.cert + prev.ca);
    }
  }

  // A cut through the files of a plan, in terms of slots.
  lemma CutSlots(w: World, s: World, c: CertConfig, prev: Material, renewed: Material, host: Host, n: nat)
    requires ValidCert(c, host) && c.format == FORMAT_SPLIT
    requires SlotsFrom(w, c, prev, prev, prev, prev) && Plan(c, renewed, host).Success?
    requires Commit.CutAt(w, s, Plan(c, renewed, host).value, n)
    ensures var cut := SlotCut(c.files.value, n);
            SlotsFrom(s, c, Pick(0, cut, prev, renewed), Pick(1, cut, prev, renewed),
                      Pick(2, cut, prev, renewed), Pick(3, cut, prev, renewed))
  {
    var perms := ResolvePerms(c, host).value;
    CutSplit(w, s, c, c.files.value, prev, renewed, perms, ResolveKeyPerms(c, perms, host).value, n);
  }

  // The next decision after a write that was cut short anywhere, by a failing
  // call or by the death of the process: it skips exactly while the leaf file
  // is fresh by itself, however little of the rest belongs to it.
  lemma InterruptedDecision(w: World, s: World, c: CertConfig, prev: Material, renewed: Material,
                            oldDer: bytes, oldChain: seq<bytes>, newDer: bytes, newChain: seq<bytes>, n: nat,
                            now: int, o: Oracle, opts: Options, host: Host)
    requires ValidCert(c, host) && c.format == FORMAT_SPLIT
    requires WrittenWith(w, c, prev, host) && Plan(c, renewed, host).Success?
    requires Presents(prev, oldDer, oldChain) && Presents(renewed, newDer, newChain)
    requires Commit.CutAt(w, s, Plan(c, renewed, host).value, n)
    requires AuditReadable(c, o) && !opts.force
    ensures var cut := SlotCut(c.files.value, n);
            Decide(s, c, now, o, opts, host) == Skip <==>
            Fresh(c, if (if c.files.value.cert != "" then cut > 0 else cut > 3) then newDer else oldDer,
                  if cut > 3 then newChain else oldChain, now, opts.threshold, host)
  {
    var cut := SlotCut(c.files.value, n);
    WrittenContents(w, c, prev, host);
    CutSlots(w, s, c, prev, renewed, host, n);
    MixedDecision(s, c, Pick(0, cut, prev, renewed), Pick(1, cut, prev, renewed),
                  Pick(2, cut, prev, renewed), Pick(3, cut, prev, renewed),
                  if cut > 0 then newDer else oldDer, if cut > 0 then newChain else oldChain,
                  if cut > 3 then newDer else oldDer, if cut > 3 then newChain else oldChain,
                  now, o, opts, host);
  }

  // Where both a cert and a fullchain file are declared, a write stopped
  // between them leaves the old leaf in the fullchain file, and the runs skip
  // on the new one even when the old one has expired.
  lemma StaleFullchainSkipped(w: World, s: World, c: CertConfig, prev: Material, renewed: Material,
                              oldDer: bytes, oldChain: seq<bytes>, newDer: bytes, newChain: seq<bytes>, n: nat,
                              now: int, o: Oracle, opts: Options, host: Host)
    requires ValidCert(c, host) && c.format == FORMAT_SPLIT
    requires c.files.value.cert != "" && c.files.value.fullchain != "" && 0 < SlotCut(c.files.value, n) < 4
    requires WrittenWith(w, c, prev, host) && Plan(c, renewed, host).Success?
    requires Presents(prev, oldDer, oldChain) && Presents(renewed, newDer, newChain)
    requires Commit.CutAt(w, s, Plan(c, renewed, host).value, n)
    requires AuditReadable(c, o) && !opts.force && Fresh(c, newDer, oldChain, now, opts.threshold, host)
    requires host.parseCertificate(oldDer).Some? && host.parseCertificate(oldDer).value.notAfter <= now
    ensures Decide(s, c, now, o, opts, host) == Skip
    ensures HasContent(s, FileIn(c.destination, c.files.value.fullchain), prev.cert + prev.ca)
    ensures FirstLeaf(prev.cert + prev.ca, host) == ParseLeaf(oldDer, host)
  {
    WrittenContents(w, c, prev, host);
    CutSlots(w, s, c, prev, renewed, host, n);
    SlotShapes(prev, oldDer, oldChain, host);
    InterruptedDecision(w, s, c, prev, renewed, oldDer, oldChain, newDer, newChain, n, now, o, opts, host);
  }

  lemma WayFree(w: World, f: SlotFile, o: Oracle, content: bytes)
    requires HasContent(w, f.path, content) && NoFaults(o, f.path)
    ensures !Commit.Blocked(w, f, o)
  {
  }

  lemma WayBarred(w: World, f: SlotFile, o: Oracle, content: bytes)
    requires HasContent(w, f.path, content) && content != f.content && Commit.WriteFaulty(o, f.path)
    ensures Commit.Blocked(w, f, o)
  {
  }

  lemma CutAtKey(w: World, c: CertConfig, prev: Material, renewed: Material, o: Oracle, host: Host)
    requires ValidCert(c, host) && c.format == FORMAT_SPLIT
    requires c.files.value.cert != "" && c.files.value.key != ""
    requires SlotsFrom(w, c, prev, prev, prev, prev) && renewed.key != prev.key
    requires Plan(c, renewed, host).Success?
    requires NoFaults(o, FileIn(c.destination, c.files.value.cert))
    requires Commit.WriteFaulty(o, FileIn(c.destination, c.files.value.key))
    ensures Commit.FirstBlocked(w, Plan(c, renewed, host).value, o) == 1 < |Plan(c, renewed, host).value|
  {
    var files := Plan(c, renewed, host).value;
    var perms := ResolvePerms(c, host).value;
    SplitPositions(c.destination, c.files.value, renewed, perms, ResolveKeyPerms(c, perms, host).value);
    assert files[1..][0] == files[1];
    WayFree(w, files[0], o, prev.cert);
    WayBarred(w, files[1], o, prev.key);
  }

  // A renewal interrupted between certificate and key: the write fails after
  // the certificate slot has been replaced, and the next decision, finding a
  // fresh certificate, skips and leaves the old key beside it.
  lemma InterruptedRenewalSkipped(w: World, c: CertConfig, prev: Material, renewed: Material,
                                  oldDer: bytes, oldChain: seq<bytes>, newDer: bytes, newChain: seq<bytes>,
                                  interrupted: Oracle, now: int, o: Oracle, opts: Options, host: Host)
    requires ValidCert(c, host) && c.format == FORMAT_SPLIT
    requires c.files.value.cert != "" && c.files.value.key != ""
    requires WrittenWith(w, c, prev, host) && Presents(prev, oldDer, oldChain)
    requires Presents(renewed, newDer, newChain)
    requires renewed.key != prev.key && Plan(c, renewed, host).Success?
    requires MakeDirs(w, TargetDir(c), interrupted).ok
    requires NoFaults(interrupted, FileIn(c.destination, c.files.value.cert))
    requires Commit.WriteFaulty(interrupted, FileIn(c.destination, c.files.value.key))
    requires AuditReadable(c, o) && !opts.force
    requires Fresh(c, newDer, oldChain, now, opts.threshold, host)
    ensures var r := Commit.Write(w, renewed, c, interrupted, host);
      && r.result.Failure?
      && HasContent(r.world, FileIn(c.destination, c.files.value.cert), renewed.cert)
      && HasContent(r.world, FileIn(c.destination, c.files.value.key), prev.key)
      && Decide(r.world, c, now, o, opts, host) == Skip
  {
    var files, s := Plan(c, renewed, host).value, Commit.Write(w, renewed, c, interrupted, host).world;
    WrittenContents(w, c, prev, host);
    CutAtKey(w, c, prev, renewed, interrupted, host);
    Commit.WriteCut(w, renewed, c, interrupted, host);
    CutSlots(w, s, c, prev, renewed, host, 1);
    InterruptedDecision(w, s, c, prev, renewed, oldDer, oldChain, newDer, newChain, 1,
                        now, o, opts, host);
  }
}

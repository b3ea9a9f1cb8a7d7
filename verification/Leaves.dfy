// Which certificate a file holds for its consumers, in every layout, and what
// that has to do with the certificate the renewer looks at.
module Leaves {
  import opened Bytes
  import opened Wrappers
  import opened Hosts
  import opened Paths
  import opened Config
  import opened World
  import opened Sources
  import opened Layout
  import opened Renewer
  import Renewal
  import Commit
  import Pem
  import Ttl

  // ------------------------------------------------------- in a file's text

  function CertBlocks(bs: seq<Pem.Block>): seq<Pem.Block> {
    if bs == [] then []
    else (if bs[0].IsCertificate() then [bs[0]] else []) + CertBlocks(bs[1..])
  }

  lemma {:induction false} CertBlocksAppend(a: seq<Pem.Block>, b: seq<Pem.Block>)
    ensures CertBlocks(a + b) == CertBlocks(a) + CertBlocks(b)
  {
    if a == [] {
      assert a + b == b;
    } else {
      var first := if a[0].IsCertificate() then [a[0]] else [];
      CertBlocksAppend(a[1..], b);
      assert (a + b)[0] == a[0] && (a + b)[1..] == a[1..] + b;
      Associative(first, CertBlocks(a[1..]), CertBlocks(b));
    }
  }

  // The certificate stands in front of its chain.
  predicate LeafBeforeChain(c: CertConfig) {
    c.format == FORMAT_COMBINED ==> c.bundleOrder in {"", CERT_CHAIN_KEY, CERT_KEY_CHAIN, KEY_CERT_CHAIN}
  }

  // The issued certificate in a file: the first one in it, or the last.
  function LeafIn(raw: bytes, c: CertConfig, host: Host): Option<Leaf> {
    var certs := CertBlocks(Pem.Blocks(raw));
    if certs == [] then None
    else host.parseCertificate((if LeafBeforeChain(c) then certs[0] else certs[|certs| - 1]).der)
  }

  // The text planned for the leaf path.
  function LeafText(c: CertConfig, m: Material): bytes {
    if c.format == FORMAT_SPLIT then
      if c.files.Some? && c.files.value.cert != "" then m.cert else m.cert + m.ca
    else if LayoutOf(c.bundleOrder).Some? then Concatenated(LayoutOf(c.bundleOrder).value, m)
    else []
  }

  // One certificate, a chain and a key, each with its blocks finished, so that
  // they can stand in any order.
  predicate Tidy(m: Material) {
    && Pem.Closed(m.cert) && Pem.Closed(m.ca) && Pem.Closed(m.key)
    && Pem.Finished(m.cert) && Pem.Finished(m.ca) && Pem.Finished(m.key)
    && |Pem.Blocks(m.cert)| == 1
    && Pem.Blocks(m.key) != [] && CertBlocks(Pem.Blocks(m.key)) == []
  }

  // Material from which consumers can read the leaf back in this layout.
  predicate Served(c: CertConfig, m: Material, host: Host) {
    && Pem.Closed(m.cert) && FirstLeaf(m.cert, host).Success?
    && (!LeafComesFirst(c) ==> Tidy(m))
  }

  // No chain stands in front of the leaf.
  predicate LeafWatched(c: CertConfig, m: Material) {
    c.format == FORMAT_COMBINED && c.bundleOrder in {CHAIN_CERT_KEY, CHAIN_KEY_CERT} ==> Pem.Blocks(m.ca) == []
  }

  lemma FirstIsCertificate(raw: bytes, host: Host)
    requires FirstLeaf(raw, host).Success?
    ensures Pem.Blocks(raw) != [] && Pem.Blocks(raw)[0].IsCertificate()
    ensures host.parseCertificate(Pem.Blocks(raw)[0].der) == Some(FirstLeaf(raw, host).value)
    ensures CertBlocks(Pem.Blocks(raw)) != [] && CertBlocks(Pem.Blocks(raw))[0] == Pem.Blocks(raw)[0]
  {
    Renewal.FirstOfBlocks(raw, host);
  }

  lemma BlocksOfThree(a: bytes, b: bytes, c: bytes)
    requires Pem.Closed(a) && Pem.Finished(a) && Pem.Closed(b) && Pem.Finished(b)
    ensures Pem.Blocks(a + (b + c)) == Pem.Blocks(a) + (Pem.Blocks(b) + Pem.Blocks(c))
  {
    Pem.BlocksAppend(b, c);
    Pem.BlocksAppend(a, b + c);
  }

  lemma PartFinished(part: Part, m: Material)
    requires Tidy(m)
    ensures Pem.Closed(Blob(part, m)) && Pem.Finished(Blob(part, m))
  {
  }

  lemma BundleBlocks(layout: seq<Part>, m: Material)
    requires |layout| == 3 && Tidy(m)
    ensures Pem.Blocks(Concatenated(layout, m)) ==
      Pem.Blocks(Blob(layout[0], m)) + (Pem.Blocks(Blob(layout[1], m)) + Pem.Blocks(Blob(layout[2], m)))
  {
    Renewal.ThreeParts(layout, m);
    PartFinished(layout[0], m);
    PartFinished(layout[1], m);
    BlocksOfThree(Blob(layout[0], m), Blob(layout[1], m), Blob(layout[2], m));
  }

  lemma {:induction false} BundleCerts(layout: seq<Part>, m: Material)
    requires |layout| == 3 && Tidy(m)
    ensures CertBlocks(Pem.Blocks(Concatenated(layout, m))) ==
      CertBlocks(Pem.Blocks(Blob(layout[0], m)))
      + (CertBlocks(Pem.Blocks(Blob(layout[1], m))) + CertBlocks(Pem.Blocks(Blob(layout[2], m))))
  {
    var a, b, c := Pem.Blocks(Blob(layout[0], m)), Pem.Blocks(Blob(layout[1], m)), Pem.Blocks(Blob(layout[2], m));
    BundleBlocks(layout, m);
    CertBlocksAppend(a, b + c);
    CertBlocksAppend(b, c);
  }

  // The parts of the bundles in which the leaf does not come first.
  lemma LaterOrders(order: string)
    requires order in BUNDLE_ORDERS && order !in {CERT_CHAIN_KEY, CERT_KEY_CHAIN}
    ensures LayoutOf(order) == Some(
      if order == KEY_CERT_CHAIN then [KeyPart, CertPart, ChainPart]
      else if order == KEY_CHAIN_CERT then [KeyPart, ChainPart, CertPart]
      else if order == CHAIN_CERT_KEY then [ChainPart, CertPart, KeyPart]
      else [ChainPart, KeyPart, CertPart])
  {
    assert order != "";
  }

  lemma OneBlockCerts(m: Material, host: Host)
    requires Tidy(m) && FirstLeaf(m.cert, host).Success?
    ensures CertBlocks(Pem.Blocks(m.cert)) == Pem.Blocks(m.cert)
  {
    var bs := Pem.Blocks(m.cert);
    FirstIsCertificate(m.cert, host);
    assert bs == [bs[0]] && bs[1..] == [];
  }

  // The certificates of one part; the key has none.
  function PartCerts(part: Part, m: Material): seq<Pem.Block> {
    match part
    case CertPart => Pem.Blocks(m.cert)
    case ChainPart => CertBlocks(Pem.Blocks(m.ca))
    case KeyPart => []
  }

  lemma CertsOfParts(layout: seq<Part>, m: Material, host: Host)
    requires |layout| == 3 && Tidy(m) && FirstLeaf(m.cert, host).Success?
    ensures CertBlocks(Pem.Blocks(Concatenated(layout, m)))
         == PartCerts(layout[0], m) + (PartCerts(layout[1], m) + PartCerts(layout[2], m))
  {
    BundleCerts(layout, m);
    CertsOfPart(layout[0], m, host);
    CertsOfPart(layout[1], m, host);
    CertsOfPart(layout[2], m, host);
  }

  lemma CertsOfPart(part: Part, m: Material, host: Host)
    requires Tidy(m) && FirstLeaf(m.cert, host).Success?
    ensures CertBlocks(Pem.Blocks(Blob(part, m))) == PartCerts(part, m)
  {
    OneBlockCerts(m, host);
  }

  lemma LeafAtEnd(layout: seq<Part>, m: Material)
    requires |layout| == 3 && |Pem.Blocks(m.cert)| == 1
    ensures var certs := PartCerts(layout[0], m) + (PartCerts(layout[1], m) + PartCerts(layout[2], m));
      && (layout[0] == KeyPart && layout[1] == CertPart ==> certs != [] && certs[0] == Pem.Blocks(m.cert)[0])
      && (layout[2] == CertPart || (layout[1] == CertPart && layout[2] == KeyPart) ==>
            certs != [] && certs[|certs| - 1] == Pem.Blocks(m.cert)[0])
  {
  }

  // The first certificate of the bundle, or the last, is the one issued.
  lemma LaterLeaf(c: CertConfig, m: Material, host: Host)
    requires c.format == FORMAT_COMBINED && !LeafComesFirst(c) && c.bundleOrder in BUNDLE_ORDERS
    requires Served(c, m, host)
    ensures LayoutOf(c.bundleOrder).Some?
    ensures var certs := CertBlocks(Pem.Blocks(Concatenated(LayoutOf(c.bundleOrder).value, m)));
      certs != [] && (if LeafBeforeChain(c) then certs[0] else certs[|certs| - 1]) == Pem.Blocks(m.cert)[0]
  {
    LaterParts(c);
    CertsOfParts(LayoutOf(c.bundleOrder).value, m, host);
    LeafAtEnd(LayoutOf(c.bundleOrder).value, m);
  }

  lemma LaterParts(c: CertConfig)
    requires c.format == FORMAT_COMBINED && !LeafComesFirst(c) && c.bundleOrder in BUNDLE_ORDERS
    ensures LayoutOf(c.bundleOrder).Some? && |LayoutOf(c.bundleOrder).value| == 3
    ensures var layout := LayoutOf(c.bundleOrder).value;
      if LeafBeforeChain(c) then layout[0] == KeyPart && layout[1] == CertPart
      else layout[2] == CertPart || (layout[1] == CertPart && layout[2] == KeyPart)
  {
    LaterOrders(c.bundleOrder);
    LaterBefore(c);
  }

  lemma LaterBefore(c: CertConfig)
    requires c.format == FORMAT_COMBINED && !LeafComesFirst(c)
    ensures LeafBeforeChain(c) <==> c.bundleOrder == KEY_CERT_CHAIN
  {
  }

  // The text planned for the leaf path holds the certificate issued.
  lemma TextLeaf(c: CertConfig, m: Material, host: Host)
    requires ValidCert(c, host) && Served(c, m, host)
    ensures LeafIn(LeafText(c, m), c, host) == Some(FirstLeaf(m.cert, host).value)
  {
    if LeafComesFirst(c) {
      FirstText(c, m, host);
      FirstIsCertificate(LeafText(c, m), host);
    } else {
      LaterTextLeaf(c, m, host);
    }
  }

  lemma LaterTextLeaf(c: CertConfig, m: Material, host: Host)
    requires c.format == FORMAT_COMBINED && !LeafComesFirst(c) && c.bundleOrder in BUNDLE_ORDERS
    requires Served(c, m, host)
    ensures LeafIn(LeafText(c, m), c, host) == Some(FirstLeaf(m.cert, host).value)
  {
    FirstIsCertificate(m.cert, host);
    LaterLeaf(c, m, host);
    BundleText(c, m);
  }

  lemma BundleText(c: CertConfig, m: Material)
    requires c.format == FORMAT_COMBINED && LayoutOf(c.bundleOrder).Some?
    ensures LeafText(c, m) == Concatenated(LayoutOf(c.bundleOrder).value, m)
  {
    assert FORMAT_COMBINED[0] != FORMAT_SPLIT[0];
  }

  lemma FirstLeafPrefix(raw: bytes, more: bytes, host: Host)
    requires Pem.Closed(raw) && FirstLeaf(raw, host).Success?
    ensures FirstLeaf(raw + more, host) == FirstLeaf(raw, host)
  {
    Pem.DecodeAppend(raw, more);
  }

  // Where the leaf comes first, it is what the renewer reads.
  lemma FirstText(c: CertConfig, m: Material, host: Host)
    requires ValidCert(c, host) && LeafComesFirst(c) && Served(c, m, host)
    ensures FirstLeaf(LeafText(c, m), host) == FirstLeaf(m.cert, host)
    ensures LeafBeforeChain(c)
  {
    if c.format == FORMAT_SPLIT {
      FirstLeafPrefix(m.cert, m.ca, host);
      assert FORMAT_COMBINED[0] != FORMAT_SPLIT[0];
    } else {
      Renewal.OrdersByFirstPart(c.bundleOrder);
      var layout := LayoutOf(c.bundleOrder).value;
      Renewal.ThreeParts(layout, m);
      FirstLeafPrefix(m.cert, Blob(layout[1], m) + Blob(layout[2], m), host);
    }
  }

  lemma FirstOfLayout(layout: seq<Part>, m: Material, host: Host)
    requires |layout| == 3 && Tidy(m)
    ensures FirstLeaf(Concatenated(layout, m), host).Success? ==>
      || FirstLeaf(Concatenated(layout, m), host) == FirstLeaf(Blob(layout[0], m), host)
      || (Pem.Blocks(Blob(layout[0], m)) == []
          && FirstLeaf(Concatenated(layout, m), host) == FirstLeaf(Blob(layout[1], m), host))
      || (Pem.Blocks(Blob(layout[0], m)) == [] && Pem.Blocks(Blob(layout[1], m)) == [])
  {
    BundleBlocks(layout, m);
    Renewal.FirstOfBlocks(Concatenated(layout, m), host);
    Renewal.FirstOfBlocks(Blob(layout[0], m), host);
    Renewal.FirstOfBlocks(Blob(layout[1], m), host);
  }

  lemma KeyUnreadable(m: Material, host: Host)
    requires Tidy(m)
    ensures FirstLeaf(m.key, host).Failure?
  {
    KeyNoCertificate(m);
    Renewal.FirstOfBlocks(m.key, host);
  }

  // Where a key comes first, nothing is read; where an empty chain does, the
  // part behind it is.
  lemma LaterText(c: CertConfig, m: Material, host: Host)
    requires c.format == FORMAT_COMBINED && !LeafComesFirst(c) && c.bundleOrder in BUNDLE_ORDERS
    requires Served(c, m, host) && LeafWatched(c, m)
    ensures FirstLeaf(LeafText(c, m), host).Success? ==>
      FirstLeaf(LeafText(c, m), host) == FirstLeaf(m.cert, host)
  {
    LaterOrders(c.bundleOrder);
    var layout := LayoutOf(c.bundleOrder).value;
    assert FORMAT_COMBINED[0] != FORMAT_SPLIT[0];
    assert layout[0] == KeyPart || (layout[0] == ChainPart && Pem.Blocks(m.ca) == [] && layout[1] != ChainPart);
    FirstOfLayout(layout, m, host);
    KeyUnreadable(m, host);
    NoChainUnreadable(m, host);
  }

  lemma NoChainUnreadable(m: Material, host: Host)
    ensures Pem.Blocks(m.ca) == [] ==> FirstLeaf(m.ca, host).Failure?
  {
    Renewal.FirstOfBlocks(m.ca, host);
  }

  lemma KeyNoCertificate(m: Material)
    requires Tidy(m)
    ensures Pem.Blocks(m.key) != [] && !Pem.Blocks(m.key)[0].IsCertificate()
  {
  }

  // Whatever the renewer reads from such a text is the leaf.
  lemma WatchedText(c: CertConfig, m: Material, host: Host)
    requires ValidCert(c, host) && Served(c, m, host) && LeafWatched(c, m)
    ensures FirstLeaf(LeafText(c, m), host).Success? ==>
      FirstLeaf(LeafText(c, m), host) == FirstLeaf(m.cert, host)
  {
    if LeafComesFirst(c) {
      FirstText(c, m, host);
    } else {
      LaterText(c, m, host);
    }
  }

  // ---------------------------------------------------------------- on disk

  // The bytes at the leaf path.
  function LeafData(w: World, c: CertConfig): Option<bytes> {
    match ResolveLeafPath(c)
    case None => None
    case Some(p) => Commit.DataAt(w, p)
  }

  // The certificate consumers find there.
  function DiskLeaf(w: World, c: CertConfig, host: Host): Option<Leaf> {
    match LeafData(w, c)
    case None => None
    case Some(raw) => LeafIn(raw, c, host)
  }

  // It depends on nothing but the certificate's own files.
  lemma LeafDataLocal(v: World, w: World, c: CertConfig)
    requires Agree(v, w, CertPaths(c))
    ensures LeafData(v, c) == LeafData(w, c)
  {
    LeafPathOwned(c);
  }

  // The leaf path holds what some issue has put there.
  ghost predicate Carries(w: World, c: CertConfig, host: Host) {
    exists m :: Served(c, m, host) && LeafWatched(c, m) && LeafData(w, c) == Some(LeafText(c, m))
  }

  // A skip means that the leaf on disk is above the threshold: always where
  // the leaf comes first, and in the other orders for issued material with no
  // chain in front of the leaf.
  lemma SkippedLeaf(w: World, c: CertConfig, now: int, o: Oracle, opts: Options, host: Host)
    requires ValidCert(c, host) && Decide(w, c, now, o, opts, host) == Skip
    requires LeafComesFirst(c) || Carries(w, c, host)
    ensures DiskLeaf(w, c, host).Some?
    ensures var leaf := DiskLeaf(w, c, host).value;
            !Ttl.Due(leaf.notBefore, leaf.notAfter, now, opts.threshold)
  {
    var p := ResolveLeafPath(c).value;
    var leaf := LoadLeaf(w, p, o, host).value;
    Renewal.SkipsWhenFresh(c, leaf, now, opts.threshold);
    var raw := LeafData(w, c).value;
    assert FirstLeaf(raw, host) == Success(leaf);
    if Carries(w, c, host) {
      var m :| Served(c, m, host) && LeafWatched(c, m) && LeafData(w, c) == Some(LeafText(c, m));
      WatchedText(c, m, host);
      TextLeaf(c, m, host);
    } else {
      FirstIsCertificate(raw, host);
      FirstBeforeChain(c);
    }
  }

  lemma FirstBeforeChain(c: CertConfig)
    requires LeafComesFirst(c)
    ensures LeafBeforeChain(c)
  {
  }

  // At any moment of a write the leaf path holds what it held or the new text.
  lemma LeafDuringWrite(w: World, s: World, c: CertConfig, m: Material, o: Oracle, host: Host)
    requires ValidCert(c, host) && Commit.Way(w, s, m, c, o, host)
    ensures LeafData(s, c) in {LeafData(w, c), Some(LeafText(c, m))}
  {
    LeafPathOwned(c);
    if a :| Leads(a, TargetDir(c)) && s == MakeDirs(w, a, o).world {
      Commit.MadePartAside(w, c, a, o, host);
      LeafDataLocal(w, s, c);
    } else {
      var mid, files := MakeDirs(w, TargetDir(c), o).world, Plan(c, m, host).value;
      var i :| Commit.PrefixState(mid, s, files, i);
      LeafTextPlanned(c, m, host);
      Commit.MadeAside(w, c, o, host);
      LeafDataLocal(w, mid, c);
      Commit.OldOrNew(mid, s, files, i, ResolveLeafPath(c).value, LeafText(c, m));
    }
  }

  lemma LeafTextPlanned(c: CertConfig, m: Material, host: Host)
    requires ValidCert(c, host) && Plan(c, m, host).Success?
    ensures ResolveLeafPath(c).Some?
    ensures InPlan(Plan(c, m, host).value, ResolveLeafPath(c).value, LeafText(c, m))
  {
    LeafPathPlanned(c, m, host);
    assert FORMAT_COMBINED[0] != FORMAT_SPLIT[0];
  }

  // A successful write leaves the new text.
  lemma WrittenLeafText(w: World, c: CertConfig, m: Material, o: Oracle, host: Host)
    requires ValidCert(c, host) && Commit.Write(w, m, c, o, host).result.Success?
    ensures LeafData(Commit.Write(w, m, c, o, host).world, c) == Some(LeafText(c, m))
  {
    Commit.WriteSucceeds(w, m, c, o, host);
    var files := Plan(c, m, host).value;
    LeafTextPlanned(c, m, host);
    var i :| 0 <= i < |files| && files[i].path == ResolveLeafPath(c).value && files[i].content == LeafText(c, m);
    assert Holds(Commit.Write(w, m, c, o, host).world, files[i].path, files[i].content, files[i].perms);
  }

  // Every file that holds the leaf.
  function LeafFiles(c: CertConfig): set<Path> {
    if c.format == FORMAT_SPLIT then
      if c.files == None then {}
      else set name | name in [c.files.value.cert, c.files.value.fullchain] && name != "" :: FileIn(c.destination, name)
    else {Place(c.destination)}
  }

  // The leaf path is the only one exactly when not both a cert and a fullchain
  // file are declared.
  lemma LeafFilesExactly(c: CertConfig, host: Host)
    requires ValidCert(c, host)
    ensures ResolveLeafPath(c).Some? && ResolveLeafPath(c).value in LeafFiles(c)
    ensures LeafFiles(c) == {ResolveLeafPath(c).value} <==>
      (c.format == FORMAT_SPLIT ==> c.files.value.cert == "" || c.files.value.fullchain == "")
  {
    if c.format == FORMAT_SPLIT {
      var f := c.files.value;
      SlotsDiffer(f);
      if f.cert != "" && f.fullchain != "" {
        FileInInjective(c.destination, f.cert, f.fullchain);
        assert f.cert in [f.cert, f.fullchain] && f.fullchain in [f.cert, f.fullchain];
        assert FileIn(c.destination, f.fullchain) in LeafFiles(c);
      } else {
        assert f.cert in [f.cert, f.fullchain] && f.fullchain in [f.cert, f.fullchain];
      }
    }
  }
}

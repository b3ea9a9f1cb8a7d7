// The renewal decision and one run over all certificates, over what a reader
// of the file system sees.
module Renewer {
  import opened Bytes
  import opened Wrappers
  import opened Hosts
  import opened Paths
  import opened Config
  import opened World
  import opened Sources
  import opened Layout
  import Commit
  import Pem
  import Ttl
  import Names

  datatype Options = Options(threshold: real, force: bool, dryRun: bool)

  datatype Reason =
    | Forced | SlotShape | NoLeafFile | NoExistingCert | Unparseable
    | Expired | BelowThreshold | AltNamesChanged

  datatype Verdict = Skip | Fetch(reason: Reason)

  // ------------------------------------------------------- file contents

  function CertCount(bs: seq<Pem.Block>): nat {
    if bs == [] then 0
    else CertCount(bs[..|bs| - 1]) + (if bs[|bs| - 1].IsCertificate() then 1 else 0)
  }

  predicate LeafFirst(bs: seq<Pem.Block>) {
    bs != [] && bs[0].IsCertificate()
  }

  // The shape of the cert slot, and of the fullchain slot.
  predicate LeafOnly(raw: bytes) {
    LeafFirst(Pem.Blocks(raw)) && CertCount(Pem.Blocks(raw)) == 1
  }

  predicate LeafPlusChain(raw: bytes) {
    LeafFirst(Pem.Blocks(raw)) && CertCount(Pem.Blocks(raw)) >= 2
  }

  lemma {:induction false} CertCountStep(bs: seq<Pem.Block>, b: Pem.Block)
    ensures CertCount(bs + [b]) == CertCount(bs) + (if b.IsCertificate() then 1 else 0)
  {
    assert (bs + [b])[..|bs|] == bs;
  }

  lemma {:induction false} CertCountGrows(bs: seq<Pem.Block>, cs: seq<Pem.Block>)
    ensures CertCount(bs + cs) >= CertCount(bs)
  {
    if cs == [] {
      assert bs + cs == bs;
    } else {
      var init, last := cs[..|cs| - 1], cs[|cs| - 1];
      CertCountGrows(bs, init);
      calc {
        CertCount(bs + cs);
        { assert cs == init + [last]; Associative(bs, init, [last]); }
        CertCount(bs + init + [last]);
      >= { CertCountStep(bs + init, last); }
        CertCount(bs + init);
      }
    }
  }

  // Exactly one certificate block, and it comes first.
  method CheckLeafOnly(raw: bytes) returns (ok: bool)
    ensures ok <==> LeafOnly(raw)
  {
    var d := Pem.Decode(raw);
    if d == None || !d.value.block.IsCertificate() {
      return false;
    }
    var rest := d.value.rest;
    ghost var seen := [d.value.block];
    CertCountStep([], d.value.block);
    while |rest| > 0
      invariant Pem.Blocks(raw) == seen + Pem.Blocks(rest)
      invariant LeafFirst(seen) && CertCount(seen) == 1
      decreases |rest|
    {
      var next := Pem.Decode(rest);
      if next == None {
        break;
      }
      CertCountStep(seen, next.value.block);
      Associative(seen, [next.value.block], Pem.Blocks(next.value.rest));
      if next.value.block.IsCertificate() {
        CertCountGrows(seen + [next.value.block], Pem.Blocks(next.value.rest));
        return false;
      }
      seen := seen + [next.value.block];
      rest := next.value.rest;
    }
    assert Pem.Blocks(raw) == seen;
    return true;
  }

  // A certificate block first, and at least one more later.
  method CheckLeafPlusChain(raw: bytes) returns (ok: bool)
    ensures ok <==> LeafPlusChain(raw)
  {
    var d := Pem.Decode(raw);
    if d == None || !d.value.block.IsCertificate() {
      return false;
    }
    var rest := d.value.rest;
    ghost var seen := [d.value.block];
    CertCountStep([], d.value.block);
    while |rest| > 0
      invariant Pem.Blocks(raw) == seen + Pem.Blocks(rest)
      invariant LeafFirst(seen) && CertCount(seen) == 1
      decreases |rest|
    {
      var next := Pem.Decode(rest);
      if next == None {
        break;
      }
      CertCountStep(seen, next.value.block);
      Associative(seen, [next.value.block], Pem.Blocks(next.value.rest));
      if next.value.block.IsCertificate() {
        CertCountGrows(seen + [next.value.block], Pem.Blocks(next.value.rest));
        return true;
      }
      seen := seen + [next.value.block];
      rest := next.value.rest;
    }
    assert Pem.Blocks(raw) == seen;
    return false;
  }

  // The two shapes never hold together, and one of them does whenever the
  // first block is a certificate.
  lemma AuditPartition(raw: bytes)
    ensures !(LeafOnly(raw) && LeafPlusChain(raw))
    ensures LeafOnly(raw) || LeafPlusChain(raw) <==> LeafFirst(Pem.Blocks(raw))
  {
    var bs := Pem.Blocks(raw);
    if LeafFirst(bs) {
      assert [bs[0]] + bs[1..] == bs;
      CertCountStep([], bs[0]);
      assert [] + [bs[0]] == [bs[0]];
      CertCountGrows([bs[0]], bs[1..]);
    }
  }

  // ----------------------------------------------------------- the audit

  predicate CheckExists(w: World, p: Path, o: Oracle) {
    OpenRegular(w, p, Audit, o).Success?
  }

  predicate AuditedLeafOnly(w: World, p: Path, o: Oracle) {
    var r := ReadRegular(w, p, Audit, o);
    r.Success? && LeafOnly(r.value)
  }

  predicate AuditedLeafPlusChain(w: World, p: Path, o: Oracle) {
    var r := ReadRegular(w, p, Audit, o);
    r.Success? && LeafPlusChain(r.value)
  }

  // Every declared slot is on disk in the shape its meaning demands.
  predicate AuditPasses(w: World, c: CertConfig, o: Oracle) {
    c.format != FORMAT_SPLIT || c.files == None ||
    var f := c.files.value;
    && (f.cert != "" ==> AuditedLeafOnly(w, FileIn(c.destination, f.cert), o))
    && (f.key != "" ==> CheckExists(w, FileIn(c.destination, f.key), o))
    && (f.ca != "" ==> CheckExists(w, FileIn(c.destination, f.ca), o))
    && (f.fullchain != "" ==> AuditedLeafPlusChain(w, FileIn(c.destination, f.fullchain), o))
  }

  // ------------------------------------------------------------ the leaf

  // The certificate in the first block of a file.
  function FirstLeaf(raw: bytes, host: Host): Result<Leaf, Error> {
    match Pem.Decode(raw)
    case None => Failure(NoPemBlock)
    case Some(d) =>
      if !d.block.IsCertificate() then Failure(WrongBlockType)
      else
        match host.parseCertificate(d.block.der)
        case None => Failure(BadCertificate)
        case Some(leaf) => Success(leaf)
  }

  function LoadLeaf(w: World, p: Path, o: Oracle, host: Host): Result<Leaf, Error> {
    match ReadRegular(w, p, LeafRead, o)
    case Failure(e) => Failure(e)
    case Success(raw) => FirstLeaf(raw, host)
  }

  predicate AltNamesDiffer(c: CertConfig, leaf: Leaf) {
    multiset(Names.ExpectedNames(c.lePath, c.altNames)) != multiset(leaf.dnsNames)
  }

  predicate NoRepeats(names: seq<string>) {
    forall i, j :: 0 <= i < j < |names| ==> names[i] != names[j]
  }

  lemma {:induction false} CountedOnce(names: seq<string>, x: string)
    requires NoRepeats(names)
    ensures multiset(names)[x] == if x in names then 1 else 0
  {
    if names == [] {
    } else {
      var init, last := names[..|names| - 1], names[|names| - 1];
      assert names == init + [last];
      assert forall i, j :: 0 <= i < j < |init| ==> init[i] != init[j];
      CountedOnce(init, x);
    }
  }

  lemma CountedTwice(names: seq<string>, i: nat, j: nat)
    requires i < j < |names| && names[i] == names[j]
    ensures multiset(names)[names[i]] >= 2
  {
    assert names == names[..j] + names[j..];
    assert names[..j][i] == names[i] && names[j..][0] == names[i];
    assert names[i] in names[..j] && names[i] in names[j..];
  }

  // The comparison counts: a certificate that carries exactly the expected
  // names, each once, still differs if and only if the configuration names one
  // of them twice.
  lemma RepeatedNameDiffers(c: CertConfig, leaf: Leaf)
    requires NoRepeats(leaf.dnsNames)
    requires forall x :: x in leaf.dnsNames <==> x in Names.ExpectedNames(c.lePath, c.altNames)
    ensures AltNamesDiffer(c, leaf) <==> !NoRepeats(Names.ExpectedNames(c.lePath, c.altNames))
  {
    var expected := Names.ExpectedNames(c.lePath, c.altNames);
    if NoRepeats(expected) {
      forall x
        ensures multiset(expected)[x] == multiset(leaf.dnsNames)[x]
      {
        CountedOnce(expected, x);
        CountedOnce(leaf.dnsNames, x);
      }
    } else {
      var i, j :| 0 <= i < j < |expected| && expected[i] == expected[j];
      CountedTwice(expected, i, j);
      CountedOnce(leaf.dnsNames, expected[i]);
    }
  }

  // -------------------------------------------------------------- decide

  function DecideLeaf(c: CertConfig, leaf: Leaf, now: int, threshold: real): Verdict {
    if Ttl.Expired(leaf.notBefore, leaf.notAfter, now) then Fetch(Expired)
    else if Ttl.Due(leaf.notBefore, leaf.notAfter, now, threshold) then Fetch(BelowThreshold)
    else if c.source == SOURCE_LETSENCRYPT && AltNamesDiffer(c, leaf) then Fetch(AltNamesChanged)
    else Skip
  }

  function Decide(w: World, c: CertConfig, now: int, o: Oracle, opts: Options, host: Host): Verdict {
    if opts.force then Fetch(Forced)
    else if !AuditPasses(w, c, o) then Fetch(SlotShape)
    else
      match ResolveLeafPath(c)
      case None => Fetch(NoLeafFile)
      case Some(p) =>
        match LoadLeaf(w, p, o, host)
        case Failure(e) => if e == NotExist then Fetch(NoExistingCert) else Fetch(Unparseable)
        case Success(leaf) => DecideLeaf(c, leaf, now, opts.threshold)
  }

  // ------------------------------------------------------------- one run

  // The surroundings of a run: each certificate is fetched, timed and reloaded
  // at most once.
  datatype Env = Env(
    host: Host,
    opts: Options,
    oracle: Oracle,
    clock: CertConfig -> int,
    fetch: CertConfig -> Result<Material, Error>,
    hasReloader: bool,
    reload: CertConfig -> bool)

  // What processing a certificate did.
  datatype Processed = Processed(world: World, verdict: Verdict, result: Result<Unit, Error>, reloaded: bool)

  predicate KnownSource(name: string) {
    name == SOURCE_PKI || name == SOURCE_LETSENCRYPT
  }

  function ProcessCert(w: World, c: CertConfig, env: Env): Processed {
    if !KnownSource(c.source) then Processed(w, Skip, Failure(UnknownSource), false)
    else
      var verdict := Decide(w, c, env.clock(c), env.oracle, env.opts, env.host);
      if verdict == Skip then Processed(w, verdict, Success(Unit), false)
      else if env.opts.dryRun then Processed(w, verdict, Success(Unit), false)
      else
        match env.fetch(c)
        case Failure(e) => Processed(w, verdict, Failure(FetchFailed), false)
        case Success(m) =>
          var written := Commit.Write(w, m, c, env.oracle, env.host);
          if written.result.Failure? then Processed(written.world, verdict, Failure(written.result.error), false)
          else if written.result.value && env.hasReloader then
            Processed(written.world, verdict, if env.reload(c) then Success(Unit) else Failure(ReloadFailed), true)
          else Processed(written.world, verdict, Success(Unit), false)
  }

  // The whole run: final world, number of failed certificates, and the
  // certificates reloaded, in order.
  datatype Ran = Ran(world: World, failures: nat, reloads: seq<CertConfig>)

  function Run(w: World, certs: seq<CertConfig>, env: Env): Ran {
    if certs == [] then Ran(w, 0, [])
    else
      var before := Run(w, certs[..|certs| - 1], env);
      var c := certs[|certs| - 1];
      var p := ProcessCert(before.world, c, env);
      Ran(p.world,
          before.failures + (if p.result.Failure? then 1 else 0),
          before.reloads + (if p.reloaded then [c] else []))
  }

  // --------------------------------------------------- locality and frame

  lemma SlotPaths(c: CertConfig)
    requires c.format == FORMAT_SPLIT && c.files.Some?
    ensures var f := c.files.value;
      && (f.cert != "" ==> FileIn(c.destination, f.cert) in CertPaths(c))
      && (f.key != "" ==> FileIn(c.destination, f.key) in CertPaths(c))
      && (f.ca != "" ==> FileIn(c.destination, f.ca) in CertPaths(c))
      && (f.fullchain != "" ==> FileIn(c.destination, f.fullchain) in CertPaths(c))
  {
    var s := Slots(c.files.value);
    assert s[0] in s && s[1] in s && s[2] in s && s[3] in s;
  }

  lemma LeafPathOwned(c: CertConfig)
    ensures ResolveLeafPath(c).Some? ==> ResolveLeafPath(c).value in CertPaths(c)
  {
    if c.format == FORMAT_SPLIT && c.files.Some? {
      SlotPaths(c);
    }
  }

  lemma ReadLocal(v: World, w: World, p: Path, o: Oracle)
    requires SameAt(v, w, p)
    ensures forall phase :: OpenRegular(v, p, phase, o) == OpenRegular(w, p, phase, o)
    ensures forall phase :: ReadRegular(v, p, phase, o) == ReadRegular(w, p, phase, o)
  {
  }

  lemma AuditLocal(v: World, w: World, c: CertConfig, o: Oracle)
    requires Agree(v, w, CertPaths(c))
    ensures AuditPasses(v, c, o) == AuditPasses(w, c, o)
  {
    if c.format == FORMAT_SPLIT && c.files.Some? {
      SlotPaths(c);
      var f := c.files.value;
      if f.cert != "" { ReadLocal(v, w, FileIn(c.destination, f.cert), o); }
      if f.key != "" { ReadLocal(v, w, FileIn(c.destination, f.key), o); }
      if f.ca != "" { ReadLocal(v, w, FileIn(c.destination, f.ca), o); }
      if f.fullchain != "" { ReadLocal(v, w, FileIn(c.destination, f.fullchain), o); }
    }
  }

  // The decision looks at nothing but the certificate's own files.
  lemma DecideLocal(v: World, w: World, c: CertConfig, now: int, o: Oracle, opts: Options, host: Host)
    requires Agree(v, w, CertPaths(c))
    ensures Decide(v, c, now, o, opts, host) == Decide(w, c, now, o, opts, host)
  {
    AuditLocal(v, w, c, o);
    LeafPathOwned(c);
    if ResolveLeafPath(c).Some? {
      var p := ResolveLeafPath(c).value;
      ReadLocal(v, w, p, o);
      assert LoadLeaf(v, p, o, host) == LoadLeaf(w, p, o, host);
    }
  }

  // Processing a certificate depends on its own files and on which directories
  // above them are there or could be made.
  lemma ProcessLocal(w: World, v: World, c: CertConfig, env: Env)
    requires ValidCert(c, env.host)
    requires Agree(w, v, CertPaths(c)) && Grown(w, v, TargetDir(c), env.oracle)
    ensures var p, q := ProcessCert(w, c, env), ProcessCert(v, c, env);
      && p.verdict == q.verdict && p.result == q.result && p.reloaded == q.reloaded
      && Agree(p.world, q.world, CertPaths(c))
  {
    DecideLocal(v, w, c, env.clock(c), env.oracle, env.opts, env.host);
    var verdict := Decide(w, c, env.clock(c), env.oracle, env.opts, env.host);
    if KnownSource(c.source) && verdict != Skip && !env.opts.dryRun && env.fetch(c).Success? {
      Commit.WriteLocal(w, v, env.fetch(c).value, c, env.oracle, env.host);
      FetchingProcess(v, c, env);
      FetchingProcess(w, c, env);
    }
  }

  // Processing a certificate that is due comes down to writing what was fetched.
  lemma FetchingProcess(w: World, c: CertConfig, env: Env)
    requires KnownSource(c.source) && !env.opts.dryRun && env.fetch(c).Success?
    requires Decide(w, c, env.clock(c), env.oracle, env.opts, env.host) != Skip
    ensures var p := ProcessCert(w, c, env);
      var written := Commit.Write(w, env.fetch(c).value, c, env.oracle, env.host);
      && p.world == written.world
      && p.verdict == Decide(w, c, env.clock(c), env.oracle, env.opts, env.host)
      && p.reloaded == (written.result == Success(true) && env.hasReloader)
      && p.result == match written.result
                     case Failure(e) => Failure(e)
                     case Success(changed) =>
                       if changed && env.hasReloader && !env.reload(c) then Failure(ReloadFailed) else Success(Unit)
  {
  }

  lemma ProcessFrame(w: World, c: CertConfig, env: Env)
    ensures Commit.OnlyOwn(w, ProcessCert(w, c, env).world, c, env.oracle)
  {
    if env.fetch(c).Success? {
      Commit.WriteFrame(w, env.fetch(c).value, c, env.oracle, env.host);
    }
  }

  // -------------------------------------------------------- independence

  // No file of one is a file of the other or lies above one.
  ghost predicate FilesApart(c: CertConfig, d: CertConfig) {
    forall p <- CertPaths(c), q <- CertPaths(d) :: !Leads(p, q) && !Leads(q, p)
  }

  ghost predicate AllApart(certs: seq<CertConfig>) {
    forall i, j :: 0 <= i < j < |certs| ==> FilesApart(certs[i], certs[j])
  }

  predicate AllValid(certs: seq<CertConfig>, host: Host) {
    forall i :: 0 <= i < |certs| ==> ValidCert(certs[i], host)
  }

  // Validation does not keep files apart: any valid certificate can be
  // declared a second time under another name, with the very same files.
  lemma NamesDoNotSeparate(c: CertConfig, other: string, host: Host)
    requires ValidCert(c, host) && other != "" && other != c.name
    ensures var certs := [c, c.(name := other)];
      && DistinctNames(certs) && AllValid(certs, host)
      && CertPaths(certs[0]) == CertPaths(certs[1])
      && ResolveLeafPath(c).Some? && ResolveLeafPath(c).value in CertPaths(certs[0])
      && (ResolveLeafPath(c).value.parts != [] ==> !AllApart(certs))
  {
    var certs := [c, c.(name := other)];
    ValidLeafPath(c, host);
    LeafPathOwned(c);
    LeafPathOwned(certs[1]);
    var p := ResolveLeafPath(c).value;
    assert p in CertPaths(certs[0]) && p in CertPaths(certs[1]);
    assert p.parts != [] ==> Leads(p, p);
    assert 0 <= 0 < 1 < |certs|;
  }

  predicate Foreign(certs: seq<CertConfig>, ps: set<Path>) {
    forall i :: 0 <= i < |certs| ==> CertPaths(certs[i]) !! ps
  }

  // At these paths nothing changes but that directories appear where nothing
  // was.
  ghost predicate OnlyDirs(w: World, s: World, ps: set<Path>) {
    forall p <- ps :: SameAt(w, s, p) || (p !in w && p in s && s[p].Dir?)
  }

  // A run leaves alone whatever none of its certificates owns.
  lemma {:induction false} RunFrame(w: World, certs: seq<CertConfig>, env: Env, ps: set<Path>)
    requires Foreign(certs, ps)
    ensures OnlyDirs(w, Run(w, certs, env).world, ps)
  {
    if certs == [] {
    } else {
      var init, c := certs[..|certs| - 1], certs[|certs| - 1];
      assert forall i :: 0 <= i < |init| ==> init[i] == certs[i];
      RunFrame(w, init, env, ps);
      ProcessFrame(Run(w, init, env).world, c, env);
    }
  }

  lemma OnTop(c: CertConfig, host: Host, a: Path)
    requires ValidCert(c, host) && Leads(a, TargetDir(c))
    ensures exists q :: q in CertPaths(c) && Leads(a, q)
  {
    ValidLeafPath(c, host);
    LeafPathOwned(c);
    ValidBelow(c, host);
    var q := ResolveLeafPath(c).value;
    ParentShorter(q);
    assert Leads(a, q);
  }

  // What happens to one certificate's files and directories does not touch the
  // files of another.
  lemma OthersAside(w: World, s: World, d: CertConfig, c: CertConfig, o: Oracle, host: Host)
    requires ValidCert(d, host) && FilesApart(d, c) && Commit.OnlyOwn(w, s, d, o)
    ensures Agree(w, s, CertPaths(c))
  {
    forall p | p in CertPaths(c)
      ensures SameAt(w, s, p)
    {
      assert p.parts != [] ==> Leads(p, p);
      if Leads(p, TargetDir(d)) {
        OnTop(d, host, p);
      }
    }
  }

  // On the way to them at most directories appear.
  lemma StaysGrown(w: World, u: World, s: World, d: CertConfig, c: CertConfig, o: Oracle, host: Host)
    requires ValidCert(c, host) && FilesApart(d, c) && Commit.OnlyOwn(u, s, d, o)
    requires Grown(w, u, TargetDir(c), o)
    ensures Grown(w, s, TargetDir(c), o)
  {
    forall a | Leads(a, TargetDir(c))
      ensures SameAt(w, s, a) || NewDir(w, s, a, o)
    {
      assert SameAt(w, u, a) || NewDir(w, u, a, o);
      OnTop(c, host, a);
      assert a !in CertPaths(d);
      if !SameAt(u, s, a) {
        GrownBelow(w, u, TargetDir(c), a, o);
        MakeGrown(w, u, a, o);
      }
    }
  }

  lemma GrownBelow(w: World, u: World, d: Path, a: Path, o: Oracle)
    requires Grown(w, u, d, o) && Leads(a, d)
    ensures Grown(w, u, a, o)
  {
    forall b | Leads(b, a)
      ensures SameAt(w, u, b) || NewDir(w, u, b, o)
    {
      LeadsTrans(b, a, d);
    }
  }

  // A run over others leaves a certificate's files alone and the way to them
  // open, or closed, as it was.
  lemma {:induction false} RunGrows(w: World, certs: seq<CertConfig>, env: Env, c: CertConfig)
    requires AllValid(certs, env.host) && ValidCert(c, env.host)
    requires forall i :: 0 <= i < |certs| ==> FilesApart(certs[i], c)
    ensures var u := Run(w, certs, env).world;
      Agree(w, u, CertPaths(c)) && Grown(w, u, TargetDir(c), env.oracle)
  {
    if certs == [] {
    } else {
      var init, d := certs[..|certs| - 1], certs[|certs| - 1];
      var u := Run(w, init, env).world;
      assert forall i :: 0 <= i < |init| ==> init[i] == certs[i];
      RunGrows(w, init, env, c);
      ProcessFrame(u, d, env);
      OthersAside(u, ProcessCert(u, d, env).world, d, c, env.oracle, env.host);
      StaysGrown(w, u, ProcessCert(u, d, env).world, d, c, env.oracle, env.host);
    }
  }

  lemma ApartSides(certs: seq<CertConfig>, i: nat, j: nat)
    requires AllApart(certs) && i < |certs| && j < |certs| && i != j
    ensures FilesApart(certs[i], certs[j])
  {
    assert FilesApart(certs[if i < j then i else j], certs[if i < j then j else i]);
  }

  // What the certificates before one leave of its files and its way.
  lemma RunBefore(w: World, certs: seq<CertConfig>, env: Env, n: nat)
    requires AllApart(certs) && AllValid(certs, env.host) && n < |certs|
    ensures var u := Run(w, certs[..n], env).world; var c := certs[n];
      Agree(w, u, CertPaths(c)) && Grown(w, u, TargetDir(c), env.oracle)
  {
    forall i | 0 <= i < n
      ensures FilesApart(certs[..n][i], certs[n]) && ValidCert(certs[..n][i], env.host)
    {
      ApartSides(certs, i, n);
    }
    RunGrows(w, certs[..n], env, certs[n]);
  }

  // Each certificate's files end up as if it had been processed alone.
  lemma {:induction false} RunIndependent(w: World, certs: seq<CertConfig>, env: Env, i: nat)
    requires AllApart(certs) && AllValid(certs, env.host) && i < |certs|
    ensures Agree(Run(w, certs, env).world, ProcessCert(w, certs[i], env).world, CertPaths(certs[i]))
  {
    var n := |certs| - 1;
    var init, c := certs[..n], certs[n];
    var before := Run(w, init, env).world;
    assert forall j :: 0 <= j < n ==> init[j] == certs[j];
    if i == n {
      RunBefore(w, certs, env, n);
      ProcessLocal(w, before, c, env);
    } else {
      RunIndependent(w, init, env, i);
      ApartSides(certs, n, i);
      ProcessFrame(before, c, env);
      OthersAside(before, ProcessCert(before, c, env).world, c, certs[i], env.oracle, env.host);
    }
  }

  // Alone, this certificate is due and something is fetched for it.
  predicate Fetches(w: World, c: CertConfig, env: Env) {
    && KnownSource(c.source) && !env.opts.dryRun
    && Decide(w, c, env.clock(c), env.oracle, env.opts, env.host) != Skip
  }

  // Alone, this certificate's content changes on disk and is announced.
  predicate ReloadsAlone(w: World, c: CertConfig, env: Env) {
    && Fetches(w, c, env) && env.hasReloader && env.fetch(c).Success?
    && Commit.Write(w, env.fetch(c).value, c, env.oracle, env.host).result == Success(true)
  }

  // Alone, this certificate fails: an unknown source, or a due fetch, its
  // write, or the reload after it.
  predicate FailsAlone(w: World, c: CertConfig, env: Env) {
    || !KnownSource(c.source)
    || (&& Fetches(w, c, env)
        && (|| env.fetch(c).Failure?
            || Commit.Write(w, env.fetch(c).value, c, env.oracle, env.host).result.Failure?))
    || (ReloadsAlone(w, c, env) && !env.reload(c))
  }

  lemma AloneOutcome(w: World, c: CertConfig, env: Env)
    ensures ProcessCert(w, c, env).result.Failure? <==> FailsAlone(w, c, env)
    ensures ProcessCert(w, c, env).reloaded <==> ReloadsAlone(w, c, env)
  {
    if Fetches(w, c, env) && env.fetch(c).Success? {
      FetchingProcess(w, c, env);
    }
  }

  function Failures(w: World, certs: seq<CertConfig>, env: Env): nat {
    if certs == [] then 0
    else Failures(w, certs[..|certs| - 1], env) + (if FailsAlone(w, certs[|certs| - 1], env) then 1 else 0)
  }

  function Reloads(w: World, certs: seq<CertConfig>, env: Env): seq<CertConfig> {
    if certs == [] then []
    else Reloads(w, certs[..|certs| - 1], env)
         + (if ReloadsAlone(w, certs[|certs| - 1], env) then [certs[|certs| - 1]] else [])
  }

  // The exit count is the number of certificates that fail on their own, and
  // the reloads are those of the certificates whose content changed, in
  // configuration order.
  lemma {:induction false} RunCounts(w: World, certs: seq<CertConfig>, env: Env)
    requires AllApart(certs) && AllValid(certs, env.host)
    ensures Run(w, certs, env).failures == Failures(w, certs, env)
    ensures Run(w, certs, env).reloads == Reloads(w, certs, env)
  {
    if certs == [] {
    } else {
      var init, c := certs[..|certs| - 1], certs[|certs| - 1];
      assert forall j :: 0 <= j < |init| ==> init[j] == certs[j];
      RunCounts(w, init, env);
      RunBefore(w, certs, env, |certs| - 1);
      ProcessLocal(w, Run(w, init, env).world, c, env);
      AloneOutcome(w, c, env);
    }
  }

  // A run in which every certificate is skipped does nothing at all.
  lemma {:induction false} AllSkipped(w: World, certs: seq<CertConfig>, env: Env)
    requires AllValid(certs, env.host)
    requires forall i :: 0 <= i < |certs| ==>
      Decide(w, certs[i], env.clock(certs[i]), env.oracle, env.opts, env.host) == Skip
    ensures Run(w, certs, env) == Ran(w, 0, [])
  {
    if certs == [] {
    } else {
      var init := certs[..|certs| - 1];
      assert forall j :: 0 <= j < |init| ==> init[j] == certs[j];
      AllSkipped(w, init, env);
      assert KnownSource(certs[|certs| - 1].source);
    }
  }

  // A forced decision never skips, whatever is on disk.
  lemma ForcedFetches(w: World, c: CertConfig, now: int, o: Oracle, opts: Options, host: Host)
    requires opts.force
    ensures Decide(w, c, now, o, opts, host) != Skip
  {
  }

  // A dry run, even a forced one, leaves every file and directory as it is and
  // reloads nothing.
  lemma DryRunChangesNothing(w: World, c: CertConfig, env: Env)
    requires env.opts.dryRun
    ensures ProcessCert(w, c, env).world == w && !ProcessCert(w, c, env).reloaded
    ensures ProcessCert(w, c, env).result.Failure? <==> !KnownSource(c.source)
  {
  }

  // A regular file at the path, which the two calls could open.
  ghost predicate Opens(w: World, p: Path, phase: Phase, o: Oracle) {
    p.parts != [] && p in w && w[p].File? && !o.faults(p, Open(phase)) && !o.faults(p, Stat(phase))
  }

  lemma OpenedFile(w: World, p: Path, phase: Phase, o: Oracle)
    requires OpenRegular(w, p, phase, o).Success?
    ensures Opens(w, p, phase, o)
  {
  }

  lemma AuditFinds(w: World, c: CertConfig, o: Oracle, name: string)
    requires c.format == FORMAT_SPLIT && c.files.Some? && AuditPasses(w, c, o)
    requires name in Slots(c.files.value) && name != ""
    ensures Opens(w, FileIn(c.destination, name), Audit, o)
  {
    var f := c.files.value;
    assert name == f.cert || name == f.key || name == f.ca || name == f.fullchain;
    OpenedFile(w, FileIn(c.destination, name), Audit, o);
  }

  // A skip means that every file of the certificate is there, as a regular
  // file that could be opened: a slot whose file is missing, a link or
  // anything else makes the run fetch.
  lemma SkipFindsEveryFile(w: World, c: CertConfig, now: int, o: Oracle, opts: Options, host: Host, p: Path)
    requires ValidCert(c, host) && Decide(w, c, now, o, opts, host) == Skip && p in CertPaths(c)
    ensures Opens(w, p, if c.format == "split" then Audit else LeafRead, o)
  {
    if c.format == FORMAT_SPLIT {
      var name :| name in Slots(c.files.value) && name != "" && p == FileIn(c.destination, name);
      AuditFinds(w, c, o, name);
    } else {
      OpenedFile(w, p, LeafRead, o);
    }
  }

  // The names compared are the last name of the configured path, however its
  // slashes are written, and the configured ones.
  lemma AltNamesMean(c: CertConfig, leaf: Leaf, before: string, name: string, n: nat)
    requires c.lePath == before + name + Names.Slashes(n) && NoSlash(name) && name != ""
    requires before == "" || before[|before| - 1] == '/'
    ensures AltNamesDiffer(c, leaf) <==> multiset(leaf.dnsNames) != multiset([name] + c.altNames)
  {
    Names.FqdnIs(c.lePath, before, name, n);
  }

  // So a Let's Encrypt certificate that is skipped carries exactly these names.
  lemma SkippedNames(w: World, c: CertConfig, now: int, o: Oracle, opts: Options, host: Host,
                     before: string, name: string, n: nat)
    requires c.source == "letsencrypt" && Decide(w, c, now, o, opts, host) == Skip
    requires c.lePath == before + name + Names.Slashes(n) && NoSlash(name) && name != ""
    requires before == "" || before[|before| - 1] == '/'
    ensures ResolveLeafPath(c).Some? && LoadLeaf(w, ResolveLeafPath(c).value, o, host).Success?
    ensures multiset(LoadLeaf(w, ResolveLeafPath(c).value, o, host).value.dnsNames)
         == multiset([name] + c.altNames)
  {
    AltNamesMean(c, LoadLeaf(w, ResolveLeafPath(c).value, o, host).value, before, name, n);
  }

  // What the reason of a fetch says about the disk.
  lemma ReasonMeans(w: World, c: CertConfig, now: int, o: Oracle, opts: Options, host: Host)
    requires ResolveLeafPath(c).Some?
    ensures var v, p := Decide(w, c, now, o, opts, host), ResolveLeafPath(c).value;
      && (v == Fetch(Forced) <==> opts.force)
      && (v == Fetch(NoExistingCert) ==> p !in w)
      && (v == Fetch(Unparseable) ==> p in w || p.parts == [] || o.faults(p, Open(LeafRead)))
  {
    LoadFails(w, ResolveLeafPath(c).value, o, host);
  }

  lemma LoadFails(w: World, p: Path, o: Oracle, host: Host)
    ensures LoadLeaf(w, p, o, host) == Failure(NotExist) <==>
      p.parts != [] && p !in w && !o.faults(p, Open(LeafRead))
  {
    ReadExactly(w, p, LeafRead, o);
  }

  // An expiry reported is one, and a fraction reported is of a certificate that
  // has not expired.
  lemma ReasonTells(w: World, c: CertConfig, now: int, o: Oracle, opts: Options, host: Host, leaf: Leaf)
    requires ResolveLeafPath(c).Some? && LoadLeaf(w, ResolveLeafPath(c).value, o, host) == Success(leaf)
    ensures var v := Decide(w, c, now, o, opts, host);
      && (v == Fetch(Expired) ==> leaf.notAfter <= now || leaf.notAfter <= leaf.notBefore)
      && (v == Fetch(BelowThreshold) ==> now < leaf.notAfter && leaf.notBefore < leaf.notAfter)
      && (v == Fetch(AltNamesChanged) ==>
            c.source == "letsencrypt" && now < leaf.notAfter && AltNamesDiffer(c, leaf))
  {
  }
}

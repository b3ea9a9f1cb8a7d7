// The renewer as it runs against the disk, proved to do what its
// specification over visible files says.
module Agent {
  import opened Bytes
  import opened Wrappers
  import opened Hosts
  import opened Paths
  import opened Config
  import opened World
  import opened Kernel
  import opened Sources
  import opened Layout
  import opened Renewer
  import Commit
  import Names
  import Pem
  import Ttl
  import Lifetime
  import Writer

  // ---------------------------------------------------------- the readers

  method CheckExistsOnDisk(disk: Disk, path: Path) returns (ok: bool)
    requires disk.Valid() && !IsTemp(disk.fs, path)
    ensures ok <==> CheckExists(Seen(disk.fs), path, disk.oracle)
  {
    Writer.SeenAt(disk.fs, path);
    var fd := disk.OpenNoFollow(path, Audit);
    if fd.Failure? {
      return false;
    }
    var st := disk.StatRegular(fd.value, path, Audit);
    return st.Success?;
  }

  datatype Check = Exists | OnlyLeaf | WithChain

  predicate SlotPasses(w: World, path: Path, check: Check, o: Oracle) {
    match check
    case Exists => CheckExists(w, path, o)
    case OnlyLeaf => AuditedLeafOnly(w, path, o)
    case WithChain => AuditedLeafPlusChain(w, path, o)
  }

  method CheckSlot(disk: Disk, path: Path, check: Check) returns (ok: bool)
    requires disk.Valid() && !IsTemp(disk.fs, path)
    ensures ok <==> SlotPasses(Seen(disk.fs), path, check, disk.oracle)
  {
    if check == Exists {
      ok := CheckExistsOnDisk(disk, path);
      return;
    }
    var raw := Writer.ReadRegularFile(disk, path, Audit);
    if raw.Failure? {
      return false;
    }
    if check == OnlyLeaf {
      ok := CheckLeafOnly(raw.value);
    } else {
      ok := CheckLeafPlusChain(raw.value);
    }
  }

  // Every declared slot must be on disk in its shape.
  method AuditOnDiskFiles(disk: Disk, c: CertConfig) returns (ok: bool)
    requires disk.Valid() && Writer.Ordinary(disk.fs, c)
    ensures ok <==> AuditPasses(Seen(disk.fs), c, disk.oracle)
  {
    if c.format != FORMAT_SPLIT || c.files == None {
      return true;
    }
    var names := Slots(c.files.value);
    var checks := [OnlyLeaf, Exists, Exists, WithChain];
    SlotPaths(c);
    for i := 0 to 4
      invariant forall j :: 0 <= j < i && names[j] != "" ==>
        SlotPasses(Seen(disk.fs), FileIn(c.destination, names[j]), checks[j], disk.oracle)
    {
      if names[i] != "" {
        var passed := CheckSlot(disk, FileIn(c.destination, names[i]), checks[i]);
        if !passed {
          assert names[0] == c.files.value.cert && names[1] == c.files.value.key;
          assert names[2] == c.files.value.ca && names[3] == c.files.value.fullchain;
          return false;
        }
      }
    }
    assert names[0] == c.files.value.cert && names[1] == c.files.value.key;
    assert names[2] == c.files.value.ca && names[3] == c.files.value.fullchain;
    return true;
  }

  method LoadLeafFrom(disk: Disk, path: Path, host: Host) returns (r: Result<Leaf, Error>)
    requires disk.Valid() && !IsTemp(disk.fs, path)
    ensures r == LoadLeaf(Seen(disk.fs), path, disk.oracle, host)
  {
    var raw := Writer.ReadRegularFile(disk, path, LeafRead);
    if raw.Failure? {
      return Failure(raw.error);
    }
    var d := Pem.Decode(raw.value);
    if d == None {
      return Failure(NoPemBlock);
    }
    if !d.value.block.IsCertificate() {
      return Failure(WrongBlockType);
    }
    var parsed := host.parseCertificate(d.value.block.der);
    return if parsed == None then Failure(BadCertificate) else Success(parsed.value);
  }

  method AltNamesChange(c: CertConfig, leaf: Leaf) returns (differ: bool)
    ensures differ <==> AltNamesDiffer(c, leaf)
  {
    var fqdn := Names.LePathFqdn(c.lePath);
    var expected: seq<string> := [];
    if fqdn != "" {
      expected := expected + [fqdn];
    }
    expected := expected + c.altNames;
    assert expected == Names.ExpectedNames(c.lePath, c.altNames);
    var equal := Names.SlicesEqualUnordered(expected, leaf.dnsNames);
    return !equal;
  }

  method DecideOn(disk: Disk, c: CertConfig, now: int, opts: Options, host: Host) returns (v: Verdict)
    requires disk.Valid() && Writer.Ordinary(disk.fs, c)
    ensures v == Decide(Seen(disk.fs), c, now, disk.oracle, opts, host)
  {
    if opts.force {
      return Fetch(Forced);
    }
    var audited := AuditOnDiskFiles(disk, c);
    if !audited {
      return Fetch(SlotShape);
    }
    var path := ResolveLeafPath(c);
    if path == None {
      return Fetch(NoLeafFile);
    }
    LeafPathOwned(c);
    var loaded := LoadLeafFrom(disk, path.value, host);
    if loaded.Failure? {
      return if loaded.error == NotExist then Fetch(NoExistingCert) else Fetch(Unparseable);
    }
    var leaf := loaded.value;
    var total := Ttl.Sub(leaf.notAfter, leaf.notBefore);
    var remaining := Ttl.Sub(leaf.notAfter, now);
    if total <= 0 || remaining <= 0 {
      return Fetch(Expired);
    }
    var fraction := (remaining as real) / (total as real);
    if fraction <= opts.threshold {
      return Fetch(BelowThreshold);
    }
    if c.source == SOURCE_LETSENCRYPT {
      var differ := AltNamesChange(c, leaf);
      if differ {
        return Fetch(AltNamesChanged);
      }
    }
    return Skip;
  }

  // ------------------------------------------------------------- the loop

  // Every state the disk has been in since `from` is one a death of the
  // process may leave behind.
  ghost predicate AllDeaths(w: World, history: seq<Fs>, from: nat, c: CertConfig, env: Env) {
    forall k :: from <= k < |history| ==> WellFormed(history[k]) && Lifetime.Died(w, Seen(history[k]), c, env)
  }

  lemma KeptDeaths(w: World, history: seq<Fs>, from: nat, c: CertConfig, env: Env)
    requires env.fetch(c).Success?
    requires Writer.Kept(w, history, from, c, env.fetch(c).value, env.oracle, env.host)
    ensures AllDeaths(w, history, from, c, env)
  {
  }

  // Decide, fetch, write, reload.
  method ProcessOn(disk: Disk, c: CertConfig, env: Env)
    returns (r: Result<Unit, Error>, reloaded: bool, ghost verdict: Verdict)
    requires disk.Valid() && disk.oracle == env.oracle
    requires ValidCert(c, env.host) && Writer.Ordinary(disk.fs, c)
    modifies disk
    ensures disk.Valid() && disk.fs.missed == old(disk.fs.missed)
    ensures Processed(Seen(disk.fs), verdict, r, reloaded) == ProcessCert(old(Seen(disk.fs)), c, env)
    ensures old(disk.history) <= disk.history
    ensures verdict == Skip ==> disk.history == old(disk.history) && disk.fs == old(disk.fs)
    ensures AllDeaths(old(Seen(disk.fs)), disk.history, |old(disk.history)|, c, env)
  {
    reloaded, verdict := false, Skip;
    if !KnownSource(c.source) {
      return Failure(UnknownSource), false, verdict;
    }
    var v := DecideOn(disk, c, env.clock(c), env.opts, env.host);
    verdict := v;
    if v == Skip {
      return Success(Unit), false, verdict;
    }
    if env.opts.dryRun {
      return Success(Unit), false, verdict;
    }
    var material := env.fetch(c);
    if material.Failure? {
      return Failure(FetchFailed), false, verdict;
    }
    var written := Writer.Write(disk, material.value, c, env.host);
    KeptDeaths(old(Seen(disk.fs)), disk.history, |old(disk.history)|, c, env);
    if written.Failure? {
      return Failure(written.error), false, verdict;
    }
    if written.value.changed && env.hasReloader {
      var ok := env.reload(c);
      return if ok then Success(Unit) else Failure(ReloadFailed), true, verdict;
    }
    return Success(Unit), false, verdict;
  }

  // Every state the disk has been in since `from` has each certificate's own
  // files on their way from the state before, if no two own a common file.
  ghost predicate AllOnTheWay(w: World, history: seq<Fs>, from: nat, certs: seq<CertConfig>, env: Env) {
    AllApart(certs) ==> forall k, i :: from <= k < |history| && 0 <= i < |certs| ==>
      WellFormed(history[k]) && Lifetime.OnTheWay(w, Seen(history[k]), certs[i], env)
  }

  lemma NextOnTheWay(w: World, before: seq<Fs>, history: seq<Fs>, from: nat, certs: seq<CertConfig>, n: nat, env: Env)
    requires n < |certs| && before <= history
    requires AllValid(certs, env.host)
    requires AllOnTheWay(w, before, from, certs, env)
    requires AllDeaths(Run(w, certs[..n], env).world, history, |before|, certs[n], env)
    ensures AllOnTheWay(w, history, from, certs, env)
  {
    forall k, i | AllApart(certs) && from <= k < |history| && 0 <= i < |certs|
      ensures WellFormed(history[k]) && Lifetime.OnTheWay(w, Seen(history[k]), certs[i], env)
    {
      if k < |before| {
        assert before[k] == history[k];
      } else {
        Lifetime.DuringRun(w, certs, env, n, Seen(history[k]), i);
      }
    }
  }

  // After n certificates: the run so far, and every state on the way.
  ghost predicate RunTo(w: World, f: Fs, history: seq<Fs>, from: nat, certs: seq<CertConfig>, n: nat, env: Env,
                        failures: nat, reloads: seq<CertConfig>)
  {
    && n <= |certs| && WellFormed(f)
    && Ran(Seen(f), failures, reloads) == Run(w, certs[..n], env)
    && AllOnTheWay(w, history, from, certs, env)
  }

  lemma RunStep(w: World, certs: seq<CertConfig>, n: nat, env: Env)
    requires n < |certs|
    ensures var before := Run(w, certs[..n], env); var p := ProcessCert(before.world, certs[n], env);
      Run(w, certs[..n + 1], env) ==
      Ran(p.world,
          if p.result.Failure? then before.failures + 1 else before.failures,
          if p.reloaded then before.reloads + [certs[n]] else before.reloads)
  {
    assert certs[..n + 1][..n] == certs[..n];
  }

  // One more certificate.
  lemma RunNext(w: World, f: Fs, g: Fs, before: seq<Fs>, history: seq<Fs>, from: nat, certs: seq<CertConfig>, n: nat,
                env: Env, failures: nat, reloads: seq<CertConfig>, p: Processed)
    requires n < |certs| && AllValid(certs, env.host) && WellFormed(g) && before <= history
    requires RunTo(w, f, before, from, certs, n, env, failures, reloads)
    requires p == ProcessCert(Seen(f), certs[n], env) && p.world == Seen(g)
    requires AllDeaths(Seen(f), history, |before|, certs[n], env)
    ensures RunTo(w, g, history, from, certs, n + 1, env,
                  if p.result.Failure? then failures + 1 else failures,
                  if p.reloaded then reloads + [certs[n]] else reloads)
  {
    RunStep(w, certs, n, env);
    NextOnTheWay(w, before, history, from, certs, n, env);
  }

  // Processes every certificate in order; a failing one never stops the loop.
  // Every state on the way, also one the process dies in, is on each
  // certificate's own way.
  method RunOn(disk: Disk, certs: seq<CertConfig>, env: Env) returns (failures: nat, reloads: seq<CertConfig>)
    requires disk.Valid() && disk.oracle == env.oracle && AllValid(certs, env.host)
    requires forall i :: 0 <= i < |certs| ==> Writer.Ordinary(disk.fs, certs[i])
    modifies disk
    ensures disk.Valid() && disk.fs.missed == old(disk.fs.missed)
    ensures Ran(Seen(disk.fs), failures, reloads) == Run(old(Seen(disk.fs)), certs, env)
    ensures old(disk.history) <= disk.history
    ensures AllOnTheWay(old(Seen(disk.fs)), disk.history, |old(disk.history)|, certs, env)
  {
    ghost var w, from := Seen(disk.fs), |disk.history|;
    failures, reloads := 0, [];
    for n := 0 to |certs|
      invariant disk.Valid() && disk.fs.missed == old(disk.fs.missed)
      invariant old(disk.history) <= disk.history
      invariant RunTo(w, disk.fs, disk.history, from, certs, n, env, failures, reloads)
    {
      ghost var f, before := disk.fs, disk.history;
      var r, reloaded;
      ghost var verdict;
      r, reloaded, verdict := ProcessOn(disk, certs[n], env);
      RunNext(w, f, disk.fs, before, disk.history, from, certs, n, env, failures, reloads,
              Processed(Seen(disk.fs), verdict, r, reloaded));
      if r.Failure? {
        failures := failures + 1;
      }
      if reloaded {
        reloads := reloads + [certs[n]];
      }
    }
    assert certs[..|certs|] == certs;
  }
}

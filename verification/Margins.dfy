// How sharp the margin is: for which margins, and for which bundle orders, no
// history of runs lets the leaf expire.
module Margins {
  import opened Bytes
  import opened Wrappers
  import opened Hosts
  import opened Paths
  import opened Config
  import opened World
  import opened Sources
  import opened Layout
  import opened Renewer
  import opened Leaves
  import opened Lifetime
  import Renewal
  import Commit
  import Pem
  import Ttl

  // Under this margin no history of runs lets the leaf expire.
  ghost predicate Safe(c: CertConfig, host: Host, threshold: real, gap: int, k: nat, margin: int) {
    forall h: History, s: World, instant: int ::
      && Schedule(h, c, host, threshold, gap, k, margin) && FirstSucceeds(h, c)
      && Found(h, c, gap, s, instant) ==>
      Outlives(s, c, host, instant)
  }

  // No chain comes first.
  predicate LeafOrKeyFirst(c: CertConfig) {
    c.format == FORMAT_COMBINED ==> c.bundleOrder !in {CHAIN_CERT_KEY, CHAIN_KEY_CERT}
  }

  lemma CoversLess(leaf: Leaf, threshold: real, margin: int, less: int)
    requires Covers(leaf, threshold, margin) && less <= margin
    ensures Covers(leaf, threshold, less)
  {
  }

  lemma IssuesLess(env: Env, c: CertConfig, margin: int, less: int)
    requires IssuesWell(env, c, margin) && less <= margin
    ensures IssuesWell(env, c, less)
  {
    if env.fetch(c).Success? {
      CoversLess(FirstLeaf(env.fetch(c).value.cert, env.host).value, env.opts.threshold, margin, less);
    }
  }

  lemma ScheduleLess(h: History, c: CertConfig, host: Host, threshold: real, gap: int, k: nat, margin: int, less: int)
    requires Schedule(h, c, host, threshold, gap, k, margin) && less <= margin
    ensures Schedule(h, c, host, threshold, gap, k, less)
  {
    forall i | 0 <= i < |h.runs|
      ensures RunFits(h, i, c, host, threshold, less)
    {
      assert RunFits(h, i, c, host, threshold, margin);
      IssuesLess(h.runs[i], c, margin, less);
    }
  }

  lemma MarginSuffices(c: CertConfig, host: Host, threshold: real, gap: int, k: nat, margin: int)
    requires ValidCert(c, host) && LeafOrKeyFirst(c) && threshold > 0.0 && gap >= 0
    requires Gaps(k + 1, gap) <= margin
    ensures Safe(c, host, threshold, gap, k, margin)
  {
    forall h: History, s: World, instant: int
      | && Schedule(h, c, host, threshold, gap, k, margin) && FirstSucceeds(h, c)
        && Found(h, c, gap, s, instant)
      ensures Outlives(s, c, host, instant)
    {
      ScheduleLess(h, c, host, threshold, gap, k, margin, Gaps(k + 1, gap));
      assert LeafInSight(h, c);
      FoundLeaf(h, c, host, threshold, gap, k, Gaps(k + 1, gap), s, instant);
    }
  }

  // ------------------------------------------------ a leaf issued only once

  // Runs a gap apart and over at once, of which the first fetches material and
  // no later one gets any.
  ghost function OnceEnv(host: Host, threshold: real, start: int, gap: int, m: Material, j: nat): Env {
    Env(host, Options(threshold, false, false), Oracle((_, _) => false, _ => 0), _ => start + Gaps(j, gap),
        _ => if j == 0 then Success(m) else Failure(FetchFailed),
        false, _ => true)
  }

  ghost function OnceWorld(c: CertConfig, host: Host, threshold: real, start: int, gap: int, m: Material): World {
    ProcessCert(map[], c, OnceEnv(host, threshold, start, gap, m, 0)).world
  }

  ghost function Once(c: CertConfig, host: Host, threshold: real, start: int, gap: int, n: nat, m: Material)
    : (h: History)
    ensures WellShaped(h)
  {
    var w := OnceWorld(c, host, threshold, start, gap, m);
    History(seq(n + 2, j requires 0 <= j < n + 2 => if j == 0 then map[] else w),
            seq(n + 1, j requires 0 <= j < n + 1 => OnceEnv(host, threshold, start, gap, m, j)),
            seq(n + 1, j requires 0 <= j < n + 1 => start + Gaps(j, gap)),
            seq(n + 1, j => false))
  }

  lemma OnceParts(c: CertConfig, host: Host, threshold: real, start: int, gap: int, n: nat, m: Material, j: nat)
    requires j <= n
    ensures var h := Once(c, host, threshold, start, gap, n, m);
      && |h.runs| == n + 1 && h.runs[j] == OnceEnv(host, threshold, start, gap, m, j) && !h.died[j]
      && h.runs[j].clock(c) == h.ends[j] == start + Gaps(j, gap)
      && h.worlds[j] == (if j == 0 then map[] else OnceWorld(c, host, threshold, start, gap, m))
      && h.worlds[j + 1] == OnceWorld(c, host, threshold, start, gap, m)
  {
  }

  lemma OnceEnvParts(c: CertConfig, host: Host, threshold: real, start: int, gap: int, m: Material, j: nat)
    ensures var env := OnceEnv(host, threshold, start, gap, m, j);
      && env.clock(c) == start + Gaps(j, gap)
      && env.fetch(c) == (if j == 0 then Success(m) else Failure(FetchFailed))
  {
  }

  lemma UsableSource(c: CertConfig, host: Host)
    requires UsableCert(c, host)
    ensures KnownSource(c.source)
  {
  }

  lemma FreeWay(c: CertConfig, host: Host, o: Oracle)
    requires UsableCert(c, host) && forall p, op :: !o.faults(p, op)
    ensures Commit.Unobstructed(map[], c) && Commit.Faultless(c, o)
  {
    UsableNotRoot(c, host);
  }

  // The first run of it puts the material on disk.
  lemma OnceFirst(c: CertConfig, host: Host, threshold: real, start: int, gap: int, m: Material)
    requires UsableCert(c, host)
    ensures var env := OnceEnv(host, threshold, start, gap, m, 0); var p := ProcessCert(map[], c, env);
      && p.result.Success? && p.verdict != Skip
      && LeafData(p.world, c) == Some(LeafText(c, m))
      && Renewal.WrittenWith(p.world, c, m, host)
  {
    var env := OnceEnv(host, threshold, start, gap, m, 0);
    UsableSource(c, host);
    NothingThere(c, env, host);
    FreeWay(c, host, env.oracle);
    Commit.UnhinderedWrite(map[], c, m, env.oracle, host);
    FetchingProcess(map[], c, env);
    WrittenLeafText(map[], c, m, env.oracle, host);
    Renewal.WriteSettles(map[], c, m, env.oracle, host);
  }

  lemma NothingThere(c: CertConfig, env: Env, host: Host)
    requires ValidCert(c, host)
    ensures Decide(map[], c, env.clock(c), env.oracle, env.opts, host) != Skip
  {
    ValidLeafPath(c, host);
  }

  lemma IssuesThis(env: Env, c: CertConfig, m: Material, leaf: Leaf, margin: int)
    requires env.fetch(c) == Success(m) && Served(c, m, env.host) && FirstLeaf(m.cert, env.host) == Success(leaf)
    requires NewlyIssued(leaf, c, env, margin)
    ensures IssuesWell(env, c, margin)
  {
  }

  // Encoded certificates and a key are material for every layout.
  lemma IssuedServed(c: CertConfig, der: bytes, chain: seq<bytes>, key: bytes, host: Host)
    requires host.parseCertificate(der).Some?
    ensures Served(c, Issued(der, chain, key), host)
    ensures FirstLeaf(Issued(der, chain, key).cert, host) == Success(host.parseCertificate(der).value)
  {
    var m := Issued(der, chain, key);
    IssuedPresents(der, chain, key);
    KeyTextEnded(key);
    Renewal.FirstOfBlocks(m.cert, host);
    assert Pem.Blocks(m.key) == [Pem.Block(Pem.PRIVATE_KEY, key)] && Pem.PRIVATE_KEY[0] != Pem.CERTIFICATE[0];
    assert Pem.Blocks(m.key)[1..] == [];
  }

  // A certificate of exactly this margin, and settings as validation admits
  // them.
  predicate HasMargin(leaf: Leaf, threshold: real, gap: int, margin: int) {
    && 0.0 < threshold < 1.0 && gap > 0
    && Ttl.Sub(leaf.notAfter, leaf.notBefore) > 0
    && Covers(leaf, threshold, margin) && !Covers(leaf, threshold, margin + 1)
  }

  // Material in which this leaf can be found.
  predicate Holding(c: CertConfig, m: Material, leaf: Leaf, host: Host) {
    Served(c, m, host) && FirstLeaf(m.cert, host) == Success(leaf)
  }

  // The fraction of a lifetime is a positive part of it.
  lemma PartOfLifetime(threshold: real, total: int)
    requires 0.0 < threshold < 1.0 && total > 0
    ensures 0.0 < threshold * (total as real) < total as real
  {
    assert (1.0 - threshold) * (total as real) > 0.0;
  }

  // A leaf whose remaining time is one instant over the margin is not due, and
  // it is from the next instant on.
  lemma DueAtMargin(leaf: Leaf, threshold: real, margin: int, now: int)
    requires 0.0 < threshold < 1.0 && Ttl.Sub(leaf.notAfter, leaf.notBefore) > 0
    requires Covers(leaf, threshold, margin) && !Covers(leaf, threshold, margin + 1)
    ensures margin >= 0
    ensures Ttl.Due(leaf.notBefore, leaf.notAfter, now, threshold) <==> leaf.notAfter - now <= margin
  {
    var total := Ttl.Sub(leaf.notAfter, leaf.notBefore);
    var part := threshold * (total as real);
    PartOfLifetime(threshold, total);
    assert margin as real <= part < (margin + 1) as real;
    Ttl.CrossMultiply(Ttl.Sub(leaf.notAfter, now), total, threshold);
  }

  // Issued as late as it can be without being due at once.
  function LatestStart(leaf: Leaf, margin: int): int {
    leaf.notAfter - margin - 1
  }

  lemma OnceIssues(c: CertConfig, host: Host, threshold: real, gap: int, m: Material, leaf: Leaf, margin: int, j: nat)
    requires Holding(c, m, leaf, host) && HasMargin(leaf, threshold, gap, margin)
    ensures IssuesWell(OnceEnv(host, threshold, LatestStart(leaf, margin), gap, m, j), c, margin)
  {
    var start := LatestStart(leaf, margin);
    var env := OnceEnv(host, threshold, start, gap, m, j);
    OnceEnvParts(c, host, threshold, start, gap, m, j);
    if j == 0 {
      assert env.clock(c) == start;
      DueAtMargin(leaf, threshold, margin, start);
      assert NewlyIssued(leaf, c, env, margin);
      IssuesThis(env, c, m, leaf, margin);
    }
  }

  // Run j of it leaves the world that holds the material, and fails or not.
  ghost predicate OnceLeads(c: CertConfig, host: Host, threshold: real, start: int, gap: int, m: Material,
                            fails: bool, j: nat) {
    var w := OnceWorld(c, host, threshold, start, gap, m);
    var p := ProcessCert(if j == 0 then map[] else w, c, OnceEnv(host, threshold, start, gap, m, j));
    p.world == w && (p.result.Failure? <==> j > 0 && fails)
  }

  // Such a history fits the schedule when the later runs leave the world as it
  // is and not too many of them fail.
  lemma OnceFits(c: CertConfig, host: Host, threshold: real, start: int, gap: int, n: nat, m: Material, margin: int,
                 fails: bool, j: nat)
    requires j <= n && IssuesWell(OnceEnv(host, threshold, start, gap, m, j), c, margin)
    requires OnceLeads(c, host, threshold, start, gap, m, fails, j)
    ensures var h := Once(c, host, threshold, start, gap, n, m);
      RunFits(h, j, c, host, threshold, margin) && (FailedRuns(h, c)[j] <==> j > 0 && fails)
  {
    OnceParts(c, host, threshold, start, gap, n, m, j);
    var w := OnceWorld(c, host, threshold, start, gap, m);
    assert Agree(w, w, CertPaths(c));
  }

  lemma {:induction false} StreakBound(failed: seq<bool>, n: nat)
    requires 0 < n <= |failed| && !failed[0]
    ensures Streak(failed, n) < n
    ensures (forall i :: 0 <= i < |failed| ==> !failed[i]) ==> Streak(failed, n) == 0
  {
    if n == 1 {
    } else {
      StreakBound(failed, n - 1);
    }
  }

  lemma OncePaced(c: CertConfig, host: Host, threshold: real, start: int, gap: int, n: nat, m: Material)
    requires gap >= 0
    ensures Paced(Once(c, host, threshold, start, gap, n, m), c, gap)
  {
    var h := Once(c, host, threshold, start, gap, n, m);
    OnceParts(c, host, threshold, start, gap, n, m, 0);
    forall j | 0 <= j < |h.runs|
      ensures h.runs[j].clock(c) <= h.ends[j]
    {
      OnceParts(c, host, threshold, start, gap, n, m, j);
    }
    forall j | 0 < j < |h.runs|
      ensures h.ends[j - 1] <= h.runs[j].clock(c) && h.ends[j] - h.runs[j - 1].clock(c) <= gap
    {
      OnceParts(c, host, threshold, start, gap, n, m, j);
      OnceParts(c, host, threshold, start, gap, n, m, j - 1);
      assert Gaps(j, gap) == gap + Gaps(j - 1, gap);
    }
  }

  lemma OnceSchedule(c: CertConfig, host: Host, threshold: real, start: int, gap: int, n: nat, m: Material, margin: int,
                     fails: bool, k: nat)
    requires gap >= 0 && (fails ==> n <= k)
    requires forall j: nat {:trigger OnceLeads(c, host, threshold, start, gap, m, fails, j)} | j <= n ::
      && IssuesWell(OnceEnv(host, threshold, start, gap, m, j), c, margin)
      && OnceLeads(c, host, threshold, start, gap, m, fails, j)
    requires ProcessCert(map[], c, OnceEnv(host, threshold, start, gap, m, 0)).verdict != Skip
    ensures var h := Once(c, host, threshold, start, gap, n, m);
      Schedule(h, c, host, threshold, gap, k, margin) && FirstSucceeds(h, c)
  {
    var h := Once(c, host, threshold, start, gap, n, m);
    OnceParts(c, host, threshold, start, gap, n, m, 0);
    OncePaced(c, host, threshold, start, gap, n, m);
    var failed := FailedRuns(h, c);
    forall j | 0 <= j < |h.runs|
      ensures RunFits(h, j, c, host, threshold, margin) && (failed[j] <==> j > 0 && fails)
    {
      assert OnceLeads(c, host, threshold, start, gap, m, fails, j);
      OnceFits(c, host, threshold, start, gap, n, m, margin, fails, j);
    }
    assert RunFits(h, 0, c, host, threshold, margin) && !failed[0];
    forall i | 0 <= i <= |h.runs|
      ensures Streak(failed, i) <= k
    {
      if i > 0 {
        StreakBound(failed, i);
      }
    }
  }

  // What is still there when the last run is over is found from then on.
  lemma OnceFound(c: CertConfig, host: Host, threshold: real, start: int, gap: int, n: nat, m: Material, instant: int)
    requires start + Gaps(n, gap) <= instant <= start + Gaps(n, gap) + gap
    ensures var h := Once(c, host, threshold, start, gap, n, m);
            Found(h, c, gap, OnceWorld(c, host, threshold, start, gap, m), instant)
  {
    var h, w := Once(c, host, threshold, start, gap, n, m), OnceWorld(c, host, threshold, start, gap, m);
    OnceParts(c, host, threshold, start, gap, n, m, n);
    assert Agree(w, w, CertPaths(c)) && VisibleAt(h, c, gap, n, w, instant);
  }

  // ------------------------------------------------- the margin is exact

  lemma OnceWritten(c: CertConfig, host: Host, threshold: real, start: int, gap: int, m: Material)
    requires UsableCert(c, host)
    ensures Renewal.WrittenWith(OnceWorld(c, host, threshold, start, gap, m), c, m, host)
  {
    OnceFirst(c, host, threshold, start, gap, m);
  }

  // A later run finds the leaf due and fails to fetch.
  lemma DueFails(w: World, c: CertConfig, env: Env, leaf: Leaf, now: int, threshold: real)
    requires ValidCert(c, env.host) && KnownSource(c.source) && !env.opts.dryRun && env.fetch(c).Failure?
    requires Carries(w, c, env.host) && DiskLeaf(w, c, env.host) == Some(leaf)
    requires env.clock(c) == now && env.opts.threshold == threshold
    requires Ttl.Due(leaf.notBefore, leaf.notAfter, now, threshold)
    ensures ProcessCert(w, c, env).result.Failure? && ProcessCert(w, c, env).world == w
  {
    if Decide(w, c, env.clock(c), env.oracle, env.opts, env.host) == Skip {
      SkippedLeaf(w, c, env.clock(c), env.oracle, env.opts, env.host);
    }
  }

  lemma LateRunDue(leaf: Leaf, threshold: real, gap: int, margin: int, j: nat)
    requires HasMargin(leaf, threshold, gap, margin) && j > 0
    ensures Ttl.Due(leaf.notBefore, leaf.notAfter, LatestStart(leaf, margin) + Gaps(j, gap), threshold)
  {
    GapsGrow(1, j, gap);
    assert Gaps(1, gap) == gap;
    DueAtMargin(leaf, threshold, margin, LatestStart(leaf, margin) + Gaps(j, gap));
  }

  lemma OnceCarries(c: CertConfig, host: Host, threshold: real, start: int, gap: int, m: Material, leaf: Leaf)
    requires UsableCert(c, host) && Holding(c, m, leaf, host)
    ensures var w := OnceWorld(c, host, threshold, start, gap, m);
      && DiskLeaf(w, c, host) == Some(leaf)
      && (LeafWatched(c, m) ==> Carries(w, c, host))
  {
    OnceFirst(c, host, threshold, start, gap, m);
    TextLeaf(c, m, host);
  }

  lemma SightWatched(c: CertConfig, m: Material)
    requires LeafOrKeyFirst(c)
    ensures LeafWatched(c, m)
  {
  }

  lemma FirstLeads(c: CertConfig, host: Host, threshold: real, start: int, gap: int, m: Material, fails: bool)
    requires UsableCert(c, host)
    ensures OnceLeads(c, host, threshold, start, gap, m, fails, 0)
  {
    OnceFirst(c, host, threshold, start, gap, m);
  }

  lemma TightLeads(c: CertConfig, host: Host, threshold: real, start: int, gap: int, m: Material, leaf: Leaf,
                   j: nat, now: int)
    requires UsableCert(c, host) && LeafWatched(c, m) && Holding(c, m, leaf, host)
    requires j > 0 && now == start + Gaps(j, gap) && Ttl.Due(leaf.notBefore, leaf.notAfter, now, threshold)
    ensures OnceLeads(c, host, threshold, start, gap, m, true, j)
  {
    OnceCarries(c, host, threshold, start, gap, m, leaf);
    OnceEnvParts(c, host, threshold, start, gap, m, j);
    UsableSource(c, host);
    var w, env := OnceWorld(c, host, threshold, start, gap, m), OnceEnv(host, threshold, start, gap, m, j);
    DueFails(w, c, env, leaf, now, threshold);
  }

  lemma TightStep(c: CertConfig, host: Host, threshold: real, gap: int, m: Material, leaf: Leaf, margin: int, j: nat)
    requires UsableCert(c, host) && LeafWatched(c, m) && Holding(c, m, leaf, host)
    requires HasMargin(leaf, threshold, gap, margin)
    ensures OnceLeads(c, host, threshold, LatestStart(leaf, margin), gap, m, true, j)
  {
    var start := LatestStart(leaf, margin);
    if j == 0 {
      FirstLeads(c, host, threshold, start, gap, m, true);
    } else {
      var now := start + Gaps(j, gap);
      LateRunDue(leaf, threshold, gap, margin, j);
      assert Ttl.Due(leaf.notBefore, leaf.notAfter, now, threshold);
      TightLeads(c, host, threshold, start, gap, m, leaf, j, now);
    }
  }

  lemma TightSchedule(c: CertConfig, host: Host, threshold: real, gap: int, k: nat, m: Material, leaf: Leaf,
                      margin: int)
    requires UsableCert(c, host) && LeafWatched(c, m) && Holding(c, m, leaf, host)
    requires HasMargin(leaf, threshold, gap, margin)
    ensures var h := Once(c, host, threshold, LatestStart(leaf, margin), gap, k, m);
      Schedule(h, c, host, threshold, gap, k, margin) && FirstSucceeds(h, c)
  {
    forall j: nat | j <= k
      ensures OnceLeads(c, host, threshold, LatestStart(leaf, margin), gap, m, true, j)
    {
      TightStep(c, host, threshold, gap, m, leaf, margin, j);
    }
    OnceMargin(c, host, threshold, gap, k, m, leaf, margin, true, k);
  }

  // One issue of such material, put on disk by the first run.
  lemma OnceMargin(c: CertConfig, host: Host, threshold: real, gap: int, n: nat, m: Material, leaf: Leaf, margin: int,
                   fails: bool, k: nat)
    requires UsableCert(c, host) && Holding(c, m, leaf, host) && HasMargin(leaf, threshold, gap, margin)
    requires fails ==> n <= k
    requires forall j: nat {:trigger OnceLeads(c, host, threshold, LatestStart(leaf, margin), gap, m, fails, j)}
      | j <= n ::
      OnceLeads(c, host, threshold, LatestStart(leaf, margin), gap, m, fails, j)
    ensures var h := Once(c, host, threshold, LatestStart(leaf, margin), gap, n, m);
      Schedule(h, c, host, threshold, gap, k, margin) && FirstSucceeds(h, c)
  {
    var start := LatestStart(leaf, margin);
    OnceFirst(c, host, threshold, start, gap, m);
    forall j: nat | j <= n
      ensures IssuesWell(OnceEnv(host, threshold, start, gap, m, j), c, margin)
    {
      OnceIssues(c, host, threshold, gap, m, leaf, margin, j);
    }
    OnceSchedule(c, host, threshold, start, gap, n, m, margin, fails, k);
  }

  lemma MarginNeeded(c: CertConfig, host: Host, threshold: real, gap: int, k: nat, m: Material, leaf: Leaf, margin: int)
    requires UsableCert(c, host) && LeafWatched(c, m) && Holding(c, m, leaf, host)
    requires HasMargin(leaf, threshold, gap, margin) && Gaps(k + 1, gap) > margin
    ensures !Safe(c, host, threshold, gap, k, margin)
  {
    var start := LatestStart(leaf, margin);
    TightSchedule(c, host, threshold, gap, k, m, leaf, margin);
    assert Gaps(k + 1, gap) == gap + Gaps(k, gap);
    OnceExpires(c, host, threshold, start, gap, k, k, m, leaf, margin, start + Gaps(k, gap) + gap);
  }

  // A schedule that ends at or after the expiry of the one certificate it had.
  lemma OnceExpires(c: CertConfig, host: Host, threshold: real, start: int, gap: int, n: nat, k: nat,
                    m: Material, leaf: Leaf, margin: int, instant: int)
    requires UsableCert(c, host) && Holding(c, m, leaf, host)
    requires var h := Once(c, host, threshold, start, gap, n, m);
      Schedule(h, c, host, threshold, gap, k, margin) && FirstSucceeds(h, c)
    requires start + Gaps(n, gap) <= instant <= start + Gaps(n, gap) + gap && leaf.notAfter <= instant
    ensures !Safe(c, host, threshold, gap, k, margin)
  {
    var h := Once(c, host, threshold, start, gap, n, m);
    OnceCarries(c, host, threshold, start, gap, m, leaf);
    OnceFound(c, host, threshold, start, gap, n, m, instant);
    assert !Outlives(OnceWorld(c, host, threshold, start, gap, m), c, host, instant);
  }

  // The margin is exact: whatever the certificates on offer, if one of them
  // has exactly this margin, no history of at most k failures in a row lets
  // the leaf expire if and only if the margin covers k + 1 gaps.
  lemma MarginExactly(c: CertConfig, host: Host, threshold: real, gap: int, k: nat, der: bytes, leaf: Leaf, margin: int)
    requires UsableCert(c, host) && LeafOrKeyFirst(c)
    requires host.parseCertificate(der) == Some(leaf) && HasMargin(leaf, threshold, gap, margin)
    ensures Safe(c, host, threshold, gap, k, margin) <==> (k + 1) * gap <= margin
  {
    GapsIsProduct(k + 1, gap);
    if Gaps(k + 1, gap) <= margin {
      MarginSuffices(c, host, threshold, gap, k, margin);
    } else {
      var m := Issued(der, [der], der);
      SightWatched(c, m);
      IssuedServed(c, der, [der], der, host);
      MarginNeeded(c, host, threshold, gap, k, m, leaf, margin);
    }
  }

  // ------------------------------------------------- the orders, exactly

  lemma FreshEarlier(c: CertConfig, der: bytes, chain: seq<bytes>, now: int, later: int, threshold: real, host: Host)
    requires Renewal.Fresh(c, der, chain, later, threshold, host) && now <= later
    ensures Renewal.Fresh(c, der, chain, now, threshold, host)
  {
    var leaf := host.parseCertificate(der).value;
    if Ttl.Due(leaf.notBefore, leaf.notAfter, now, threshold) {
      Ttl.DueMonotone(leaf.notBefore, leaf.notAfter, now, later, threshold);
    }
  }

  lemma {:induction false} FirstBeyond(x: int, gap: int) returns (n: nat)
    requires x >= 0 && gap > 0
    ensures x <= Gaps(n, gap) < x + gap
    decreases x
  {
    if x == 0 {
      n := 0;
    } else if x <= gap {
      n := 1;
      assert Gaps(1, gap) == gap;
    } else {
      var i := FirstBeyond(x - gap, gap);
      n := i + 1;
    }
  }

  // With a chain in front a later run looks at the issuer and skips.
  lemma IssuerDecision(w: World, c: CertConfig, host: Host, env: Env, m: Material, der: bytes, issuer: bytes, now: int)
    requires ValidCert(c, host) && c.format == FORMAT_COMBINED && !LeafOrKeyFirst(c)
    requires Renewal.WrittenWith(w, c, m, host) && Presents(m, der, [issuer])
    requires Renewal.AuditReadable(c, env.oracle) && !env.opts.force
    requires Renewal.Fresh(c, issuer, [issuer], now, env.opts.threshold, host) && env.clock(c) == now
    ensures Decide(w, c, env.clock(c), env.oracle, env.opts, host) == Skip
  {
    IssuerReads(c, host, m, issuer);
    Renewal.CombinedDecision(w, c, m, der, [issuer], env.clock(c), env.oracle, env.opts, host);
  }

  lemma SkipLeads(c: CertConfig, host: Host, threshold: real, start: int, gap: int, m: Material, j: nat)
    requires UsableCert(c, host) && j > 0
    requires var w, env := OnceWorld(c, host, threshold, start, gap, m), OnceEnv(host, threshold, start, gap, m, j);
             Decide(w, c, env.clock(c), env.oracle, env.opts, host) == Skip
    ensures OnceLeads(c, host, threshold, start, gap, m, false, j)
  {
    UsableSource(c, host);
    Renewal.SkipTouchesNothing(
      OnceWorld(c, host, threshold, start, gap, m), c, OnceEnv(host, threshold, start, gap, m, j));
  }

  lemma IssuerReads(c: CertConfig, host: Host, m: Material, issuer: bytes)
    requires ValidCert(c, host) && c.format == FORMAT_COMBINED && !LeafOrKeyFirst(c)
    ensures Renewal.OrderReads(c.bundleOrder, m, [issuer])
  {
    Renewal.OrdersByFirstPart(c.bundleOrder);
  }

  lemma IssuerLeads(c: CertConfig, host: Host, threshold: real, start: int, gap: int, m: Material,
                    der: bytes, issuer: bytes, j: nat, now: int)
    requires UsableCert(c, host) && c.format == FORMAT_COMBINED && !LeafOrKeyFirst(c) && j > 0
    requires Presents(m, der, [issuer])
    requires now == start + Gaps(j, gap) && Renewal.Fresh(c, issuer, [issuer], now, threshold, host)
    ensures OnceLeads(c, host, threshold, start, gap, m, false, j)
  {
    var w, env := OnceWorld(c, host, threshold, start, gap, m), OnceEnv(host, threshold, start, gap, m, j);
    OnceWritten(c, host, threshold, start, gap, m);
    OnceEnvParts(c, host, threshold, start, gap, m, j);
    IssuerDecision(w, c, host, env, m, der, issuer, now);
    SkipLeads(c, host, threshold, start, gap, m, j);
  }

  lemma IssuerStep(c: CertConfig, host: Host, threshold: real, start: int, gap: int, n: nat, m: Material,
                   der: bytes, issuer: bytes, last: int, j: nat)
    requires UsableCert(c, host) && c.format == FORMAT_COMBINED && !LeafOrKeyFirst(c) && j <= n && gap >= 0
    requires Presents(m, der, [issuer]) && last == start + Gaps(n, gap)
    requires Renewal.Fresh(c, issuer, [issuer], last, threshold, host)
    ensures OnceLeads(c, host, threshold, start, gap, m, false, j)
  {
    if j == 0 {
      FirstLeads(c, host, threshold, start, gap, m, false);
    } else {
      var now := start + Gaps(j, gap);
      assert now <= last by { GapsGrow(j, n, gap); }
      FreshEarlier(c, issuer, [issuer], now, last, threshold, host);
      IssuerLeads(c, host, threshold, start, gap, m, der, issuer, j, now);
    }
  }

  lemma IssuerSchedule(c: CertConfig, host: Host, threshold: real, gap: int, n: nat, k: nat, m: Material,
                       leaf: Leaf, der: bytes, issuer: bytes, margin: int, last: int)
    requires UsableCert(c, host) && c.format == FORMAT_COMBINED && !LeafOrKeyFirst(c)
    requires Holding(c, m, leaf, host) && Presents(m, der, [issuer]) && HasMargin(leaf, threshold, gap, margin)
    requires last == LatestStart(leaf, margin) + Gaps(n, gap)
    requires Renewal.Fresh(c, issuer, [issuer], last, threshold, host)
    ensures var h := Once(c, host, threshold, LatestStart(leaf, margin), gap, n, m);
      Schedule(h, c, host, threshold, gap, k, margin) && FirstSucceeds(h, c)
  {
    forall j: nat | j <= n
      ensures OnceLeads(c, host, threshold, LatestStart(leaf, margin), gap, m, false, j)
    {
      IssuerStep(c, host, threshold, LatestStart(leaf, margin), gap, n, m, der, issuer, last, j);
    }
    OnceMargin(c, host, threshold, gap, n, m, leaf, margin, false, k);
  }

  // The number of gaps after which the leaf has expired, and its issuer not.
  lemma PastExpiry(c: CertConfig, host: Host, threshold: real, gap: int, leaf: Leaf, issuer: bytes, margin: int)
    returns (n: nat, last: int)
    requires HasMargin(leaf, threshold, gap, margin)
    requires Renewal.Fresh(c, issuer, [issuer], leaf.notAfter + gap, threshold, host)
    ensures last == LatestStart(leaf, margin) + Gaps(n, gap) >= leaf.notAfter
    ensures Renewal.Fresh(c, issuer, [issuer], last, threshold, host)
  {
    DueAtMargin(leaf, threshold, margin, leaf.notAfter);
    n := FirstBeyond(margin + 1, gap);
    last := LatestStart(leaf, margin) + Gaps(n, gap);
    FreshEarlier(c, issuer, [issuer], last, leaf.notAfter + gap, threshold, host);
  }

  // With a chain in front the leaf can expire whatever its margin, without a
  // single failure: the runs go on skipping while its issuer is fresh.
  lemma ChainFirstExpires(c: CertConfig, host: Host, threshold: real, gap: int, k: nat,
                          der: bytes, leaf: Leaf, issuer: bytes, margin: int)
    requires UsableCert(c, host) && c.format == FORMAT_COMBINED && !LeafOrKeyFirst(c)
    requires host.parseCertificate(der) == Some(leaf) && HasMargin(leaf, threshold, gap, margin)
    requires Renewal.Fresh(c, issuer, [issuer], leaf.notAfter + gap, threshold, host)
    ensures !Safe(c, host, threshold, gap, k, margin)
  {
    var m, start := Issued(der, [issuer], der), LatestStart(leaf, margin);
    IssuedServed(c, der, [issuer], der, host);
    IssuedPresents(der, [issuer], der);
    var n, last := PastExpiry(c, host, threshold, gap, leaf, issuer, margin);
    IssuerSchedule(c, host, threshold, gap, n, k, m, leaf, der, issuer, margin, last);
    OnceExpires(c, host, threshold, start, gap, n, k, m, leaf, margin, last);
  }

  // So a margin of k + 1 gaps keeps the leaf from expiring under exactly the
  // layouts in which no chain comes first, once there is a certificate of that
  // margin whose issuer stays fresh beyond it.
  lemma OrdersExactly(c: CertConfig, host: Host, threshold: real, gap: int, k: nat,
                      der: bytes, leaf: Leaf, issuer: bytes, margin: int)
    requires UsableCert(c, host) && (k + 1) * gap <= margin
    requires host.parseCertificate(der) == Some(leaf) && HasMargin(leaf, threshold, gap, margin)
    requires Renewal.Fresh(c, issuer, [issuer], leaf.notAfter + gap, threshold, host)
    ensures Safe(c, host, threshold, gap, k, margin) <==> LeafOrKeyFirst(c)
  {
    if LeafOrKeyFirst(c) {
      MarginExactly(c, host, threshold, gap, k, der, leaf, margin);
    } else {
      ChainFirstExpires(c, host, threshold, gap, k, der, leaf, issuer, margin);
    }
  }

  // ------------------------------------------------------ shipped settings

  const SECOND := 1_000_000_000
  const TIMER_PERIOD := 3600 * SECOND
  const RANDOMIZED_DELAY := 300 * SECOND
  const TIMER_ACCURACY := 60 * SECOND // systemd's default for AccuracySec
  const TIMER_GAP := TIMER_PERIOD + RANDOMIZED_DELAY + TIMER_ACCURACY
  const DEFAULT_THRESHOLD := 0.25

  lemma DayLeafMargin(leaf: Leaf, margin: int)
    requires leaf.notAfter - leaf.notBefore == 24 * 3600 * SECOND
    ensures Ttl.Sub(leaf.notAfter, leaf.notBefore) > 0
    ensures Covers(leaf, DEFAULT_THRESHOLD, margin) <==> margin <= 6 * 3600 * SECOND
  {
  }

  lemma DayGaps(k: nat, gap: int)
    requires TIMER_GAP <= gap <= TIMER_GAP + 360 * SECOND
    ensures (k + 1) * gap <= 6 * 3600 * SECOND <==> k <= 4
  {
    GapsIsProduct(k + 1, gap);
    if k <= 4 {
      GapsIsProduct(5, gap);
      GapsGrow(k + 1, 5, gap);
    } else {
      GapsIsProduct(6, gap);
      GapsGrow(6, k + 1, gap);
    }
  }

  // Under the shipped timer and the default threshold, with runs of at most
  // six minutes, certificates issued for 24 hours survive any four failed runs
  // in a row, and some five failed runs in a row outlast one.
  lemma DayCertificateMargin(c: CertConfig, host: Host, der: bytes, leaf: Leaf, gap: int, k: nat)
    requires UsableCert(c, host) && LeafOrKeyFirst(c) && host.parseCertificate(der) == Some(leaf)
    requires leaf.notAfter - leaf.notBefore == 24 * 3600 * SECOND
    requires TIMER_GAP <= gap <= TIMER_GAP + 360 * SECOND
    ensures Safe(c, host, DEFAULT_THRESHOLD, gap, k, 6 * 3600 * SECOND) <==> k <= 4
  {
    var margin := 6 * 3600 * SECOND;
    DayLeafMargin(leaf, margin);
    DayLeafMargin(leaf, margin + 1);
    MarginExactly(c, host, DEFAULT_THRESHOLD, gap, k, der, leaf, margin);
    DayGaps(k, gap);
  }
}

// Over any sequence of runs the leaf on disk never expires.
module Lifetime {
  import opened Bytes
  import opened Wrappers
  import opened Hosts
  import opened Paths
  import opened Config
  import opened World
  import opened Sources
  import opened Layout
  import opened Renewer
  import opened Leaves
  import Renewal
  import Commit
  import Pem
  import Ttl

  // ------------------------------------------------------------ what is issued

  // Threshold times lifetime covers the margin.
  predicate Covers(leaf: Leaf, threshold: real, margin: int) {
    threshold * (Ttl.Sub(leaf.notAfter, leaf.notBefore) as real) >= margin as real
  }

  // A leaf at its issue: above the threshold and covering the margin.
  predicate NewlyIssued(leaf: Leaf, c: CertConfig, env: Env, margin: int) {
    && Covers(leaf, env.opts.threshold, margin)
    && !Ttl.Due(leaf.notBefore, leaf.notAfter, env.clock(c), env.opts.threshold)
  }

  // A successful fetch returns a readable leaf, above the threshold at that
  // time, with a lifetime that covers the margin.
  predicate IssuesWell(env: Env, c: CertConfig, margin: int) {
    env.fetch(c).Success? ==>
      && Served(c, env.fetch(c).value, env.host)
      && NewlyIssued(FirstLeaf(env.fetch(c).value.cert, env.host).value, c, env, margin)
  }

  // No chain stands in front of the leaf in what a fetch returns.
  predicate Watched(env: Env, c: CertConfig) {
    env.fetch(c).Success? ==> LeafWatched(c, env.fetch(c).value)
  }

  // -------------------------------------------------------------- one run

  // What a process that dies while it is busy with a certificate can leave
  // behind: it dies at some system call, before the write or within it.
  ghost predicate Died(w: World, s: World, c: CertConfig, env: Env) {
    s == w || (env.fetch(c).Success? && Commit.Way(w, s, env.fetch(c).value, c, env.oracle, env.host))
  }

  // The same for the certificate's own files, whatever else happens to the
  // file system: what a reader may find during the run or after a death in it.
  ghost predicate OnTheWay(w: World, s: World, c: CertConfig, env: Env) {
    exists u, v :: Agree(w, u, CertPaths(c)) && Agree(v, s, CertPaths(c)) && Died(u, v, c, env)
  }

  // Where a run leads the certificate's own files.
  ghost predicate RunLeads(w: World, s: World, c: CertConfig, env: Env, died: bool) {
    if died then OnTheWay(w, s, c, env) else Agree(ProcessCert(w, c, env).world, s, CertPaths(c))
  }

  lemma Waits(w: World, s: World, c: CertConfig, env: Env)
    requires Agree(w, s, CertPaths(c))
    ensures OnTheWay(w, s, c, env)
  {
    assert Agree(w, w, CertPaths(c)) && Agree(w, s, CertPaths(c)) && Died(w, w, c, env);
  }

  // Completing a run is one of the ways.
  lemma ProcessArrives(w: World, s: World, c: CertConfig, env: Env)
    requires ValidCert(c, env.host) && Agree(ProcessCert(w, c, env).world, s, CertPaths(c))
    ensures OnTheWay(w, s, c, env)
  {
    var t := ProcessCert(w, c, env).world;
    if t != w {
      Commit.WriteWay(w, env.fetch(c).value, c, env.oracle, env.host);
    }
    assert Agree(w, w, CertPaths(c)) && Died(w, t, c, env);
  }

  // ------------------------------------------------- among other certificates

  // A completed run over certificates with files apart leads each of them
  // where it would have gone alone.
  lemma RunLeadsEach(w: World, certs: seq<CertConfig>, env: Env, i: nat)
    requires AllApart(certs) && AllValid(certs, env.host) && i < |certs|
    ensures RunLeads(w, Run(w, certs, env).world, certs[i], env, false)
  {
    RunIndependent(w, certs, env, i);
  }

  lemma DiedFrame(u: World, v: World, c: CertConfig, env: Env)
    requires ValidCert(c, env.host) && Died(u, v, c, env)
    ensures Commit.OnlyOwn(u, v, c, env.oracle)
  {
    if u != v {
      Commit.WayFrame(u, v, env.fetch(c).value, c, env.oracle, env.host);
    }
  }

  // While a run over certificates with files apart is busy with one of them,
  // every one of them is on its own way from the state before the run.
  lemma DuringRun(w: World, certs: seq<CertConfig>, env: Env, n: nat, s: World, i: nat)
    requires AllApart(certs) && AllValid(certs, env.host) && n < |certs| && i < |certs|
    requires Died(Run(w, certs[..n], env).world, s, certs[n], env)
    ensures OnTheWay(w, s, certs[i], env)
  {
    var u, c := Run(w, certs[..n], env).world, certs[i];
    if i == n {
      RunBefore(w, certs, env, n);
      assert Agree(w, u, CertPaths(c)) && Agree(s, s, CertPaths(c)) && Died(u, s, c, env);
    } else {
      DiedFrame(u, s, certs[n], env);
      ApartSides(certs, n, i);
      OthersAside(u, s, certs[n], c, env.oracle, env.host);
      BeforeOrAfter(w, certs, env, n, i);
      if i < n {
        ProcessArrives(w, s, c, env);
      } else {
        Waits(w, s, c, env);
      }
    }
  }

  // What the certificates before one leave of another.
  lemma BeforeOrAfter(w: World, certs: seq<CertConfig>, env: Env, n: nat, i: nat)
    requires AllApart(certs) && AllValid(certs, env.host) && n < |certs| && i < |certs| && i != n
    ensures var u, c := Run(w, certs[..n], env).world, certs[i];
      if i < n then Agree(ProcessCert(w, c, env).world, u, CertPaths(c)) else Agree(w, u, CertPaths(c))
  {
    var done := certs[..n];
    assert forall j :: 0 <= j < n ==> done[j] == certs[j];
    if i < n {
      RunIndependent(w, done, env, i);
    } else {
      forall j | 0 <= j < n
        ensures FilesApart(done[j], certs[i]) && ValidCert(done[j], env.host)
      {
        ApartSides(certs, j, i);
      }
      RunGrows(w, done, env, certs[i]);
    }
  }

  // ----------------------------------------------------- what a run leaves

  predicate RunFailed(w: World, c: CertConfig, env: Env, died: bool) {
    died || ProcessCert(w, c, env).result.Failure?
  }

  // At every moment of a run the leaf path holds what it held or the text of
  // what was fetched.
  lemma WayData(w: World, s: World, c: CertConfig, env: Env)
    requires ValidCert(c, env.host) && OnTheWay(w, s, c, env)
    ensures
      || LeafData(s, c) == LeafData(w, c)
      || (env.fetch(c).Success? && LeafData(s, c) == Some(LeafText(c, env.fetch(c).value)))
  {
    var u, v :| Agree(w, u, CertPaths(c)) && Agree(v, s, CertPaths(c)) && Died(u, v, c, env);
    LeafDataLocal(w, u, c);
    LeafDataLocal(v, s, c);
    if u != v {
      LeafDuringWrite(u, v, c, env.fetch(c).value, env.oracle, env.host);
    }
  }

  // A completed run that fetched without an error leaves that text.
  lemma FetchedData(w: World, s: World, c: CertConfig, env: Env)
    requires ValidCert(c, env.host) && !env.opts.dryRun && ProcessCert(w, c, env).result.Success?
    requires Agree(ProcessCert(w, c, env).world, s, CertPaths(c)) && ProcessCert(w, c, env).verdict != Skip
    ensures env.fetch(c).Success? && LeafData(s, c) == Some(LeafText(c, env.fetch(c).value))
  {
    LeafDataLocal(ProcessCert(w, c, env).world, s, c);
    WrittenLeafText(w, c, env.fetch(c).value, env.oracle, env.host);
  }

  lemma RunData(w: World, s: World, c: CertConfig, env: Env, died: bool)
    requires ValidCert(c, env.host) && RunLeads(w, s, c, env, died)
    ensures
      || LeafData(s, c) == LeafData(w, c)
      || (env.fetch(c).Success? && LeafData(s, c) == Some(LeafText(c, env.fetch(c).value)))
  {
    if !died {
      ProcessArrives(w, s, c, env);
    }
    WayData(w, s, c, env);
  }

  // The text of what was fetched shows a newly issued leaf.
  lemma NewText(s: World, c: CertConfig, env: Env, margin: int)
    requires ValidCert(c, env.host) && IssuesWell(env, c, margin)
    requires env.fetch(c).Success? && LeafData(s, c) == Some(LeafText(c, env.fetch(c).value))
    ensures DiskLeaf(s, c, env.host).Some? && NewlyIssued(DiskLeaf(s, c, env.host).value, c, env, margin)
    ensures Watched(env, c) ==> Carries(s, c, env.host)
  {
    TextLeaf(c, env.fetch(c).value, env.host);
  }

  // At every moment of a run the leaf is the old one or a newly issued one.
  lemma WayLeaf(w: World, s: World, c: CertConfig, env: Env, margin: int)
    requires ValidCert(c, env.host) && IssuesWell(env, c, margin) && OnTheWay(w, s, c, env)
    ensures var before, after := DiskLeaf(w, c, env.host), DiskLeaf(s, c, env.host);
      after == before || (after.Some? && NewlyIssued(after.value, c, env, margin))
  {
    WayData(w, s, c, env);
    if LeafData(s, c) != LeafData(w, c) {
      NewText(s, c, env, margin);
    }
  }

  // A run leaves the old leaf or a newly issued one; without an error the leaf
  // on disk is above the threshold at the time of the run, if it comes first
  // in its file, or was issued, or is new.
  lemma RunLeaf(w: World, s: World, c: CertConfig, env: Env, died: bool, margin: int)
    requires ValidCert(c, env.host) && !env.opts.dryRun
    requires IssuesWell(env, c, margin) && RunLeads(w, s, c, env, died)
    ensures var before, after, p := DiskLeaf(w, c, env.host), DiskLeaf(s, c, env.host), ProcessCert(w, c, env);
      && (after == before || (after.Some? && NewlyIssued(after.value, c, env, margin)))
      && (!RunFailed(w, c, env, died) && (LeafComesFirst(c) || Carries(w, c, env.host) || p.verdict != Skip) ==>
            && after.Some?
            && !Ttl.Due(after.value.notBefore, after.value.notAfter, env.clock(c), env.opts.threshold)
            && (p.verdict != Skip ==> Covers(after.value, env.opts.threshold, margin)))
  {
    RunData(w, s, c, env, died);
    if LeafData(s, c) != LeafData(w, c) {
      NewText(s, c, env, margin);
    }
    if !RunFailed(w, c, env, died) {
      if ProcessCert(w, c, env).verdict != Skip {
        FetchedData(w, s, c, env);
        NewText(s, c, env, margin);
      } else if LeafComesFirst(c) || Carries(w, c, env.host) {
        SkippedLeaf(w, c, env.clock(c), env.oracle, env.opts, env.host);
        LeafDataLocal(w, s, c);
      }
    }
  }

  lemma AboveMargin(leaf: Leaf, now: int, threshold: real, margin: int)
    requires threshold > 0.0
    requires !Ttl.Due(leaf.notBefore, leaf.notAfter, now, threshold)
    requires Covers(leaf, threshold, margin)
    ensures leaf.notAfter - now > margin
  {
    Ttl.NotDueLeaves(leaf.notBefore, leaf.notAfter, now, threshold);
  }

  // The leaf path holds issued text, with a leaf that covers the margin.
  ghost predicate Kept(w: World, c: CertConfig, host: Host, threshold: real, margin: int) {
    && Carries(w, c, host) && DiskLeaf(w, c, host).Some?
    && Covers(DiskLeaf(w, c, host).value, threshold, margin)
  }

  lemma CarriesData(w: World, s: World, c: CertConfig, host: Host)
    requires Carries(w, c, host) && LeafData(s, c) == LeafData(w, c)
    ensures Carries(s, c, host)
  {
    var m :| Served(c, m, host) && LeafWatched(c, m) && LeafData(w, c) == Some(LeafText(c, m));
    assert LeafData(s, c) == Some(LeafText(c, m));
  }

  // One run, in numbers: a covered leaf stays covered, and either the margin
  // is ahead of it or the run failed and left it alone.
  lemma RunKeeps(w: World, s: World, c: CertConfig, env: Env, died: bool, margin: int)
    requires ValidCert(c, env.host) && !env.opts.dryRun && env.opts.threshold > 0.0
    requires IssuesWell(env, c, margin) && Watched(env, c) && RunLeads(w, s, c, env, died)
    requires
      || (!RunFailed(w, c, env, died) && ProcessCert(w, c, env).verdict != Skip)
      || Kept(w, c, env.host, env.opts.threshold, margin)
    ensures Kept(s, c, env.host, env.opts.threshold, margin)
    ensures var after := DiskLeaf(s, c, env.host);
      || after.value.notAfter - env.clock(c) > margin
      || (RunFailed(w, c, env, died) && after == DiskLeaf(w, c, env.host))
  {
    RunLeaf(w, s, c, env, died, margin);
    RunData(w, s, c, env, died);
    if !RunFailed(w, c, env, died) && ProcessCert(w, c, env).verdict != Skip {
      FetchedData(w, s, c, env);
      NewText(s, c, env, margin);
    } else if LeafData(s, c) == LeafData(w, c) {
      CarriesData(w, s, c, env.host);
    } else {
      NewText(s, c, env, margin);
    }
    var after := DiskLeaf(s, c, env.host);
    if !RunFailed(w, c, env, died) || after != DiskLeaf(w, c, env.host) {
      AboveMargin(after.value, env.clock(c), env.opts.threshold, margin);
    }
  }

  // How many failures in a row end at position n.
  function Streak(failed: seq<bool>, n: nat): nat
    requires n <= |failed|
  {
    if n == 0 || !failed[n - 1] then 0 else Streak(failed, n - 1) + 1
  }

  // ------------------------------------------------- the margin, in numbers

  // n gaps, by addition.
  function Gaps(n: nat, gap: int): int {
    if n == 0 then 0 else gap + Gaps(n - 1, gap)
  }

  lemma {:induction false} GapsIsProduct(n: nat, gap: int)
    ensures Gaps(n, gap) == n * gap
  {
    if n == 0 {
    } else {
      GapsIsProduct(n - 1, gap);
      assert n * gap == (n - 1) * gap + gap;
    }
  }

  lemma {:induction false} GapsGrow(m: nat, n: nat, gap: int)
    requires m <= n && gap >= 0
    ensures Gaps(m, gap) <= Gaps(n, gap)
  {
    if m == n {
    } else {
      GapsGrow(m, n - 1, gap);
    }
  }

  // Run i leaves more than the margin until expiry, or fails and leaves the
  // expiry as it was.
  predicate RunLeaves(times: seq<int>, expiry: seq<int>, failed: seq<bool>, margin: int, i: nat)
    requires i < |times| == |expiry| == |failed|
  {
    expiry[i] - times[i] > margin || (i > 0 && failed[i] && expiry[i] == expiry[i - 1])
  }

  // With at most k failures in a row there is always more than one gap left.
  lemma {:induction false} MarginLasts(times: seq<int>, expiry: seq<int>, failed: seq<bool>,
                                       gap: int, k: nat, margin: int, n: nat)
    requires |times| == |expiry| == |failed| && 0 < n <= |times| && gap >= 0
    requires forall i :: 0 < i < |times| ==> times[i] - times[i - 1] <= gap
    requires margin == Gaps(k + 1, gap)
    requires forall i :: 0 <= i < |times| ==> RunLeaves(times, expiry, failed, margin, i)
    requires forall m :: 0 <= m <= |failed| ==> Streak(failed, m) <= k
    ensures expiry[n - 1] - times[n - 1] > Gaps(k + 1 - Streak(failed, n), gap)
  {
    GapsGrow(k + 1 - Streak(failed, n), k + 1, gap);
    assert RunLeaves(times, expiry, failed, margin, n - 1);
    if !(expiry[n - 1] - times[n - 1] > margin) {
      MarginLasts(times, expiry, failed, gap, k, margin, n - 1);
      assert Streak(failed, n) == Streak(failed, n - 1) + 1;
      assert Gaps(k + 1 - Streak(failed, n - 1), gap) == gap + Gaps(k + 1 - Streak(failed, n), gap);
    }
  }

  // ---------------------------------------------------------- the schedule

  // A history of runs: the world before the first, as each later one finds it,
  // and after the last; when each was over, and which died on the way.  A run
  // begins, for this certificate, when it reads the clock.
  datatype History = History(worlds: seq<World>, runs: seq<Env>, ends: seq<int>, died: seq<bool>)

  ghost predicate WellShaped(h: History) {
    |h.worlds| == |h.runs| + 1 && |h.ends| == |h.died| == |h.runs|
  }

  ghost predicate RunFits(h: History, i: nat, c: CertConfig, host: Host, threshold: real, margin: int)
    requires WellShaped(h) && i < |h.runs|
  {
    var env := h.runs[i];
    && env.host == host && env.opts.threshold == threshold && !env.opts.dryRun
    && IssuesWell(env, c, margin)
    && RunLeads(h.worlds[i], h.worlds[i + 1], c, env, h.died[i])
  }

  function FailedRuns(h: History, c: CertConfig): seq<bool>
    requires |h.worlds| == |h.runs| + 1 && |h.died| == |h.runs|
  {
    seq(|h.runs|, i requires 0 <= i < |h.runs| => RunFailed(h.worlds[i], c, h.runs[i], h.died[i]))
  }

  // Runs follow each other, and each is over at most `gap` after the one
  // before began.
  ghost predicate Paced(h: History, c: CertConfig, gap: int)
    requires WellShaped(h)
  {
    && (forall i :: 0 <= i < |h.runs| ==> h.runs[i].clock(c) <= h.ends[i])
    && (forall i :: 0 < i < |h.runs| ==>
          h.ends[i - 1] <= h.runs[i].clock(c) && h.ends[i] - h.runs[i - 1].clock(c) <= gap)
  }

  // The same machine and settings at every run, runs at that pace, at most `k`
  // failed or dead runs in a row, every certificate issued with a lifetime that
  // covers the margin.  Between runs, and during them, other files may change
  // in any way.
  ghost predicate Schedule(h: History, c: CertConfig, host: Host, threshold: real, gap: int, k: nat, margin: int) {
    && WellShaped(h) && Paced(h, c, gap)
    && (forall i {:trigger RunFits(h, i, c, host, threshold, margin)} ::
          0 <= i < |h.runs| ==> RunFits(h, i, c, host, threshold, margin))
    && (forall n :: 0 <= n <= |h.runs| ==> Streak(FailedRuns(h, c), n) <= k)
  }

  // No chain stands in front of the leaf in anything issued.
  ghost predicate LeafInSight(h: History, c: CertConfig) {
    forall i :: 0 <= i < |h.runs| ==> Watched(h.runs[i], c)
  }

  // The first run fetched and succeeded.
  ghost predicate FirstSucceeds(h: History, c: CertConfig) {
    && WellShaped(h) && h.runs != []
    && !RunFailed(h.worlds[0], c, h.runs[0], h.died[0])
    && ProcessCert(h.worlds[0], c, h.runs[0]).verdict != Skip
  }

  lemma {:induction false} RunsKeep(h: History, c: CertConfig, host: Host, threshold: real,
                                    gap: int, k: nat, margin: int, i: nat)
    requires ValidCert(c, host) && threshold > 0.0 && LeafInSight(h, c)
    requires Schedule(h, c, host, threshold, gap, k, margin) && FirstSucceeds(h, c)
    requires i < |h.runs|
    ensures Kept(h.worlds[i + 1], c, host, threshold, margin)
    ensures var after := DiskLeaf(h.worlds[i + 1], c, host);
      || after.value.notAfter - h.runs[i].clock(c) > margin
      || (i > 0 && FailedRuns(h, c)[i] && after == DiskLeaf(h.worlds[i], c, host))
  {
    if i == 0 {
    } else {
      RunsKeep(h, c, host, threshold, gap, k, margin, i - 1);
    }
    assert RunFits(h, i, c, host, threshold, margin);
    RunKeeps(h.worlds[i], h.worlds[i + 1], c, h.runs[i], h.died[i], margin);
  }

  // ------------------------------------------------- what a reader may find

  // What a reader may find at the certificate's files at an instant, once run
  // i is over: what that run left, until the next one begins, for at most a
  // gap after the last one; and any state on the way of the next run, while
  // that lasts.
  ghost predicate VisibleAt(h: History, c: CertConfig, gap: int, i: nat, s: World, instant: int)
    requires WellShaped(h) && i < |h.runs|
  {
    || (&& h.ends[i] <= instant
        && instant <= (if i + 1 < |h.runs| then h.runs[i + 1].clock(c) else h.runs[i].clock(c) + gap)
        && Agree(h.worlds[i + 1], s, CertPaths(c)))
    || (&& i + 1 < |h.runs| && h.runs[i + 1].clock(c) <= instant <= h.ends[i + 1]
        && OnTheWay(h.worlds[i + 1], s, c, h.runs[i + 1]))
  }

  ghost predicate Found(h: History, c: CertConfig, gap: int, s: World, instant: int)
    requires WellShaped(h)
  {
    exists i :: 0 <= i < |h.runs| && VisibleAt(h, c, gap, i, s, instant)
  }

  // That leaves no instant out.
  lemma {:induction false} EveryInstant(h: History, c: CertConfig, gap: int, j: nat, instant: int)
    requires WellShaped(h) && Paced(h, c, gap) && j < |h.runs|
    requires h.ends[j] <= instant <= h.runs[|h.runs| - 1].clock(c) + gap
    ensures exists s :: Found(h, c, gap, s, instant)
    decreases |h.runs| - j
  {
    var s := h.worlds[j + 1];
    assert Agree(s, s, CertPaths(c));
    if j + 1 == |h.runs| || instant <= h.runs[j + 1].clock(c) {
      assert VisibleAt(h, c, gap, j, s, instant);
      assert Found(h, c, gap, s, instant);
    } else if instant <= h.ends[j + 1] {
      Waits(s, s, c, h.runs[j + 1]);
      assert VisibleAt(h, c, gap, j, s, instant);
      assert Found(h, c, gap, s, instant);
    } else {
      EveryInstant(h, c, gap, j + 1, instant);
    }
  }

  // There is a leaf on disk, and it is valid beyond the instant.
  ghost predicate Outlives(s: World, c: CertConfig, host: Host, instant: int) {
    DiskLeaf(s, c, host).Some? && DiskLeaf(s, c, host).value.notAfter > instant
  }

  // THE LEAF NEVER EXPIRES.  From the end of the first successful fetch until
  // a gap after the last run began, whatever fails and wherever a run dies,
  // whatever happens to other files, a reader finds an unexpired certificate
  // at the leaf path at every instant, also while a run is under way, provided
  // threshold times lifetime is at least (k + 1) gaps for every certificate
  // issued.  In every layout, as long as no chain stands in front of the leaf.
  lemma NeverExpires(h: History, c: CertConfig, host: Host, threshold: real, gap: int, k: nat, s: World, instant: int)
    requires ValidCert(c, host) && threshold > 0.0 && gap >= 0 && LeafInSight(h, c)
    requires Schedule(h, c, host, threshold, gap, k, (k + 1) * gap) && FirstSucceeds(h, c)
    requires Found(h, c, gap, s, instant)
    ensures Outlives(s, c, host, instant)
  {
    GapsIsProduct(k + 1, gap);
    FoundLeaf(h, c, host, threshold, gap, k, Gaps(k + 1, gap), s, instant);
  }

  lemma FoundLeaf(h: History, c: CertConfig, host: Host, threshold: real, gap: int, k: nat, margin: int,
                  s: World, instant: int)
    requires ValidCert(c, host) && threshold > 0.0 && gap >= 0 && LeafInSight(h, c)
    requires Schedule(h, c, host, threshold, gap, k, margin) && FirstSucceeds(h, c)
    requires margin == Gaps(k + 1, gap) && Found(h, c, gap, s, instant)
    ensures Outlives(s, c, host, instant)
  {
    var i :| 0 <= i < |h.runs| && VisibleAt(h, c, gap, i, s, instant);
    LeafOutlasts(h, c, host, threshold, gap, k, margin, i);
    InstantWithin(h, c, gap, i, s, instant);
    if Agree(h.worlds[i + 1], s, CertPaths(c)) {
      LeafDataLocal(h.worlds[i + 1], s, c);
    } else {
      MarginIsAGap(k, gap);
      LeafOnTheWay(h, c, host, threshold, gap, k, margin, i, s);
    }
  }

  // Such an instant is at most a gap after run i began.
  lemma InstantWithin(h: History, c: CertConfig, gap: int, i: nat, s: World, instant: int)
    requires WellShaped(h) && Paced(h, c, gap) && i < |h.runs| && VisibleAt(h, c, gap, i, s, instant)
    ensures instant <= h.runs[i].clock(c) + gap
    ensures i + 1 < |h.runs| ==> h.runs[i].clock(c) <= h.runs[i + 1].clock(c)
  {
    if i + 1 < |h.runs| {
      assert h.runs[i].clock(c) <= h.ends[i];
      assert h.runs[i + 1].clock(c) <= h.ends[i + 1];
      assert h.ends[i + 1] - h.runs[i + 1 - 1].clock(c) <= gap;
    }
  }

  lemma MarginIsAGap(k: nat, gap: int)
    requires gap >= 0
    ensures Gaps(k + 1, gap) >= gap
  {
    GapsGrow(1, k + 1, gap);
    assert Gaps(1, gap) == gap;
  }

  lemma LeafOnTheWay(h: History, c: CertConfig, host: Host, threshold: real, gap: int, k: nat, margin: int,
                     i: nat, s: World)
    requires ValidCert(c, host) && threshold > 0.0
    requires Schedule(h, c, host, threshold, gap, k, margin)
    requires i + 1 < |h.runs| && OnTheWay(h.worlds[i + 1], s, c, h.runs[i + 1])
    ensures var before, after := DiskLeaf(h.worlds[i + 1], c, host), DiskLeaf(s, c, host);
      after == before || (after.Some? && after.value.notAfter > h.runs[i + 1].clock(c) + margin)
  {
    var env := h.runs[i + 1];
    assert RunFits(h, i + 1, c, host, threshold, margin);
    WayLeaf(h.worlds[i + 1], s, c, env, margin);
    if DiskLeaf(s, c, host) != DiskLeaf(h.worlds[i + 1], c, host) {
      AboveMargin(DiskLeaf(s, c, host).value, env.clock(c), threshold, margin);
    }
  }

  lemma LeafOutlasts(h: History, c: CertConfig, host: Host, threshold: real, gap: int, k: nat, margin: int, i: nat)
    requires ValidCert(c, host) && threshold > 0.0 && gap >= 0 && LeafInSight(h, c)
    requires Schedule(h, c, host, threshold, gap, k, margin) && FirstSucceeds(h, c)
    requires margin == Gaps(k + 1, gap) && i < |h.runs|
    ensures Outlives(h.worlds[i + 1], c, host, h.runs[i].clock(c) + gap)
  {
    RunsInNumbers(h, c, host, threshold, gap, k, margin);
    LeafPresent(h, c, host, threshold, gap, k, margin, i);
    EntryAt(h, c, host, i);
    OutlastsInNumbers(Times(h, c), Expiries(h, c, host), FailedRuns(h, c), gap, k, margin, i);
  }

  function Times(h: History, c: CertConfig): seq<int> {
    seq(|h.runs|, j requires 0 <= j < |h.runs| => h.runs[j].clock(c))
  }

  function Expiry(w: World, c: CertConfig, host: Host): int {
    var leaf := DiskLeaf(w, c, host);
    if leaf.Some? then leaf.value.notAfter else 0
  }

  // The expiry on disk after each run.
  function Expiries(h: History, c: CertConfig, host: Host): seq<int>
    requires |h.worlds| == |h.runs| + 1
  {
    seq(|h.runs|, j requires 0 <= j < |h.runs| => Expiry(h.worlds[j + 1], c, host))
  }

  ghost predicate InNumbers(times: seq<int>, expiry: seq<int>, failed: seq<bool>, gap: int, k: nat, margin: int) {
    && |times| == |expiry| == |failed|
    && (forall i :: 0 < i < |times| ==> times[i] - times[i - 1] <= gap)
    && (forall i :: 0 <= i < |times| ==> RunLeaves(times, expiry, failed, margin, i))
    && (forall m :: 0 <= m <= |failed| ==> Streak(failed, m) <= k)
  }

  lemma OutlastsInNumbers(times: seq<int>, expiry: seq<int>, failed: seq<bool>, gap: int, k: nat, margin: int, i: nat)
    requires InNumbers(times, expiry, failed, gap, k, margin)
    requires gap >= 0 && margin == Gaps(k + 1, gap) && i < |times|
    ensures expiry[i] > times[i] + gap
  {
    MarginLasts(times, expiry, failed, gap, k, margin, i + 1);
    GapsGrow(1, k + 1 - Streak(failed, i + 1), gap);
    assert Gaps(1, gap) == gap;
  }

  lemma EntryAt(h: History, c: CertConfig, host: Host, i: nat)
    requires WellShaped(h) && i < |h.runs|
    ensures Expiries(h, c, host)[i] == Expiry(h.worlds[i + 1], c, host)
    ensures Times(h, c)[i] == h.runs[i].clock(c)
  {
  }

  lemma LeafPresent(h: History, c: CertConfig, host: Host, threshold: real, gap: int, k: nat, margin: int, i: nat)
    requires ValidCert(c, host) && threshold > 0.0 && LeafInSight(h, c)
    requires Schedule(h, c, host, threshold, gap, k, margin) && FirstSucceeds(h, c)
    requires i < |h.runs|
    ensures DiskLeaf(h.worlds[i + 1], c, host).Some?
  {
    RunsKeep(h, c, host, threshold, gap, k, margin, i);
  }

  lemma RunEntry(h: History, c: CertConfig, host: Host, threshold: real, gap: int, k: nat, margin: int, i: nat)
    requires ValidCert(c, host) && threshold > 0.0 && LeafInSight(h, c)
    requires Schedule(h, c, host, threshold, gap, k, margin) && FirstSucceeds(h, c)
    requires i < |h.runs|
    ensures RunLeaves(Times(h, c), Expiries(h, c, host), FailedRuns(h, c), margin, i)
  {
    RunsKeep(h, c, host, threshold, gap, k, margin, i);
    EntryAt(h, c, host, i);
    if i > 0 {
      EntryAt(h, c, host, i - 1);
    }
  }

  lemma ScheduleEntries(h: History, c: CertConfig, host: Host, threshold: real, gap: int, k: nat, margin: int)
    requires Schedule(h, c, host, threshold, gap, k, margin)
    ensures var times := Times(h, c); forall i :: 0 < i < |times| ==> times[i] - times[i - 1] <= gap
    ensures forall m :: 0 <= m <= |FailedRuns(h, c)| ==> Streak(FailedRuns(h, c), m) <= k
  {
    var times := Times(h, c);
    forall i | 0 < i < |times|
      ensures times[i] - times[i - 1] <= gap
    {
      assert h.runs[i].clock(c) <= h.ends[i];
    }
  }

  lemma RunsInNumbers(h: History, c: CertConfig, host: Host, threshold: real, gap: int, k: nat, margin: int)
    requires ValidCert(c, host) && threshold > 0.0 && LeafInSight(h, c)
    requires Schedule(h, c, host, threshold, gap, k, margin) && FirstSucceeds(h, c)
    ensures InNumbers(Times(h, c), Expiries(h, c, host), FailedRuns(h, c), gap, k, margin)
  {
    forall j | 0 <= j < |h.runs|
      ensures RunLeaves(Times(h, c), Expiries(h, c, host), FailedRuns(h, c), margin, j)
    {
      RunEntry(h, c, host, threshold, gap, k, margin, j);
    }
    ScheduleEntries(h, c, host, threshold, gap, k, margin);
  }
}

// The reload manager: which bus connection is open, which jobs are issued on
// it, and when a reload counts as successful.
module Reload {
  import opened Bytes
  import opened Wrappers
  import opened Hosts
  import opened Config

  // How a job ends: the call is refused, the job reports a result, or the
  // context is cancelled first.
  datatype JobOutcome = Refused | Finished(result: string) | Cancelled

  const RESULT_DONE := "done"
  const RESULT_SKIPPED := "skipped"

  predicate Succeeded(o: JobOutcome) {
    o.Finished? && (o.result == RESULT_DONE || o.result == RESULT_SKIPPED)
  }

  // The calls of the systemd manager interface that the methods stand for.
  datatype Verb = ReloadUnit | RestartUnit | TryRestartUnit | ReloadOrRestartUnit | ReloadOrTryRestartUnit

  function SystemdMethod(name: string): Option<Verb> {
    if name == RELOAD then Some(ReloadUnit)
    else if name == RESTART then Some(RestartUnit)
    else if name == TRY_RESTART then Some(TryRestartUnit)
    else if name == RELOAD_OR_RESTART then Some(ReloadOrRestartUnit)
    else if name == TRY_RELOAD_OR_RESTART then Some(ReloadOrTryRestartUnit)
    else None
  }

  // What a call may do to a running unit, and whether it starts one that is
  // not running, by the manager's documentation (org.freedesktop.systemd1(5)).
  predicate MayReload(v: Verb) {
    v in {ReloadUnit, ReloadOrRestartUnit, ReloadOrTryRestartUnit}
  }

  predicate MayRestart(v: Verb) {
    v in {RestartUnit, TryRestartUnit, ReloadOrRestartUnit, ReloadOrTryRestartUnit}
  }

  predicate StartsStopped(v: Verb) {
    v in {RestartUnit, ReloadOrRestartUnit}
  }

  predicate WordAt(s: string, word: string, i: nat) {
    i <= |s| && word <= s[i..]
  }

  ghost predicate Contains(s: string, word: string) {
    exists i :: WordAt(s, word, i)
  }

  lemma WordLetters(s: string, word: string, i: nat, k: nat)
    requires WordAt(s, word, i) && k < |word|
    ensures word[k] in s
  {
    assert s[i..][k] == word[k];
  }

  lemma LetterOf(s: string, word: string, k: nat)
    requires k < |word| && word[k] !in s
    ensures !Contains(s, word)
  {
    if i: nat :| WordAt(s, word, i) {
      WordLetters(s, word, i, k);
    }
  }

  // The words in a text, for each that is a method's.
  ghost predicate Words(name: string, reload: bool, restart: bool, trying: bool) {
    && (Contains(name, "reload") <==> reload)
    && (Contains(name, "restart") <==> restart)
    && ("try-" <= name <==> trying)
  }

  lemma WordsOfReload()
    ensures Words("reload", true, false, false)
  {
    assert WordAt("reload", "reload", 0) && "reload"[0] == 'r';
    LetterOf("reload", "restart", 2);
  }

  lemma WordsOfRestart()
    ensures Words("restart", false, true, false)
  {
    assert WordAt("restart", "restart", 0);
    LetterOf("restart", "reload", 2);
    assert "restart"[0] == 'r';
  }

  lemma WordsOfTryRestart()
    ensures Words("try-restart", false, true, true)
  {
    assert WordAt("try-restart", "restart", 4);
    LetterOf("try-restart", "reload", 2);
  }

  lemma WordsOfReloadOrRestart()
    ensures Words("reload-or-restart", true, true, false)
  {
    assert WordAt("reload-or-restart", "reload", 0) && "reload-or-restart"[0] == 'r';
    assert WordAt("reload-or-restart", "restart", 10);
  }

  lemma WordsOfTryReloadOrRestart()
    ensures Words("try-reload-or-restart", true, true, true)
  {
    assert WordAt("try-reload-or-restart", "reload", 4);
    assert WordAt("try-reload-or-restart", "restart", 14);
  }

  // The words of a method say what its call does: it may reload exactly if
  // "reload" occurs, restart exactly if "restart" does, and start a stopped
  // unit exactly if it may restart without trying only.
  lemma MethodWords(name: string, v: Verb)
    requires SystemdMethod(name) == Some(v)
    ensures Contains(name, "reload") <==> MayReload(v)
    ensures Contains(name, "restart") <==> MayRestart(v)
    ensures StartsStopped(v) <==> Contains(name, "restart") && !("try-" <= name)
  {
    if name == RELOAD {
      WordsOfReload();
    } else if name == RESTART {
      WordsOfRestart();
    } else if name == TRY_RESTART {
      WordsOfTryRestart();
    } else if name == RELOAD_OR_RESTART {
      WordsOfReloadOrRestart();
    } else {
      WordsOfTryReloadOrRestart();
    }
  }

  // The table knows exactly the configurable methods and no two share a call.
  lemma MethodTable(a: string, b: string)
    ensures SystemdMethod(a).Some? <==> a in RELOAD_METHODS
    ensures a in RELOAD_METHODS <==>
      a in {"reload", "restart", "try-restart", "reload-or-restart", "try-reload-or-restart"}
    ensures SystemdMethod(a).Some? && SystemdMethod(a) == SystemdMethod(b) ==> a == b
  {
    var m := RELOAD_METHODS;
    assert m[0] == RELOAD && m[1] == RESTART && m[2] == TRY_RESTART;
    assert m[3] == RELOAD_OR_RESTART && m[4] == TRY_RELOAD_OR_RESTART;
  }

  // What happens outside, in order.
  datatype Event =
    | Opened(bus: nat)
    | OpenFailed
    | Job(bus: nat, verb: Verb, unit: string, outcome: JobOutcome)
    | Executed(argv: seq<string>, ok: bool)
    | Closed(bus: nat)

  // ------------------------------------------- the discipline of a history

  // The connection left open by a history, or None of all if the history
  // opens a second connection, uses one that is not open, or closes one twice.
  datatype Replayed = Broken | Bus(open: Option<nat>)

  function ReplayStep(state: Replayed, e: Event): Replayed {
    if state.Broken? then Broken
    else
      match e
      case Opened(b) => if state.open == None then Bus(Some(b)) else Broken
      case OpenFailed => if state.open == None then state else Broken
      case Job(b, _, _, _) => if state.open == Some(b) then state else Broken
      case Executed(_, _) => state
      case Closed(b) => if state.open == Some(b) then Bus(None) else Broken
  }

  function Replay(log: seq<Event>): Replayed {
    if log == [] then Bus(None) else ReplayStep(Replay(log[..|log| - 1]), log[|log| - 1])
  }

  function Count(log: seq<Event>, opens: bool): nat {
    if log == [] then 0
    else
      var e := log[|log| - 1];
      Count(log[..|log| - 1], opens) + (if (opens && e.Opened?) || (!opens && e.Closed?) then 1 else 0)
  }

  lemma ReplayAppend(log: seq<Event>, e: Event)
    ensures Replay(log + [e]) == ReplayStep(Replay(log), e)
    ensures (log + [e])[..|log|] == log
  {
    assert (log + [e])[..|log|] == log;
  }

  lemma CountAppend(log: seq<Event>, e: Event)
    ensures !e.Opened? ==> Count(log + [e], true) == Count(log, true)
  {
    assert (log + [e])[..|log|] == log;
  }

  // In an orderly history, opens minus closes is one exactly while a
  // connection is open and zero otherwise.
  lemma {:induction false} OpensMinusCloses(log: seq<Event>)
    requires Replay(log).Bus?
    ensures Count(log, true) - Count(log, false) == if Replay(log).open.Some? then 1 else 0
  {
    if log == [] {
    } else {
      OpensMinusCloses(log[..|log| - 1]);
    }
  }

  lemma {:induction false} PrefixOrderly(log: seq<Event>, n: nat)
    requires Replay(log).Bus? && n <= |log|
    ensures Replay(log[..n]).Bus?
  {
    if n == |log| {
      assert log[..n] == log;
    } else {
      PrefixOrderly(log[..|log| - 1], n);
      assert log[..|log| - 1][..n] == log[..n];
    }
  }

  // Every job of an orderly history runs on the connection opened last and not
  // closed since.
  lemma JobsOnOpenBus(log: seq<Event>, i: nat)
    requires Replay(log).Bus? && i < |log| && log[i].Job?
    ensures Replay(log[..i]) == Bus(Some(log[i].bus))
  {
    PrefixOrderly(log, i + 1);
    PrefixOrderly(log, i);
    assert log[..i + 1][..i] == log[..i];
  }

  // ------------------------------------------------------ what a reload does

  function MethodOf(c: CertConfig): string {
    if c.reloadMethod == "" then DEFAULT_RELOAD_METHOD else c.reloadMethod
  }

  // The call a certificate's units are reloaded with.
  function VerbOf(c: CertConfig): Option<Verb> {
    SystemdMethod(MethodOf(c))
  }

  // The jobs are those of the first units, in order, all but the last
  // successful.
  ghost predicate IssuedPrefix(jobs: seq<Event>, bus: nat, verb: Verb, units: seq<string>) {
    && |jobs| <= |units|
    && (forall i :: 0 <= i < |jobs| ==>
          jobs[i].Job? && jobs[i].bus == bus && jobs[i].verb == verb && jobs[i].unit == units[i])
    && (forall i :: 0 <= i < |jobs| - 1 ==> Succeeded(jobs[i].outcome))
  }

  ghost predicate AllSucceeded(jobs: seq<Event>) {
    forall i :: 0 <= i < |jobs| ==> jobs[i].Job? && Succeeded(jobs[i].outcome)
  }

  lemma IssuedNext(jobs: seq<Event>, bus: nat, verb: Verb, units: seq<string>, o: JobOutcome)
    requires IssuedPrefix(jobs, bus, verb, units) && AllSucceeded(jobs) && |jobs| < |units|
    ensures IssuedPrefix(jobs + [Job(bus, verb, units[|jobs|], o)], bus, verb, units)
    ensures Succeeded(o) ==> AllSucceeded(jobs + [Job(bus, verb, units[|jobs|], o)])
  {
  }

  // What reloading a certificate with units does to the held connection and to
  // the history: with an unknown method nothing; otherwise the connection is
  // opened if none is held, and if that works the jobs follow.  Success means
  // that every unit's job ended well; a failure is the last job issued.
  ghost predicate SystemdOutcome(c: CertConfig, held: Option<nat>, before: seq<Event>,
                                 holds: Option<nat>, after: seq<Event>, ok: bool, jobs: seq<Event>)
  {
    && (held.Some? ==> holds == held)
    && (VerbOf(c) == None ==> !ok && jobs == [] && after == before && holds == held)
    && (VerbOf(c).Some? && holds == None ==> !ok && jobs == [] && after == before + [OpenFailed])
    && (VerbOf(c).Some? && holds.Some? ==>
          && after == before + (if held == None then [Opened(holds.value)] else []) + jobs
          && IssuedPrefix(jobs, holds.value, VerbOf(c).value, c.reloadUnits)
          && (ok <==> |jobs| == |c.reloadUnits| && AllSucceeded(jobs))
          && (!ok ==> jobs != [] && !Succeeded(jobs[|jobs| - 1].outcome)))
  }

  // Without a method units are reloaded or else restarted, and stopped ones
  // left alone.
  lemma DefaultMethod(c: CertConfig)
    requires c.reloadMethod == ""
    ensures MethodOf(c) == "try-reload-or-restart" && VerbOf(c).Some?
    ensures MayReload(VerbOf(c).value) && MayRestart(VerbOf(c).value) && !StartsStopped(VerbOf(c).value)
  {
    MethodTable(MethodOf(c), "");
    assert RELOAD_METHODS[4] == DEFAULT_RELOAD_METHOD;
    MethodWords(MethodOf(c), VerbOf(c).value);
  }

  // A configured method is the one that is used.
  lemma ConfiguredMethod(c: CertConfig, host: Host)
    requires ValidCert(c, host) && c.reloadMethod != ""
    ensures VerbOf(c).Some?
    ensures Contains(c.reloadMethod, "reload") <==> MayReload(VerbOf(c).value)
    ensures Contains(c.reloadMethod, "restart") <==> MayRestart(VerbOf(c).value)
    ensures StartsStopped(VerbOf(c).value) <==> Contains(c.reloadMethod, "restart") && !("try-" <= c.reloadMethod)
  {
    MethodTable(c.reloadMethod, "");
    MethodWords(c.reloadMethod, VerbOf(c).value);
  }

  // A reload of units succeeds exactly when every unit has its job and every
  // job is reported done, or skipped as one is for a unit that does not run.
  lemma SkippedCountsAsDone(c: CertConfig, held: Option<nat>, before: seq<Event>,
                            holds: Option<nat>, after: seq<Event>, ok: bool, jobs: seq<Event>)
    requires SystemdOutcome(c, held, before, holds, after, ok, jobs) && VerbOf(c).Some? && holds.Some?
    ensures ok <==>
      && |jobs| == |c.reloadUnits|
      && forall i :: 0 <= i < |jobs| ==>
           jobs[i].Job? && (jobs[i].outcome == Finished("done") || jobs[i].outcome == Finished("skipped"))
  {
  }

  // Validation leaves no unknown reload method.
  lemma ValidMethodKnown(c: CertConfig, host: Host)
    requires ValidCert(c, host)
    ensures VerbOf(c).Some?
  {
    MethodTable(MethodOf(c), "");
    assert RELOAD_METHODS[4] == DEFAULT_RELOAD_METHOD;
  }

  class Manager {
    var bus: Option<nat>
    var log: seq<Event>
    var connections: nat

    // The connection the manager holds is the one its history left open.
    ghost predicate Valid()
      reads this
    {
      Replay(log) == Bus(bus)
    }

    constructor ()
      ensures Valid() && bus == None && log == []
    {
      bus, log, connections := None, [], 0;
    }

    // The system bus may refuse.
    method OpenBus() returns (b: Option<nat>)
      requires Valid() && bus == None
      modifies `log, `connections
      ensures b == None ==> log == old(log) + [OpenFailed]
      ensures b.Some? ==> log == old(log) + [Opened(b.value)]
    {
      if * {
        log := log + [OpenFailed];
        return None;
      }
      connections := connections + 1;
      log := log + [Opened(connections)];
      return Some(connections);
    }

    method Connect() returns (b: Option<nat>)
      requires Valid()
      modifies this
      ensures Valid()
      ensures old(bus).Some? ==> b == old(bus) && bus == old(bus) && log == old(log)
      ensures old(bus) == None && b.Some? ==> bus == b && log == old(log) + [Opened(b.value)]
      ensures b == None ==> old(bus) == None && bus == None && log == old(log) + [OpenFailed]
    {
      if bus.Some? {
        return bus;
      }
      b := OpenBus();
      if b == None {
        ReplayAppend(old(log), OpenFailed);
        return None;
      }
      ReplayAppend(old(log), Opened(b.value));
      bus := b;
    }

    method RunSystemdJob(b: nat, verb: Verb, unit: string) returns (ok: bool)
      requires Valid() && bus == Some(b)
      modifies `log
      ensures Valid()
      ensures exists o :: log == old(log) + [Job(b, verb, unit, o)] && (ok <==> Succeeded(o))
    {
      var o: JobOutcome;
      if * {
        o := Refused;
      } else if * {
        o := Cancelled;
      } else {
        var result: string := *;
        o := Finished(result);
      }
      log := log + [Job(b, verb, unit, o)];
      ReplayAppend(old(log), Job(b, verb, unit, o));
      match o {
        case Refused => return false;
        case Cancelled => return false;
        case Finished(result) => return !(result != RESULT_DONE && result != RESULT_SKIPPED);
      }
    }

    // Issues one job per unit, in order, up to the first that fails.
    method ReloadSystemd(c: CertConfig) returns (ok: bool, ghost jobs: seq<Event>)
      requires Valid()
      modifies this
      ensures Valid()
      ensures SystemdOutcome(c, old(bus), old(log), bus, log, ok, jobs)
    {
      jobs := [];
      var verb := SystemdMethod(MethodOf(c));
      if verb == None {
        return false, [];
      }
      var b := Connect();
      if b == None {
        return false, [];
      }
      ghost var start := log;
      for i := 0 to |c.reloadUnits|
        invariant Valid() && bus == b
        invariant log == start + jobs
        invariant |jobs| == i && AllSucceeded(jobs)
        invariant IssuedPrefix(jobs, b.value, verb.value, c.reloadUnits)
      {
        ghost var before := log;
        var done := RunSystemdJob(b.value, verb.value, c.reloadUnits[i]);
        ghost var o :| log == before + [Job(b.value, verb.value, c.reloadUnits[i], o)] && (done <==> Succeeded(o));
        ghost var job := Job(b.value, verb.value, c.reloadUnits[i], o);
        IssuedNext(jobs, b.value, verb.value, c.reloadUnits, o);
        Associative(start, jobs, [job]);
        jobs := jobs + [job];
        if !done {
          assert !AllSucceeded(jobs) by { assert jobs[i] == job; }
          return false, jobs;
        }
      }
      return true, jobs;
    }

    // Runs the configured command directly.
    method ReloadExec(c: CertConfig) returns (ok: bool)
      requires Valid() && c.reloadCommand != []
      modifies `log
      ensures Valid()
      ensures log == old(log) + [Executed(c.reloadCommand, ok)]
    {
      if * {
        ok := true;
      } else {
        ok := false;
      }
      log := log + [Executed(c.reloadCommand, ok)];
      ReplayAppend(old(log), Executed(c.reloadCommand, ok));
    }

    // Units win over a command; with neither there is nothing to do.
    method Reload(c: CertConfig) returns (ok: bool, ghost jobs: seq<Event>)
      requires Valid()
      modifies this
      ensures Valid()
      ensures c.reloadUnits != [] ==> SystemdOutcome(c, old(bus), old(log), bus, log, ok, jobs)
      ensures c.reloadUnits == [] ==> bus == old(bus)
      ensures c.reloadUnits == [] && c.reloadCommand == [] ==> ok && log == old(log)
      ensures c.reloadUnits == [] && c.reloadCommand != [] ==> log == old(log) + [Executed(c.reloadCommand, ok)]
    {
      jobs := [];
      if |c.reloadUnits| > 0 {
        ok, jobs := ReloadSystemd(c);
        return;
      }
      if |c.reloadCommand| > 0 {
        ok := ReloadExec(c);
        return;
      }
      return true, [];
    }

    method Close()
      requires Valid()
      modifies this
      ensures Valid() && bus == None
      ensures log == if old(bus).Some? then old(log) + [Closed(old(bus).value)] else old(log)
    {
      if bus.Some? {
        log := log + [Closed(bus.value)];
        ReplayAppend(old(log), Closed(bus.value));
        bus := None;
      }
    }
  }

  // --------------------------------------------------- any sequence of calls

  datatype Call = ReloadCall(cert: CertConfig) | CloseCall

  // Whatever the calls, the history stays orderly: opens minus closes says
  // whether a connection is held, and nothing but a cert with units opens one.
  method Drive(calls: seq<Call>) returns (m: Manager)
    ensures fresh(m) && m.Valid()
    ensures Count(m.log, true) - Count(m.log, false) == if m.bus.Some? then 1 else 0
    ensures (forall i :: 0 <= i < |calls| && calls[i].ReloadCall? ==> calls[i].cert.reloadUnits == [])
      ==> m.bus == None && Count(m.log, true) == 0
  {
    m := new Manager();
    for i := 0 to |calls|
      invariant fresh(m) && m.Valid()
      invariant (forall j :: 0 <= j < i && calls[j].ReloadCall? ==> calls[j].cert.reloadUnits == [])
        ==> m.bus == None && Count(m.log, true) == 0
    {
      ghost var before := m.log;
      if calls[i].CloseCall? {
        m.Close();
      } else {
        ghost var jobs;
        var ok;
        ok, jobs := m.Reload(calls[i].cert);
        CountAppend(before, Executed(calls[i].cert.reloadCommand, ok));
      }
    }
    OpensMinusCloses(m.log);
  }
}

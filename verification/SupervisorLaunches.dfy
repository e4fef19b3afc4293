/**
  What the supervision loop does at each visit, exactly, over every run of
  Supervisor: each outage is counted once, a restart or a probe is launched as
  soon as it may be, and a streak is forgotten as soon as health has lasted.
 */
module SupervisorLaunches {
  import opened Options
  import opened Supervisor

  /** Crashes recorded since the last recovery. */
  function Crashes(log: seq<Event>): nat {
    if log == [] || Last(log).Recovered? then 0 else Crashes(Front(log)) + if Last(log).Crashed? then 1 else 0
  }

  /** The wait before attempt n, from the configured list: past its end, its last entry. */
  function Wait(backoff: seq<nat>, n: nat): nat
    requires backoff != [] && n >= 1
  {
    backoff[if n <= |backoff| then n - 1 else |backoff| - 1]
  }

  /** Each crash carries its number in its streak. */
  predicate CrashesNumbered(log: seq<Event>) {
    log == [] || (CrashesNumbered(Front(log)) && (Last(log).Crashed? ==> Last(log).attempt == Crashes(Front(log)) + 1))
  }

  /** The counters against the history: the streak's length, and a crash awaiting its restart. */
  predicate ExactInv(v: Provider, mine: Mine) {
    && v.state.attempts == Crashes(v.log) && CrashesNumbered(v.log)
    && (!v.state.isOpen ==> (v.state.detected <==> Unanswered(v.log).Some?))
    && (mine.MyProbe? ==> Unanswered(v.log).None?)
  }

  // ---- One visit ------------------------------------------------------------------------

  /** The crash a down provider's next restart answers: the one on record, or the one just noticed. */
  function CrashOf(v: Provider, t: int): Event {
    if Unanswered(v.log).Some? then Unanswered(v.log).value else Crashed(t, Crashes(v.log) + 1)
  }

  predicate MayRestart(p: Policy, crash: Event, idle: bool, u: int)
    requires ValidPolicy(p)
  {
    crash.Crashed? && crash.attempt >= 1 && idle && crash.attempt <= p.maxAttempts
    && u >= crash.at + Wait(p.backoff, crash.attempt)
  }

  lemma NoticedExactly(p: Policy, interval: nat, v: Provider, now: int, t: int)
    requires ValidPolicy(p) && p.enabled && ProviderInv(p, interval, v, NotMine, now) && ExactInv(v, NotMine)
    requires !v.up && !v.state.isOpen && now <= t
    ensures var w, crash := Noticed(p, v, interval, t), CrashOf(v, t);
            && w.log == v.log + [Unhealthy(t)] + (if Unanswered(v.log).None? then [crash] else [])
            && ExactInv(w, NotMine) && crash.Crashed? && crash.attempt >= 1 && w.state.detected && w.up == v.up
            && (w.state.isOpen <==> crash.attempt > p.maxAttempts)
            && (!w.state.isOpen ==> w.state.next == crash.at + Wait(p.backoff, crash.attempt))
  {
    var seen := v.log + [Unhealthy(t)];
    Snoc(v.log, Unhealthy(t));
    Snoc(seen, Crashed(t, Crashes(v.log) + 1));
    assert seen + [] == seen;
  }

  /**
    A visit that finds the provider down, its circuit closed: the outage is noted
    once, and a restart is launched exactly when none is in flight, the streak is
    within its limit, and the crash's wait is over.
   */
  lemma DownVisitExactly(p: Policy, interval: nat, v: Provider, now: int, idle: bool, t: int, u: int)
    requires ValidPolicy(p) && p.enabled && ProviderInv(p, interval, v, NotMine, now) && ExactInv(v, NotMine)
    requires !v.up && !v.state.isOpen && now <= t <= u
    ensures var (w, launch) := Visited(p, v, interval, idle, t, u);
            var crash := CrashOf(v, t);
            && w.log == v.log + [Unhealthy(t)] + (if Unanswered(v.log).None? then [crash] else [])
                        + (if MayRestart(p, crash, idle, u) then [Restarted(u)] else [])
            && launch == (if MayRestart(p, crash, idle, u) then LaunchRestart else NoLaunch)
            && ExactInv(w, Launched(launch))
  {
    NoticedExactly(p, interval, v, now, t);
    var noted := Noticed(p, v, interval, t);
    Snoc(noted.log, Restarted(u));
    assert noted.log + [] == noted.log;
  }

  /** The stretch of health the visit extends, or begins. */
  function HealthyFrom(log: seq<Event>, t: int): int {
    if HealthySince(log).Some? then HealthySince(log).value else t
  }

  /** A visit that finds it up: the streak is forgotten exactly when there is one and health has lasted. */
  lemma UpVisitExactly(p: Policy, interval: nat, v: Provider, now: int, idle: bool, t: int, u: int)
    requires ValidPolicy(p) && p.enabled && ProviderInv(p, interval, v, NotMine, now) && ExactInv(v, NotMine)
    requires v.up && now <= t <= u
    ensures var (w, launch) := Visited(p, v, interval, idle, t, u);
            var recovers := Crashes(v.log) > 0 && u - HealthyFrom(v.log, t) >= p.successReset;
            && w.log == v.log + [Healthy(t)] + (if recovers then [Recovered(u)] else [])
            && launch == NoLaunch && ExactInv(w, NotMine)
  {
    var seen := v.log + [Healthy(t)];
    Snoc(v.log, Healthy(t));
    Snoc(seen, Recovered(u));
    assert seen + [] == seen;
  }

  /** A visit that finds it down, its circuit open: a probe is launched exactly when nothing flies and it is time. */
  lemma OpenVisitExactly(p: Policy, interval: nat, v: Provider, now: int, idle: bool, t: int, u: int)
    requires ValidPolicy(p) && p.enabled && ProviderInv(p, interval, v, NotMine, now) && ExactInv(v, NotMine)
    requires !v.up && v.state.isOpen && now <= t <= u
    ensures var (w, launch) := Visited(p, v, interval, idle, t, u);
            var probes := idle && u >= v.state.next;
            && w.log == v.log + [Unhealthy(t)] + (if probes then [Probed(u)] else [])
            && launch == (if probes then LaunchProbe else NoLaunch)
            && w.state == v.state && ExactInv(w, Launched(launch))
  {
    var seen := v.log + [Unhealthy(t)];
    Snoc(v.log, Unhealthy(t));
    Snoc(seen, Probed(u));
    assert seen + [] == seen;
  }

  lemma VisitKeepsExact(p: Policy, interval: nat, v: Provider, now: int, idle: bool, t: int, u: int)
    requires ValidPolicy(p) && p.enabled && ProviderInv(p, interval, v, NotMine, now) && ExactInv(v, NotMine)
    requires now <= t <= u
    ensures var (w, launch) := Visited(p, v, interval, idle, t, u); ExactInv(w, Launched(launch))
  {
    if v.up {
      UpVisitExactly(p, interval, v, now, idle, t, u);
    } else if v.state.isOpen {
      OpenVisitExactly(p, interval, v, now, idle, t, u);
    } else {
      DownVisitExactly(p, interval, v, now, idle, t, u);
    }
  }

  // ---- Every run ---------------------------------------------------------------------------

  ghost predicate FleetExact(c: Setup, s: Fleet) {
    forall id <- s.providers :: id in c.policies && c.policies[id].enabled ==> ExactInv(s.providers[id], MineOf(s, id))
  }

  lemma StepKeepsExact(c: Setup, s: Fleet, a: Action, id: Id)
    requires ValidSetup(c) && Inv(c, s) && FleetExact(c, s) && Enabled(c, s, a)
    requires id in s.providers && c.policies[id].enabled
    ensures var s' := Fire(c, s, a); ExactInv(s'.providers[id], MineOf(s', id))
  {
    var p, v := c.policies[id], s.providers[id];
    assert ProviderInv(p, c.interval, v, MineOf(s, id), s.now) && ExactInv(v, MineOf(s, id));
    match a
    case Visit(x, t, u) =>
      VisitKeepsInv(c.policies[x], c.interval, s.providers[x], s.now, s.flight.None?, t, u);
      if x == id {
        VisitKeepsExact(p, c.interval, v, s.now, s.flight.None?, t, u);
      }
    case Collect(t) =>
    case WorkerReturns(restarted) =>
    case Dies(x) =>
  }

  lemma {:induction false} RunsKeepExact(c: Setup, run: seq<Fleet>, n: nat)
    requires IsRun(c, run) && n < |run|
    ensures FleetExact(c, run[n])
  {
    if n > 0 {
      RunsKeepExact(c, run, n - 1);
      RunStepKeepsExact(c, run, n);
    }
  }

  lemma RunStepKeepsExact(c: Setup, run: seq<Fleet>, n: nat)
    requires IsRun(c, run) && 0 < n < |run| && FleetExact(c, run[n - 1])
    ensures FleetExact(c, run[n])
  {
    RunsKeepInv(c, run, n - 1);
    assert StepsTo(c, run, n);
    NextKeepsExact(c, run[n - 1], run[n]);
  }

  lemma NextKeepsExact(c: Setup, s: Fleet, s': Fleet)
    requires ValidSetup(c) && Inv(c, s) && FleetExact(c, s) && Next(c, s, s')
    ensures FleetExact(c, s')
  {
    var a: Action :| Enabled(c, s, a) && s' == Fire(c, s, a);
    forall id <- s'.providers | id in c.policies && c.policies[id].enabled
      ensures ExactInv(s'.providers[id], MineOf(s', id))
    {
      StepKeepsExact(c, s, a, id);
    }
  }

  lemma RunProvider(c: Setup, run: seq<Fleet>, n: nat, id: Id)
    requires IsRun(c, run) && n < |run| && id in run[n].providers
    ensures id in c.policies && ValidPolicy(c.policies[id])
    ensures ProviderInv(c.policies[id], c.interval, run[n].providers[id], MineOf(run[n], id), run[n].now)
    ensures c.policies[id].enabled ==> ExactInv(run[n].providers[id], MineOf(run[n], id))
  {
    RunsKeepInv(c, run, n);
    RunsKeepExact(c, run, n);
  }

  // ---- Main results ---------------------------------------------------------------------------

  lemma {:induction false} NumberedAt(log: seq<Event>, i: nat)
    requires CrashesNumbered(log) && i < |log| && log[i].Crashed?
    ensures log[i].attempt == Crashes(log[..i]) + 1
    decreases |log|
  {
    if i < |log| - 1 {
      NumberedAt(Front(log), i);
      assert Front(log)[..i] == log[..i];
    }
  }

  /** In every run each crash is numbered by how many its streak already had. */
  lemma CrashesAreCounted(c: Setup, run: seq<Fleet>, n: nat, id: Id, i: nat)
    requires IsRun(c, run) && n < |run| && id in run[n].providers && id in c.policies && c.policies[id].enabled
    requires i < |run[n].providers[id].log| && run[n].providers[id].log[i].Crashed?
    ensures run[n].providers[id].log[i].attempt == Crashes(run[n].providers[id].log[..i]) + 1
  {
    RunProvider(c, run, n, id);
    NumberedAt(run[n].providers[id].log, i);
  }

  /** What a visit adds to the provider's history and launches, told by that history. */
  ghost predicate VisitedExactly(p: Policy, s: Fleet, s': Fleet, id: Id, t: int, u: int)
    requires ValidPolicy(p) && id in s.providers && id in s'.providers
  {
    var v, log, idle := s.providers[id], s'.providers[id].log, s.flight.None?;
    if v.up then
      && log == v.log + [Healthy(t)]
                + (if Crashes(v.log) > 0 && u - HealthyFrom(v.log, t) >= p.successReset then [Recovered(u)] else [])
      && s'.flight == s.flight
    else if v.state.isOpen then
      && log == v.log + [Unhealthy(t)] + (if idle && u >= v.state.next then [Probed(u)] else [])
      && s'.flight == if idle && u >= v.state.next then Some(Flight(id, true, None)) else s.flight
    else
      var crash := CrashOf(v, t);
      && log == v.log + [Unhealthy(t)] + (if Unanswered(v.log).None? then [crash] else [])
                + (if MayRestart(p, crash, idle, u) then [Restarted(u)] else [])
      && s'.flight == if MayRestart(p, crash, idle, u) then Some(Flight(id, false, None)) else s.flight
  }

  /**
    Every visit of every run, to a provider whose supervision is enabled: what is
    recorded and what is launched is settled by its history alone. No restart is
    early, and none that may be launched is withheld.
   */
  lemma VisitsAreExact(c: Setup, run: seq<Fleet>, n: nat, id: Id, t: int, u: int)
    requires IsRun(c, run) && 0 < n < |run| && Enabled(c, run[n - 1], Visit(id, t, u))
    requires run[n] == Fire(c, run[n - 1], Visit(id, t, u)) && c.policies[id].enabled
    ensures ValidPolicy(c.policies[id]) && VisitedExactly(c.policies[id], run[n - 1], run[n], id, t, u)
  {
    RunProvider(c, run, n - 1, id);
    var p, s := c.policies[id], run[n - 1];
    var v := s.providers[id];
    if v.up {
      UpVisitExactly(p, c.interval, v, s.now, s.flight.None?, t, u);
    } else if v.state.isOpen {
      OpenVisitExactly(p, c.interval, v, s.now, s.flight.None?, t, u);
    } else {
      DownVisitExactly(p, c.interval, v, s.now, s.flight.None?, t, u);
    }
  }

  // ---- An open circuit is probed ------------------------------------------------------------------

  predicate IsOpen(s: Fleet, id: Id) { id in s.providers && s.providers[id].state.isOpen && !MineOf(s, id).MyProbe? }

  /** The next probe is due within an interval. */
  predicate DueWithin(s: Fleet, id: Id, interval: nat) {
    IsOpen(s, id) ==> s.providers[id].state.next <= s.now + interval
  }

  lemma StepKeepsDue(c: Setup, s: Fleet, s': Fleet, id: Id)
    requires ValidSetup(c) && Next(c, s, s') && id in s.providers && id in c.policies && c.policies[id].enabled
    requires DueWithin(s, id, c.interval)
    ensures id in s'.providers && DueWithin(s', id, c.interval) && s.now <= s'.now
    ensures IsOpen(s, id) && IsOpen(s', id) ==> s'.providers[id].state.next == s.providers[id].state.next
  {
    var a: Action :| Enabled(c, s, a) && s' == Fire(c, s, a);
  }

  lemma {:induction false} RunsKeepDue(c: Setup, run: seq<Fleet>, n: nat, id: Id)
    requires IsRun(c, run) && n < |run| && id in c.policies && c.policies[id].enabled
    ensures id in run[n].providers && DueWithin(run[n], id, c.interval)
  {
    if n > 0 {
      RunsKeepDue(c, run, n - 1, id);
      assert StepsTo(c, run, n);
      StepKeepsDue(c, run[n - 1], run[n], id);
    }
  }

  ghost predicate OpenThroughout(run: seq<Fleet>, m: nat, n: nat, id: Id)
    requires n < |run|
  {
    forall k :: m <= k <= n ==> IsOpen(run[k], id)
  }

  lemma {:induction false} DueStays(c: Setup, run: seq<Fleet>, m: nat, n: nat, id: Id)
    requires IsRun(c, run) && m <= n < |run| && id in c.policies && c.policies[id].enabled
    requires OpenThroughout(run, m, n, id)
    ensures id in run[n].providers && run[n].providers[id].state.next <= run[m].now + c.interval
    decreases n - m
  {
    if m == n {
      RunsKeepDue(c, run, m, id);
    } else {
      DueStays(c, run, m, n - 1, id);
      RunsKeepDue(c, run, n - 1, id);
      assert StepsTo(c, run, n);
      StepKeepsDue(c, run[n - 1], run[n], id);
    }
  }

  /**
    With the circuit open and no probe of it in flight from state m on, a visit an
    interval later that finds the provider down and no restart in flight probes it.
   */
  lemma OpenCircuitIsProbed(c: Setup, run: seq<Fleet>, m: nat, n: nat, id: Id, t: int, u: int)
    requires IsRun(c, run) && m < n < |run| && id in c.policies && c.policies[id].enabled
    requires OpenThroughout(run, m, n - 1, id) && u >= run[m].now + c.interval
    requires Enabled(c, run[n - 1], Visit(id, t, u)) && run[n] == Fire(c, run[n - 1], Visit(id, t, u))
    requires !run[n - 1].providers[id].up && run[n - 1].flight.None?
    ensures run[n].flight == Some(Flight(id, true, None))
  {
    DueStays(c, run, m, n - 1, id);
    VisitsAreExact(c, run, n, id, t, u);
  }
}

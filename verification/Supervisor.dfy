/**
  Provider supervision: the restart bookkeeping of
  core/provider/provider_supervisor.cpp driven by the main loop of
  core/runtime/runtime.cpp, one restart in flight at a time.

  Clock readings are parameters that never decrease, in milliseconds.
 */
module Supervisor {
  import opened Options

  type Id = string

  datatype Policy = Policy(enabled: bool, maxAttempts: nat, backoff: seq<nat>, successReset: nat)

  /** What configuration validation lets through. */
  predicate ValidPolicy(p: Policy) { p.backoff != [] }

  /** Delay before attempt n: past the end of the list, its last entry. */
  function Backoff(p: Policy, n: nat): nat
    requires ValidPolicy(p) && n >= 1
  {
    if n - 1 < |p.backoff| then p.backoff[n - 1] else p.backoff[|p.backoff| - 1]
  }

  datatype State = State(attempts: nat, isOpen: bool, detected: bool, next: int, started: Option<int>)

  const FRESH := State(0, false, false, 0, None)

  function Crash(p: Policy, s: State, interval: nat, now: int): State
    requires ValidPolicy(p)
  {
    if !p.enabled then s.(isOpen := true)
    else
      var n := s.attempts + 1;
      if n > p.maxAttempts then s.(attempts := n, started := None, isOpen := true, next := now + interval)
      else s.(attempts := n, started := None, next := now + Backoff(p, n))
  }

  function ProbeResult(s: State, restarted: bool, interval: nat, now: int): State {
    if restarted then s.(isOpen := false, detected := false) else s.(next := now + interval)
  }

  function Success(s: State): State { s.(attempts := 0, isOpen := false, detected := false, next := 0) }

  function Heartbeat(s: State, now: int): State { if s.started.None? then s.(started := Some(now)) else s }

  predicate ShouldRestart(p: Policy, s: State, now: int) { p.enabled && !s.isOpen && now >= s.next }

  predicate ShouldProbe(p: Policy, s: State, now: int) { p.enabled && s.isOpen && now >= s.next }

  predicate ShouldMarkRecovered(p: Policy, s: State, now: int) {
    p.enabled && !s.isOpen && s.attempts > 0 && s.started.Some? && now - s.started.value >= p.successReset
  }

  /** The supervisor object: every call names a provider, and an unknown one changes nothing. */
  class ProviderSupervisor {
    const interval: nat
    var policies: map<Id, Policy>
    var states: map<Id, State>

    predicate Valid() reads this { policies.Keys == states.Keys && forall id <- policies :: ValidPolicy(policies[id]) }

    constructor (probeInterval: nat)
      ensures Valid() && states == map[] && interval == probeInterval
    {
      interval, policies, states := probeInterval, map[], map[];
    }

    method RegisterProvider(id: Id, policy: Policy)
      requires Valid() && ValidPolicy(policy)
      modifies this
      ensures Valid() && policies == old(policies)[id := policy] && states == old(states)[id := FRESH]
    {
      policies, states := policies[id := policy], states[id := FRESH];
    }

    method RecordCrash(id: Id, now: int) returns (retry: bool)
      requires Valid()
      modifies `states
      ensures Valid()
      ensures id !in states ==> states == old(states) && !retry
      ensures id in states ==>
                && states == old(states)[id := Crash(policies[id], old(states)[id], interval, now)]
                && (retry <==> policies[id].enabled && states[id].attempts <= policies[id].maxAttempts)
    {
      if id !in states {
        return false;
      }
      var policy, state := policies[id], states[id];
      if !policy.enabled {
        states := states[id := state.(isOpen := true)];
        return false;
      }
      state := state.(attempts := state.attempts + 1, started := None);
      if state.attempts > policy.maxAttempts {
        states := states[id := state.(isOpen := true, next := now + interval)];
        return false;
      }
      var index := state.attempts - 1;
      if index >= |policy.backoff| {
        index := |policy.backoff| - 1;
      }
      states := states[id := state.(next := now + policy.backoff[index])];
      return true;
    }

    method RecordProbeResult(id: Id, restarted: bool, now: int)
      requires Valid()
      modifies `states
      ensures Valid()
      ensures id !in old(states) ==> states == old(states)
      ensures id in old(states) ==>
                states == old(states)[id := ProbeResult(old(states)[id], restarted, interval, now)]
    {
      if id in states {
        if restarted {
          states := states[id := states[id].(isOpen := false, detected := false)];
        } else {
          states := states[id := states[id].(next := now + interval)];
        }
      }
    }

    method RecordSuccess(id: Id)
      requires Valid()
      modifies `states
      ensures Valid()
      ensures states == if id in old(states) then old(states)[id := Success(old(states)[id])] else old(states)
    {
      if id in states {
        states := states[id := states[id].(attempts := 0, isOpen := false, detected := false, next := 0)];
      }
    }

    method RecordHeartbeat(id: Id, now: int)
      requires Valid()
      modifies `states
      ensures Valid()
      ensures states == if id in old(states) then old(states)[id := Heartbeat(old(states)[id], now)] else old(states)
    {
      if id in states && states[id].started.None? {
        states := states[id := states[id].(started := Some(now))];
      }
    }

    /** True for the first sight of an outage only. */
    method MarkCrashDetected(id: Id) returns (first: bool)
      requires Valid()
      modifies `states
      ensures Valid() && (first <==> id in old(states) && !old(states)[id].detected)
      ensures states == if first then old(states)[id := old(states)[id].(detected := true)] else old(states)
    {
      if id !in states || states[id].detected {
        return false;
      }
      states := states[id := states[id].(detected := true)];
      return true;
    }
  }

  // ---- What a provider's history must look like --------------------------------------------------

  /** What the loop saw and did, for one provider. */
  datatype Event =
    | Healthy(at: int)
    | Unhealthy(at: int)
    | Crashed(at: int, attempt: nat)
    | Restarted(at: int)
    | Probed(at: int)
    | Recovered(at: int)

  function Front(log: seq<Event>): seq<Event> requires log != [] { log[..|log| - 1] }

  function Last(log: seq<Event>): Event requires log != [] { log[|log| - 1] }

  /** Ordinary restarts since the last recovery. */
  function Restarts(log: seq<Event>): nat {
    if log == [] || Last(log).Recovered? then 0
    else Restarts(Front(log)) + if Last(log).Restarted? then 1 else 0
  }

  /** A crash since the last recovery went over the limit. */
  predicate Tripped(p: Policy, log: seq<Event>) {
    log != [] && !Last(log).Recovered?
    && (Tripped(p, Front(log)) || (Last(log).Crashed? && Last(log).attempt > p.maxAttempts))
  }

  /** The last crash, while no restart or probe has answered it. */
  function Unanswered(log: seq<Event>): Option<Event> {
    if log == [] || Last(log).Restarted? || Last(log).Probed? then None
    else if Last(log).Crashed? then Some(Last(log))
    else Unanswered(Front(log))
  }

  function LastProbe(log: seq<Event>): Option<int> {
    if log == [] then None else if Last(log).Probed? then Some(Last(log).at) else LastProbe(Front(log))
  }

  /** When the current unbroken stretch of healthy sightings began. */
  function HealthySince(log: seq<Event>): Option<int> {
    if log == [] || Last(log).Unhealthy? then None
    else if Last(log).Healthy? && HealthySince(Front(log)).None? then Some(Last(log).at)
    else HealthySince(Front(log))
  }

  /** When the loop may restart, probe, or forget the streak. */
  predicate Allowed(p: Policy, interval: nat, log: seq<Event>, e: Event)
    requires ValidPolicy(p)
  {
    match e
    case Restarted(t) =>
      && p.enabled && Restarts(log) < p.maxAttempts && !Tripped(p, log)
      && var crash := Unanswered(log);
         && crash.Some? && crash.value.Crashed? && crash.value.attempt >= 1
         && t >= crash.value.at + Backoff(p, crash.value.attempt)
    case Probed(t) =>
      p.enabled && Tripped(p, log) && (LastProbe(log).Some? ==> t >= LastProbe(log).value + interval)
    case Recovered(t) =>
      p.enabled && HealthySince(log).Some? && t - HealthySince(log).value >= p.successReset
    case _ => true
  }

  predicate Lawful(p: Policy, interval: nat, log: seq<Event>)
    requires ValidPolicy(p)
  {
    log == [] || (Lawful(p, interval, Front(log)) && Allowed(p, interval, Front(log), Last(log)))
  }

  // ---- The loop --------------------------------------------------------------------------------

  datatype Provider = Provider(up: bool, state: State, log: seq<Event>)

  /** The restart in flight; `done` once its worker has returned. */
  datatype Flight = Flight(id: Id, probe: bool, done: Option<bool>)

  datatype Fleet = Fleet(now: int, flight: Option<Flight>, providers: map<Id, Provider>)

  datatype Setup = Setup(policies: map<Id, Policy>, interval: nat)

  ghost predicate ValidSetup(c: Setup) { forall id <- c.policies :: ValidPolicy(c.policies[id]) }

  /** The loop finds the provider available: it heartbeats at `t`, then judges recovery at `u`. */
  function SeenUp(p: Policy, v: Provider, t: int, u: int): Provider {
    var state := Heartbeat(v.state, t);
    var log := v.log + [Healthy(t)];
    if ShouldMarkRecovered(p, state, u) then v.(state := Success(state), log := log + [Recovered(u)])
    else v.(state := state, log := log)
  }

  datatype Launch = NoLaunch | LaunchRestart | LaunchProbe

  /** The loop finds it unavailable with its circuit open. */
  function SeenOpen(p: Policy, v: Provider, idle: bool, t: int, u: int): (Provider, Launch) {
    var seen := v.(log := v.log + [Unhealthy(t)]);
    if idle && ShouldProbe(p, v.state, u) then (seen.(log := seen.log + [Probed(u)]), LaunchProbe)
    else (seen, NoLaunch)
  }

  /** A first sight of an outage is recorded. */
  function Noticed(p: Policy, v: Provider, interval: nat, t: int): Provider
    requires ValidPolicy(p)
  {
    var seen := v.(log := v.log + [Unhealthy(t)]);
    if v.state.detected then seen
    else
      var state := Crash(p, v.state.(detected := true), interval, t);
      seen.(state := state, log := if p.enabled then seen.log + [Crashed(t, state.attempts)] else seen.log)
  }

  /** The loop finds it unavailable with its circuit closed. */
  function SeenDown(p: Policy, v: Provider, interval: nat, idle: bool, t: int, u: int): (Provider, Launch)
    requires ValidPolicy(p)
  {
    var noted := Noticed(p, v, interval, t);
    if idle && ShouldRestart(p, noted.state, u) then
      (noted.(state := noted.state.(detected := false), log := noted.log + [Restarted(u)]), LaunchRestart)
    else (noted, NoLaunch)
  }

  function Visited(p: Policy, v: Provider, interval: nat, idle: bool, t: int, u: int): (Provider, Launch)
    requires ValidPolicy(p)
  {
    if v.up then (SeenUp(p, v, t, u), NoLaunch)
    else if v.state.isOpen then SeenOpen(p, v, idle, t, u)
    else SeenDown(p, v, interval, idle, t, u)
  }

  function Collected(v: Provider, f: Flight, interval: nat, now: int): Provider
    requires f.done.Some?
  {
    if f.probe then v.(state := ProbeResult(v.state, f.done.value, interval, now)) else v
  }

  datatype Action =
    | Visit(id: Id, t: int, u: int)
    | Collect(t: int)
    | WorkerReturns(restarted: bool)
    | Dies(id: Id)

  /**
    A provider becomes available only when its restart succeeds: the worker swaps
    in a started handle as its last step, and a failed restart leaves the stopped one.
   */
  predicate Enabled(c: Setup, s: Fleet, a: Action) {
    match a
    case Visit(id, t, u) =>
      id in s.providers && id in c.policies && s.now <= t <= u && (s.flight.Some? ==> s.flight.value.id != id)
    case Collect(t) => s.now <= t && s.flight.Some? && s.flight.value.done.Some? && s.flight.value.id in s.providers
    case WorkerReturns(_) => s.flight.Some? && s.flight.value.done.None? && s.flight.value.id in s.providers
    case Dies(id) => id in s.providers
  }

  ghost function Fire(c: Setup, s: Fleet, a: Action): Fleet
    requires ValidSetup(c) && Enabled(c, s, a)
  {
    match a
    case Visit(id, t, u) =>
      var (v, launch) := Visited(c.policies[id], s.providers[id], c.interval, s.flight.None?, t, u);
      Fleet(u, if launch.NoLaunch? then s.flight else Some(Flight(id, launch.LaunchProbe?, None)), s.providers[id := v])
    case Collect(t) =>
      var f := s.flight.value;
      Fleet(t, None, s.providers[f.id := Collected(s.providers[f.id], f, c.interval, t)])
    case WorkerReturns(restarted) =>
      var f := s.flight.value;
      s.(flight := Some(f.(done := Some(restarted))),
         providers := s.providers[f.id := s.providers[f.id].(up := restarted)])
    case Dies(id) => s.(providers := s.providers[id := s.providers[id].(up := false)])
  }

  ghost predicate Next(c: Setup, s: Fleet, s': Fleet)
    requires ValidSetup(c)
  {
    exists a: Action :: Enabled(c, s, a) && s' == Fire(c, s, a)
  }

  /** Every provider starts supervised and unseen, up or not. */
  predicate Initial(c: Setup, s: Fleet) {
    && s.flight.None? && s.providers.Keys == c.policies.Keys
    && forall id <- s.providers :: s.providers[id] == Provider(s.providers[id].up, FRESH, [])
  }

  ghost predicate StepsTo(c: Setup, run: seq<Fleet>, i: nat)
    requires ValidSetup(c) && 0 < i < |run|
  {
    Next(c, run[i - 1], run[i])
  }

  ghost predicate IsRun(c: Setup, run: seq<Fleet>) {
    ValidSetup(c) && |run| > 0 && Initial(c, run[0]) && forall i :: 0 < i < |run| ==> StepsTo(c, run, i)
  }

  // ---- The invariant of one provider ---------------------------------------------------------------

  /** The flight, as this provider sees it. */
  datatype Mine = NotMine | MyRestart | MyProbe

  function MineOf(s: Fleet, id: Id): Mine {
    if s.flight.None? || s.flight.value.id != id then NotMine
    else if s.flight.value.probe then MyProbe else MyRestart
  }

  /** The counter and the circuit against the history. */
  predicate CountsInv(p: Policy, v: Provider) {
    var s := v.state;
    && Restarts(v.log) + (if s.detected && !s.isOpen then 1 else 0) <= s.attempts
    && Restarts(v.log) <= p.maxAttempts
    && (s.detected && !s.isOpen ==> Restarts(v.log) < p.maxAttempts && s.attempts <= p.maxAttempts)
    && (Tripped(p, v.log) <==> s.attempts > p.maxAttempts)
    && (s.isOpen ==> s.attempts > p.maxAttempts)
  }

  predicate TimesInv(p: Policy, interval: nat, v: Provider, mine: Mine, now: int)
    requires ValidPolicy(p)
  {
    var s := v.state;
    && (s.detected && !s.isOpen ==>
          && s.attempts >= 1 && Unanswered(v.log).Some? && Unanswered(v.log).value.Crashed?
          && Unanswered(v.log).value.attempt == s.attempts
          && s.next == Unanswered(v.log).value.at + Backoff(p, s.attempts))
    && (LastProbe(v.log).Some? ==>
          && LastProbe(v.log).value <= now
          && (s.isOpen && !mine.MyProbe? ==> s.next >= LastProbe(v.log).value + interval))
    && s.started == HealthySince(v.log)
  }

  predicate HealthInv(v: Provider, mine: Mine) {
    var s := v.state;
    && (mine.NotMine? && v.up ==> !s.isOpen && !s.detected)
    && (mine.MyRestart? ==> !s.isOpen && !s.detected)
    && (mine.MyProbe? ==> s.isOpen)
    && (s.isOpen || s.detected ==> s.started.None?)
  }

  predicate ProviderInv(p: Policy, interval: nat, v: Provider, mine: Mine, now: int)
    requires ValidPolicy(p)
  {
    && Lawful(p, interval, v.log)
    && (p.enabled ==> CountsInv(p, v) && TimesInv(p, interval, v, mine, now) && HealthInv(v, mine))
  }

  lemma Snoc(log: seq<Event>, e: Event)
    ensures log + [e] != [] && Front(log + [e]) == log && Last(log + [e]) == e
  {
  }

  lemma LawfulNext(p: Policy, interval: nat, log: seq<Event>, e: Event)
    requires ValidPolicy(p) && Lawful(p, interval, log) && Allowed(p, interval, log, e)
    ensures Lawful(p, interval, log + [e])
  {
    Snoc(log, e);
  }

  lemma SeenUpKeepsInv(p: Policy, interval: nat, v: Provider, now: int, t: int, u: int)
    requires ValidPolicy(p) && ProviderInv(p, interval, v, NotMine, now) && v.up && now <= t <= u
    ensures ProviderInv(p, interval, SeenUp(p, v, t, u), NotMine, u)
  {
    var log := v.log + [Healthy(t)];
    Snoc(v.log, Healthy(t));
    LawfulNext(p, interval, v.log, Healthy(t));
    if ShouldMarkRecovered(p, Heartbeat(v.state, t), u) {
      Snoc(log, Recovered(u));
      LawfulNext(p, interval, log, Recovered(u));
    }
  }

  lemma SeenOpenKeepsInv(p: Policy, interval: nat, v: Provider, now: int, idle: bool, t: int, u: int)
    requires ValidPolicy(p) && ProviderInv(p, interval, v, NotMine, now) && !v.up && v.state.isOpen && now <= t <= u
    ensures var (w, launch) := SeenOpen(p, v, idle, t, u);
            && ProviderInv(p, interval, w, if launch.LaunchProbe? then MyProbe else NotMine, u)
            && !launch.LaunchRestart? && (launch.LaunchProbe? ==> idle)
  {
    var log := v.log + [Unhealthy(t)];
    Snoc(v.log, Unhealthy(t));
    LawfulNext(p, interval, v.log, Unhealthy(t));
    if idle && ShouldProbe(p, v.state, u) {
      Snoc(log, Probed(u));
      LawfulNext(p, interval, log, Probed(u));
    }
  }

  lemma NoticedKeepsInv(p: Policy, interval: nat, v: Provider, now: int, t: int)
    requires ValidPolicy(p) && ProviderInv(p, interval, v, NotMine, now) && !v.up && !v.state.isOpen && now <= t
    ensures ProviderInv(p, interval, Noticed(p, v, interval, t), NotMine, t)
    ensures var w := Noticed(p, v, interval, t); !w.up && w.state.detected
  {
    SightingKeepsInv(p, interval, v, now, t);
    if !v.state.detected {
      FirstSightKeepsInv(p, interval, v.(log := v.log + [Unhealthy(t)]), t);
    }
  }

  /** An unhealthy sighting alone, of a provider already known down or about to be noticed. */
  lemma SightingKeepsInv(p: Policy, interval: nat, v: Provider, now: int, t: int)
    requires ValidPolicy(p) && ProviderInv(p, interval, v, NotMine, now) && now <= t
    ensures var seen := v.(log := v.log + [Unhealthy(t)]);
            && Lawful(p, interval, seen.log)
            && (p.enabled ==> CountsInv(p, seen) && HealthInv(seen, NotMine))
            && (p.enabled && v.state.started.None? ==> TimesInv(p, interval, seen, NotMine, t))
            && (p.enabled && !v.state.detected && !v.state.isOpen ==>
                  TimesInv(p, interval, seen.(state := seen.state.(started := None)), NotMine, t))
  {
    Snoc(v.log, Unhealthy(t));
    LawfulNext(p, interval, v.log, Unhealthy(t));
  }

  /** Then the crash itself, recorded once. */
  lemma FirstSightKeepsInv(p: Policy, interval: nat, seen: Provider, t: int)
    requires ValidPolicy(p) && Lawful(p, interval, seen.log)
    requires !seen.up && !seen.state.isOpen && !seen.state.detected
    requires p.enabled ==> CountsInv(p, seen)
    requires p.enabled ==> TimesInv(p, interval, seen.(state := seen.state.(started := None)), NotMine, t)
    ensures var state := Crash(p, seen.state.(detected := true), interval, t);
            var log := if p.enabled then seen.log + [Crashed(t, state.attempts)] else seen.log;
            ProviderInv(p, interval, seen.(state := state, log := log), NotMine, t)
  {
    if p.enabled {
      Snoc(seen.log, Crashed(t, seen.state.attempts + 1));
      LawfulNext(p, interval, seen.log, Crashed(t, seen.state.attempts + 1));
    }
  }

  lemma LaunchKeepsInv(p: Policy, interval: nat, w: Provider, now: int, u: int)
    requires ValidPolicy(p) && ProviderInv(p, interval, w, NotMine, now) && w.state.detected && now <= u
    requires ShouldRestart(p, w.state, u)
    ensures var launched := w.(state := w.state.(detected := false), log := w.log + [Restarted(u)]);
            ProviderInv(p, interval, launched, MyRestart, u)
  {
    Snoc(w.log, Restarted(u));
    LawfulNext(p, interval, w.log, Restarted(u));
  }

  lemma TimePasses(p: Policy, interval: nat, v: Provider, mine: Mine, now: int, u: int)
    requires ValidPolicy(p) && ProviderInv(p, interval, v, mine, now) && now <= u
    ensures ProviderInv(p, interval, v, mine, u)
  {
  }

  function Launched(launch: Launch): Mine {
    match launch
    case NoLaunch => NotMine
    case LaunchRestart => MyRestart
    case LaunchProbe => MyProbe
  }

  lemma VisitKeepsInv(p: Policy, interval: nat, v: Provider, now: int, idle: bool, t: int, u: int)
    requires ValidPolicy(p) && ProviderInv(p, interval, v, NotMine, now) && now <= t <= u
    ensures var (w, launch) := Visited(p, v, interval, idle, t, u);
            && (launch.NoLaunch? || idle)
            && ProviderInv(p, interval, w, Launched(launch), u)
  {
    if v.up {
      SeenUpKeepsInv(p, interval, v, now, t, u);
    } else if v.state.isOpen {
      SeenOpenKeepsInv(p, interval, v, now, idle, t, u);
    } else {
      NoticedKeepsInv(p, interval, v, now, t);
      var w := Noticed(p, v, interval, t);
      TimePasses(p, interval, w, NotMine, t, u);
      if ShouldRestart(p, w.state, u) {
        LaunchKeepsInv(p, interval, w, t, u);
      }
    }
  }

  lemma CollectKeepsInv(p: Policy, interval: nat, v: Provider, f: Flight, now: int, t: int)
    requires ValidPolicy(p) && f.done.Some? && now <= t
    requires ProviderInv(p, interval, v, if f.probe then MyProbe else MyRestart, now)
    requires f.done == Some(false) ==> !v.up
    ensures ProviderInv(p, interval, Collected(v, f, interval, t), NotMine, t)
  {
  }

  // ---- The invariant of the fleet --------------------------------------------------------------------

  ghost predicate Inv(c: Setup, s: Fleet)
    requires ValidSetup(c)
  {
    && s.providers.Keys == c.policies.Keys
    && (s.flight.Some? && s.flight.value.done == Some(false) && s.flight.value.id in s.providers ==>
          !s.providers[s.flight.value.id].up)
    && forall id <- s.providers :: ProviderInv(c.policies[id], c.interval, s.providers[id], MineOf(s, id), s.now)
  }

  lemma StepKeepsInv(c: Setup, s: Fleet, a: Action)
    requires ValidSetup(c) && Inv(c, s) && Enabled(c, s, a)
    ensures Inv(c, Fire(c, s, a))
  {
    var s' := Fire(c, s, a);
    forall id <- s'.providers
      ensures ProviderInv(c.policies[id], c.interval, s'.providers[id], MineOf(s', id), s'.now)
    {
      StepKeepsProvider(c, s, a, id);
    }
  }

  lemma StepKeepsProvider(c: Setup, s: Fleet, a: Action, id: Id)
    requires ValidSetup(c) && Inv(c, s) && Enabled(c, s, a) && id in s.providers
    ensures var s' := Fire(c, s, a);
            ProviderInv(c.policies[id], c.interval, s'.providers[id], MineOf(s', id), s'.now)
  {
    var p, v := c.policies[id], s.providers[id];
    assert ProviderInv(p, c.interval, v, MineOf(s, id), s.now);
    match a
    case Visit(x, t, u) => VisitStepKeepsProvider(c, s, x, t, u, id);
    case Collect(t) =>
      if s.flight.value.id == id {
        CollectKeepsInv(p, c.interval, v, s.flight.value, s.now, t);
      } else {
        TimePasses(p, c.interval, v, NotMine, s.now, t);
      }
    case WorkerReturns(restarted) =>
    case Dies(x) =>
  }

  lemma VisitStepKeepsProvider(c: Setup, s: Fleet, x: Id, t: int, u: int, id: Id)
    requires ValidSetup(c) && Inv(c, s) && Enabled(c, s, Visit(x, t, u)) && id in s.providers
    ensures var s' := Fire(c, s, Visit(x, t, u));
            ProviderInv(c.policies[id], c.interval, s'.providers[id], MineOf(s', id), s'.now)
  {
    var p, v := c.policies[id], s.providers[id];
    assert ProviderInv(p, c.interval, v, MineOf(s, id), s.now);
    assert ProviderInv(c.policies[x], c.interval, s.providers[x], NotMine, s.now);
    VisitKeepsInv(c.policies[x], c.interval, s.providers[x], s.now, s.flight.None?, t, u);
    TimePasses(p, c.interval, v, MineOf(s, id), s.now, u);
  }

  lemma {:induction false} RunsKeepInv(c: Setup, run: seq<Fleet>, n: nat)
    requires IsRun(c, run) && n < |run|
    ensures Inv(c, run[n])
  {
    if n > 0 {
      RunsKeepInv(c, run, n - 1);
      assert StepsTo(c, run, n);
      var a: Action :| Enabled(c, run[n - 1], a) && run[n] == Fire(c, run[n - 1], a);
      StepKeepsInv(c, run[n - 1], a);
    }
  }

  // ---- Main results -----------------------------------------------------------------------------------

  /** In every run, every provider's whole history is lawful. */
  lemma HistoriesAreLawful(c: Setup, run: seq<Fleet>, n: nat, id: Id)
    requires IsRun(c, run) && n < |run| && id in run[n].providers
    ensures id in c.policies && Lawful(c.policies[id], c.interval, run[n].providers[id].log)
  {
    RunsKeepInv(c, run, n);
  }

  lemma {:induction false} LawfulAt(p: Policy, interval: nat, log: seq<Event>, i: nat)
    requires ValidPolicy(p) && Lawful(p, interval, log) && i < |log|
    ensures Allowed(p, interval, log[..i], log[i])
    decreases |log|
  {
    if i < |log| - 1 {
      LawfulAt(p, interval, Front(log), i);
      assert Front(log)[..i] == log[..i];
    }
  }

  /** What a lawful history means for restarts: a streak has at most `maxAttempts`. */
  lemma {:induction false} StreakIsBounded(p: Policy, interval: nat, log: seq<Event>)
    requires ValidPolicy(p) && Lawful(p, interval, log)
    ensures Restarts(log) <= p.maxAttempts
  {
    if log != [] {
      StreakIsBounded(p, interval, Front(log));
    }
  }

  /** The last probe in a log is one of its entries. */
  lemma {:induction false} LastProbeIsLast(log: seq<Event>, i: nat)
    requires i < |log| && log[i].Probed?
    ensures LastProbe(log).Some? && exists k :: i <= k < |log| && log[k].Probed? && log[k].at == LastProbe(log).value
    decreases |log|
  {
    if !Last(log).Probed? {
      LastProbeIsLast(Front(log), i);
      var k :| i <= k < |Front(log)| && Front(log)[k].Probed? && Front(log)[k].at == LastProbe(Front(log)).value;
      assert log[k] == Front(log)[k];
    }
  }

  /** Any two probes of one provider are an interval apart. */
  lemma {:induction false} ProbesAreSpaced(p: Policy, interval: nat, log: seq<Event>, i: nat, k: nat)
    requires ValidPolicy(p) && Lawful(p, interval, log) && i < k < |log| && log[i].Probed? && log[k].Probed?
    ensures log[k].at >= log[i].at + interval
    decreases k
  {
    LawfulAt(p, interval, log, k);
    var before := log[..k];
    LastProbeIsLast(before, i);
    var m :| i <= m < |before| && before[m].Probed? && before[m].at == LastProbe(before).value;
    if i < m {
      ProbesAreSpaced(p, interval, log, i, m);
    }
  }

  lemma {:induction false} TrippedStays(p: Policy, log: seq<Event>, i: nat, k: nat)
    requires i <= k <= |log| && Tripped(p, log[..i]) && forall m :: i <= m < k ==> !log[m].Recovered?
    ensures Tripped(p, log[..k])
    decreases k - i
  {
    if i < k {
      TrippedStays(p, log, i, k - 1);
      assert Front(log[..k]) == log[..k - 1];
    }
  }

  /** Once a crash opens the circuit, no ordinary restart until a recovery. */
  lemma NoRestartOnceTripped(p: Policy, interval: nat, log: seq<Event>, i: nat, k: nat)
    requires ValidPolicy(p) && Lawful(p, interval, log) && i < k < |log|
    requires log[i].Crashed? && log[i].attempt > p.maxAttempts && log[k].Restarted?
    ensures exists m :: i < m < k && log[m].Recovered?
  {
    LawfulAt(p, interval, log, k);
    if forall m :: i < m < k ==> !log[m].Recovered? {
      assert Front(log[..i + 1]) == log[..i] && Last(log[..i + 1]) == log[i];
      TrippedStays(p, log, i + 1, k);
      assert false;
    }
  }

  /** No unhealthy sighting since `HealthySince` began. */
  lemma {:induction false} HealthIsUnbroken(log: seq<Event>) returns (k: nat)
    requires HealthySince(log).Some?
    ensures k < |log| && log[k] == Healthy(HealthySince(log).value)
    ensures forall m :: k <= m < |log| ==> !log[m].Unhealthy?
  {
    if Last(log).Healthy? && HealthySince(Front(log)).None? {
      k := |log| - 1;
    } else {
      k := HealthIsUnbroken(Front(log));
      assert forall m :: k <= m < |log| - 1 ==> log[m] == Front(log)[m];
    }
  }

  /** A streak is forgotten only after `successReset` of unbroken health. */
  lemma RecoveryNeedsUnbrokenHealth(p: Policy, interval: nat, log: seq<Event>, i: nat) returns (k: nat)
    requires ValidPolicy(p) && Lawful(p, interval, log) && i < |log| && log[i].Recovered?
    ensures k < i && log[k].Healthy? && log[i].at - log[k].at >= p.successReset
    ensures forall m :: k <= m < i ==> !log[m].Unhealthy?
  {
    LawfulAt(p, interval, log, i);
    k := HealthIsUnbroken(log[..i]);
    assert forall m :: k <= m < i ==> log[..i][m] == log[m];
  }

  lemma {:induction false} UnansweredIsThere(log: seq<Event>) returns (k: nat)
    requires Unanswered(log).Some?
    ensures k < |log| && log[k] == Unanswered(log).value && log[k].Crashed?
    ensures forall m :: k < m < |log| ==> !log[m].Crashed? && !log[m].Restarted? && !log[m].Probed?
  {
    if Last(log).Crashed? {
      k := |log| - 1;
    } else {
      k := UnansweredIsThere(Front(log));
      assert forall m :: k <= m < |log| - 1 ==> log[m] == Front(log)[m];
    }
  }

  /** Every ordinary restart answers the crash before it, and no sooner than that crash's backoff. */
  lemma RestartWaitsForBackoff(p: Policy, interval: nat, log: seq<Event>, i: nat) returns (k: nat)
    requires ValidPolicy(p) && Lawful(p, interval, log) && i < |log| && log[i].Restarted?
    ensures k < i && log[k].Crashed? && log[k].attempt >= 1
    ensures var n := log[k].attempt;
            && (n <= |p.backoff| ==> log[i].at >= log[k].at + p.backoff[n - 1])
            && (n > |p.backoff| ==> log[i].at >= log[k].at + p.backoff[|p.backoff| - 1])
    ensures forall m :: k < m < i ==> !log[m].Crashed? && !log[m].Restarted? && !log[m].Probed?
  {
    LawfulAt(p, interval, log, i);
    k := UnansweredIsThere(log[..i]);
    assert forall m :: k <= m < i ==> log[..i][m] == log[m];
  }
}

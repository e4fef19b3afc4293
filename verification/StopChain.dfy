/**
  The emergency stop as observed: the status signal's classification, its
  reported changes, and devices that contradict what was expected of them
  (core/control/stop_chain.cpp).
 */
module StopChain {
  import opened Lists
  import opened Options

  type Handle = string

  datatype ChainState = NotConfigured | InForce | Clear | Unknown

  /** The stop may be in force: the latch is held and a clear refused. */
  predicate ChainHolds(chain: ChainState) { chain.InForce? || chain.Unknown? }

  datatype Quality = QualityOk | QualityStale | QualityFault | QualityUnknown | QualityOther

  /** A cached reading: its age, and its value if it is a bool. */
  datatype Reading = Reading(quality: Quality, age: int, value: Option<bool>)

  predicate IsStale(r: Reading, bound: int) {
    r.quality.QualityStale? || r.quality.QualityFault? || r.quality.QualityUnknown? || r.age > bound
  }

  /** In time, and asserted good by its provider. */
  predicate IsFresh(r: Reading, bound: int) { r.quality.QualityOk? && r.age <= bound }

  function Classify(reading: Option<Reading>, active: bool, bound: int): (s: ChainState)
    ensures s.Clear? <==> reading.Some? && IsFresh(reading.value, bound) && reading.value.value == Some(!active)
    ensures s.InForce? <==> reading.Some? && IsFresh(reading.value, bound) && reading.value.value == Some(active)
    ensures !s.NotConfigured?
  {
    if reading.None? then Unknown
    else if IsStale(reading.value, bound) then Unknown
    else if !reading.value.quality.QualityOk? then Unknown
    else if reading.value.value.None? then Unknown
    else if reading.value.value.value == active then InForce
    else Clear
  }

  /** Fails closed: the stop may be in force unless a good reading, in time, says it is not. */
  lemma HoldsUnlessReadClear(reading: Option<Reading>, active: bool, bound: int)
    ensures !ChainHolds(Classify(reading, active, bound)) <==>
              && reading.Some? && reading.value.quality.QualityOk? && reading.value.age <= bound
              && reading.value.value == Some(!active)
    ensures !ChainHolds(NotConfigured)
  {
  }

  // ---- What a device does against what it should do -------------------------------------------------

  datatype Expectation = PowerLoss | ReportsEstop

  /** A device's readings, and its `estop` signal if it has one. */
  datatype DeviceView = DeviceView(readings: seq<Reading>, estop: Option<Reading>)

  /** A device expected to lose power still answers, or one expected to report the stop denies it. */
  predicate Contradicts(d: Option<DeviceView>, declared: Expectation, bound: int) {
    d.Some? &&
    match declared
    case PowerLoss => exists i :: 0 <= i < |d.value.readings| && !IsStale(d.value.readings[i], bound)
    case ReportsEstop =>
      && d.value.estop.Some? && d.value.estop.value.quality.QualityOk?
      && !IsStale(d.value.estop.value, bound) && d.value.estop.value.value == Some(false)
  }

  /** A reading that still speaks for its device: in time, and not itself marked stale, faulty or unknown. */
  predicate StillSpeaks(r: Reading, bound: int) { (r.quality.QualityOk? || r.quality.QualityOther?) && r.age <= bound }

  /**
    A device expected to lose power is contradicted exactly by a reading in time,
    so never by silence or stale readings; one expected to report the stop, exactly
    by a good reading in time of its estop signal that denies it.
   */
  lemma ContradictsExactly(d: Option<DeviceView>, bound: int)
    ensures Contradicts(d, PowerLoss, bound) <==>
              d.Some? && exists r <- d.value.readings :: StillSpeaks(r, bound)
    ensures Contradicts(d, ReportsEstop, bound) <==>
              && d.Some? && d.value.estop.Some? && d.value.estop.value.quality.QualityOk?
              && d.value.estop.value.age <= bound && d.value.estop.value.value == Some(false)
  {
    if d.Some? {
      if exists r <- d.value.readings :: StillSpeaks(r, bound) {
        var r :| r in d.value.readings && StillSpeaks(r, bound);
        var i :| 0 <= i < |d.value.readings| && d.value.readings[i] == r;
        assert !IsStale(d.value.readings[i], bound);
      }
      if Contradicts(d, PowerLoss, bound) {
        var i :| 0 <= i < |d.value.readings| && !IsStale(d.value.readings[i], bound);
        assert d.value.readings[i] in d.value.readings && StillSpeaks(d.value.readings[i], bound);
      }
    }
  }

  method Contradiction(d: Option<DeviceView>, declared: Expectation, bound: int) returns (c: bool)
    ensures c <==> Contradicts(d, declared, bound)
  {
    if d.None? {
      return false;
    }
    match declared
    case PowerLoss =>
      for i := 0 to |d.value.readings|
        invariant forall k :: 0 <= k < i ==> IsStale(d.value.readings[k], bound)
      {
        if !IsStale(d.value.readings[i], bound) {
          return true;
        }
      }
      return false;
    case ReportsEstop =>
      var e := d.value.estop;
      return e.Some? && e.value.quality.QualityOk? && !IsStale(e.value, bound) && e.value.value == Some(false);
  }

  datatype Snapshot = Snapshot(state: ChainState, since: Option<int>)

  const UNSEEN := Snapshot(NotConfigured, None)

  datatype Alarm = Alarm(device: Handle, raised: bool)

  function ViewOf(views: map<Handle, DeviceView>, h: Handle): Option<DeviceView> {
    if h in views then Some(views[h]) else None
  }

  /** The devices judged to contradict a stop in force for at least the stale bound. */
  ghost function Found(current: Snapshot, expectations: map<Handle, Expectation>, views: map<Handle, DeviceView>,
                       bound: int, now: int): set<Handle>
  {
    if current.state.InForce? && current.since.Some? && now - current.since.value >= bound then
      set h | h in expectations && Contradicts(ViewOf(views, h), expectations[h], bound)
    else {}
  }

  /** A mismatch stands exactly for a declared device that contradicts a stop known in force for the stale bound. */
  lemma FoundExactly(current: Snapshot, expectations: map<Handle, Expectation>, views: map<Handle, DeviceView>,
                     bound: int, now: int, h: Handle)
    ensures h in Found(current, expectations, views, bound, now) <==>
              && current.state == InForce && current.since.Some? && current.since.value <= now - bound
              && h in expectations && h in views
              && if expectations[h] == PowerLoss then exists r <- views[h].readings :: StillSpeaks(r, bound)
                 else && views[h].estop.Some? && views[h].estop.value.quality.QualityOk?
                      && views[h].estop.value.age <= bound && views[h].estop.value.value == Some(false)
  {
    ContradictsExactly(ViewOf(views, h), bound);
  }

  predicate DistinctDevices(changes: seq<Alarm>) {
    forall i, j :: 0 <= i < j < |changes| ==> changes[i].device != changes[j].device
  }

  /** One change for each device whose standing changed, none for the rest. */
  ghost predicate Reports(before: set<Handle>, found: set<Handle>, changes: seq<Alarm>) {
    && (forall h: Handle :: Alarm(h, true) in changes <==> h in found - before)
    && (forall h: Handle :: Alarm(h, false) in changes <==> h in before - found)
    && DistinctDevices(changes)
  }

  class StopChainMonitor {
    const active: bool
    const bound: int
    const expectations: map<Handle, Expectation>
    var current: Snapshot
    /** Standing mismatches and when each was raised. */
    var mismatches: map<Handle, int>

    constructor (a: bool, b: int, e: map<Handle, Expectation>)
      ensures active == a && bound == b && expectations == e && current == UNSEEN && mismatches == map[]
    {
      active, bound, expectations, current, mismatches := a, b, e, UNSEEN, map[];
    }

    /** Reports a change of state, and the first classification, with the state it replaces. */
    method Update(reading: Option<Reading>, now: int) returns (change: Option<(Snapshot, Snapshot)>)
      modifies `current
      ensures current.state == Classify(reading, active, bound) && current.since.Some?
      ensures change.None? <==> old(current).state == current.state && old(current).since.Some?
      ensures change.None? ==> current == old(current)
      ensures change.Some? ==> change.value == (old(current), current) && current.since == Some(now)
    {
      var state := Classify(reading, active, bound);
      if state == current.state && current.since.Some? {
        return None;
      }
      var before := current;
      current := Snapshot(state, Some(now));
      return Some((before, current));
    }

    method Judge(views: map<Handle, DeviceView>, now: int) returns (found: set<Handle>)
      ensures found == Found(current, expectations, views, bound, now)
    {
      found := {};
      if current.state.InForce? && current.since.Some? && now - current.since.value >= bound {
        var todo := expectations.Keys;
        while todo != {}
          invariant todo <= expectations.Keys
          invariant found ==
            set h | h in expectations.Keys - todo && Contradicts(ViewOf(views, h), expectations[h], bound)
        {
          var h :| h in todo;
          var c := Contradiction(ViewOf(views, h), expectations[h], bound);
          if c {
            found := found + {h};
          }
          todo := todo - {h};
        }
      }
    }

    /** Drops what no longer contradicts, raises what newly does, and keeps the rest as raised. */
    method UpdateMismatches(views: map<Handle, DeviceView>, now: int) returns (changes: seq<Alarm>)
      modifies `mismatches
      ensures mismatches.Keys == Found(current, expectations, views, bound, now)
      ensures Reports(old(mismatches).Keys, mismatches.Keys, changes)
      ensures forall h <- mismatches :: mismatches[h] == if h in old(mismatches) then old(mismatches)[h] else now
    {
      var found := Judge(views, now);
      var gone, newly := mismatches.Keys - found, found - mismatches.Keys;
      mismatches := mismatches - gone;
      var dropped := Announce(gone, false);
      mismatches := mismatches + map h | h in newly :: now;
      var raised := Announce(newly, true);
      changes := dropped + raised;
      BothReported(gone, newly, dropped, raised);
    }
  }

  /** One change for each device, in whatever order the map gives them. */
  ghost predicate Announces(devices: set<Handle>, raised: bool, changes: seq<Alarm>) {
    && (forall h: Handle, r: bool :: Alarm(h, r) in changes <==> r == raised && h in devices)
    && DistinctDevices(changes)
  }

  method Announce(devices: set<Handle>, raised: bool) returns (changes: seq<Alarm>)
    ensures Announces(devices, raised, changes)
  {
    changes := [];
    var todo := devices;
    while todo != {}
      invariant todo <= devices && Announces(devices - todo, raised, changes)
    {
      var h :| h in todo;
      AnnouncedNext(devices - todo, raised, changes, h);
      assert devices - (todo - {h}) == devices - todo + {h};
      changes, todo := changes + [Alarm(h, raised)], todo - {h};
    }
  }

  lemma DeviceIsIn(devices: set<Handle>, raised: bool, changes: seq<Alarm>, i: nat)
    requires Announces(devices, raised, changes) && i < |changes|
    ensures changes[i].device in devices
  {
    assert Alarm(changes[i].device, changes[i].raised) in changes;
  }

  lemma AnnouncedNext(devices: set<Handle>, raised: bool, changes: seq<Alarm>, h: Handle)
    requires Announces(devices, raised, changes) && h !in devices
    ensures Announces(devices + {h}, raised, changes + [Alarm(h, raised)])
  {
    forall i | 0 <= i < |changes| ensures changes[i].device != h {
      DeviceIsIn(devices, raised, changes, i);
    }
  }

  lemma BothReported(gone: set<Handle>, newly: set<Handle>, dropped: seq<Alarm>, raised: seq<Alarm>)
    requires Announces(gone, false, dropped) && Announces(newly, true, raised) && gone !! newly
    ensures forall h: Handle :: Alarm(h, true) in dropped + raised <==> h in newly
    ensures forall h: Handle :: Alarm(h, false) in dropped + raised <==> h in gone
    ensures DistinctDevices(dropped + raised)
  {
    var all := dropped + raised;
    forall i, j | 0 <= i < j < |all| ensures all[i].device != all[j].device {
      if i < |dropped| <= j {
        DeviceIsIn(gone, false, dropped, i);
        DeviceIsIn(newly, true, raised, j - |dropped|);
      }
    }
  }

  // ---- Over whole runs --------------------------------------------------------------------------------

  /** The alarm events of one device, in order: true for raised. */
  function AlarmsOf(rounds: seq<seq<Alarm>>, h: Handle): seq<bool> {
    if rounds == [] then []
    else AlarmsOf(rounds[..|rounds| - 1], h) + OfDevice(rounds[|rounds| - 1], h)
  }

  function OfDevice(changes: seq<Alarm>, h: Handle): seq<bool> {
    if changes == [] then []
    else
      var last := changes[|changes| - 1];
      OfDevice(changes[..|changes| - 1], h) + if last.device == h then [last.raised] else []
  }

  /** `standing[i]` is what stood before round i, from nothing. */
  ghost predicate IsHistory(standing: seq<set<Handle>>, rounds: seq<seq<Alarm>>) {
    && |standing| == |rounds| + 1 && standing[0] == {}
    && forall i :: 0 <= i < |rounds| ==> Reports(standing[i], standing[i + 1], rounds[i])
  }

  lemma {:induction false} OneEachRound(changes: seq<Alarm>, h: Handle)
    requires DistinctDevices(changes)
    ensures OfDevice(changes, h) ==
              if Alarm(h, true) in changes then [true] else if Alarm(h, false) in changes then [false] else []
  {
    if changes != [] {
      var front, last := changes[..|changes| - 1], changes[|changes| - 1];
      assert changes == front + [last];
      OneEachRound(front, h);
      if last.device == h {
        assert forall i :: 0 <= i < |front| ==> front[i] == changes[i] && front[i].device != h;
      }
    }
  }

  /** Each device's alarms alternate, raised first, and it stands exactly while one is unanswered. */
  lemma {:induction false} AlarmsAlternate(standing: seq<set<Handle>>, rounds: seq<seq<Alarm>>, h: Handle)
    requires IsHistory(standing, rounds)
    ensures Alternates(AlarmsOf(rounds, h))
    ensures h in standing[|rounds|] <==> |AlarmsOf(rounds, h)| % 2 == 1
    decreases |rounds|
  {
    if rounds != [] {
      var n := |rounds| - 1;
      AlarmsAlternate(standing[..n + 1], rounds[..n], h);
      assert Reports(standing[n], standing[n + 1], rounds[n]);
      OneEachRound(rounds[n], h);
    }
  }
}

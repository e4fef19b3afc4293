/**
  The periodic-pulse node of core/automation/bt_nodes.cpp and its hourly cap: when
  pulses are due, and when a run of ticks sees them start. Times are in
  milliseconds.
 */
module PeriodicPulses {
  import opened Options

  const HOUR := 3600 * 1000

  datatype Schedule = Schedule(delay: int, interval: int, pulse: int, cap: int)

  predicate ValidSchedule(c: Schedule) {
    c.delay >= 0 && c.interval > 0 && 0 < c.pulse <= c.interval && c.cap >= 0
  }

  /** The interval in use: no shorter than the cap's share of an hour, rounded down. */
  function Interval(c: Schedule): (ms: nat)
    requires ValidSchedule(c)
    ensures ms >= c.interval * 1000 && ms >= c.pulse * 1000 > 0 && (c.cap > 0 ==> ms >= HOUR / c.cap)
    ensures ms == c.interval * 1000 || (c.cap > 0 && ms == HOUR / c.cap)
  {
    if c.cap > 0 && c.interval * 1000 < HOUR / c.cap then HOUR / c.cap else c.interval * 1000
  }

  /** When pulse k is due, counting from when the node was enabled. */
  function Due(c: Schedule, enabledAt: int, k: nat): int
    requires ValidSchedule(c)
  {
    enabledAt + c.delay * 1000 + k * Interval(c)
  }

  datatype Report = Report(active: bool, index: int, elapsed: int)

  /** What an enabled tick reports; a clock before the enabling counts as at it. */
  function Reported(c: Schedule, enabledAt: int, now: int): Report
    requires ValidSchedule(c)
  {
    var elapsed := if now < enabledAt then 0 else now - enabledAt;
    if elapsed < c.delay * 1000 then Report(false, -1, elapsed)
    else
      var effective := elapsed - c.delay * 1000;
      Report(effective % Interval(c) < c.pulse * 1000, effective / Interval(c), elapsed)
  }

  class PeriodicPulseWindowNode {
    var initialized: bool
    var enabledAt: int

    function State(): Option<int> reads this { if initialized then Some(enabledAt) else None }

    constructor ()
      ensures State() == None
    {
      initialized, enabledAt := false, 0;
    }

    method Tick(enabled: bool, c: Schedule, now: int) returns (report: Option<Report>)
      modifies this
      ensures report.None? <==> !ValidSchedule(c)
      ensures State() == if report.None? then old(State()) else Enabled(old(State()), enabled, now)
      ensures report.Some? ==> report.value == if enabled then Reported(c, enabledAt, now) else Report(false, -1, 0)
    {
      if !ValidSchedule(c) {
        return None;
      }
      if !enabled {
        initialized := false;
        return Some(Report(false, -1, 0));
      }
      if !initialized {
        initialized, enabledAt := true, now;
      }
      var elapsed := now - enabledAt;
      if elapsed < 0 {
        elapsed := 0;
      }
      if elapsed < c.delay * 1000 {
        return Some(Report(false, -1, elapsed));
      }
      var intervalMs := c.interval * 1000;
      if c.cap > 0 {
        var least := HOUR / c.cap;
        if intervalMs < least {
          intervalMs := least;
        }
      }
      var effective := elapsed - c.delay * 1000;
      return Some(Report(effective % intervalMs < c.pulse * 1000, effective / intervalMs, elapsed));
    }
  }

  /** When the schedule in force began: the first enabled tick since the last disabled one. */
  function Enabled(since: Option<int>, enabled: bool, now: int): Option<int> {
    if !enabled then None else if since.Some? then since else Some(now)
  }

  // ---- Due times ---------------------------------------------------------------------------------

  lemma MultiplyOrder(m: nat, a: int, b: int)
    requires a <= b
    ensures m * a <= m * b && a * m <= b * m
  {
    assert m * (b - a) >= 0;
  }

  lemma DivisionSplits(x: nat, i: nat)
    requires i > 0
    ensures x / i >= 0 && (x / i) * i <= x < (x / i + 1) * i && x - (x / i) * i == x % i
  {
    assert (x / i + 1) * i == (x / i) * i + i;
  }

  /** An enabled tick reports the last pulse due, open for its width, and nothing before the first. */
  lemma ReportsLastDue(c: Schedule, enabledAt: int, now: int)
    requires ValidSchedule(c) && now >= enabledAt
    ensures var r := Reported(c, enabledAt, now);
            && r.elapsed == now - enabledAt
            && (now < Due(c, enabledAt, 0) ==> !r.active && r.index == -1)
            && (now >= Due(c, enabledAt, 0) ==>
                  && r.index >= 0 && Due(c, enabledAt, r.index) <= now < Due(c, enabledAt, r.index + 1)
                  && (r.active <==> now < Due(c, enabledAt, r.index) + c.pulse * 1000))
  {
    if now >= Due(c, enabledAt, 0) {
      DivisionSplits(now - enabledAt - c.delay * 1000, Interval(c));
    }
  }

  lemma DueSpread(c: Schedule, enabledAt: int, j: nat, k: nat, m: nat)
    requires ValidSchedule(c) && k >= j + m
    ensures Due(c, enabledAt, k) - Due(c, enabledAt, j) >= m * Interval(c)
  {
    var i := Interval(c);
    assert k * i - j * i == (k - j) * i;
    MultiplyOrder(i, m, k - j);
  }

  /** Distinct pulses of one schedule, in order, all due in the half-open window of that width. */
  predicate DueWithin(c: Schedule, enabledAt: int, from: int, width: int, ks: seq<nat>)
    requires ValidSchedule(c)
  {
    && Increasing(ks)
    && (forall i :: 0 <= i < |ks| ==> from <= Due(c, enabledAt, ks[i]) < from + width)
  }

  predicate Increasing(ks: seq<nat>) { forall i, j :: 0 <= i < j < |ks| ==> ks[i] < ks[j] }

  lemma {:induction false} Distinct(ks: seq<nat>)
    requires ks != [] && Increasing(ks)
    ensures ks[|ks| - 1] >= ks[0] + |ks| - 1
  {
    if |ks| > 1 {
      var front := ks[..|ks| - 1];
      Distinct(front);
      assert front[|front| - 1] < ks[|ks| - 1];
    }
  }

  /** A window no wider than m intervals sees at most m pulses due. */
  lemma AtMostPerWindow(c: Schedule, enabledAt: int, from: int, width: int, m: nat, ks: seq<nat>)
    requires ValidSchedule(c) && width <= m * Interval(c) && DueWithin(c, enabledAt, from, width, ks)
    ensures |ks| <= m
  {
    if |ks| > m {
      Distinct(ks);
      DueSpread(c, enabledAt, ks[0], ks[|ks| - 1], m);
      assert false;
    }
  }

  /** Under a cap of m: at most m pulses due in any window of m shares of an hour, rounded down. */
  lemma CapHoldsPerRoundedHour(c: Schedule, enabledAt: int, from: int, ks: seq<nat>)
    requires ValidSchedule(c) && c.cap > 0 && DueWithin(c, enabledAt, from, c.cap * (HOUR / c.cap), ks)
    ensures |ks| <= c.cap
  {
    MultiplyOrder(c.cap, HOUR / c.cap, Interval(c));
    AtMostPerWindow(c, enabledAt, from, c.cap * (HOUR / c.cap), c.cap, ks);
  }

  /** No hour sees more pulses due than the cap. */
  ghost predicate CapHoldsPerHour(c: Schedule)
    requires ValidSchedule(c)
  {
    forall enabledAt: int, from: int, ks: seq<nat> :: DueWithin(c, enabledAt, from, HOUR, ks) ==> |ks| <= c.cap
  }

  /** A share of the hour, times the cap, falls short by the remainder. */
  lemma ShareOfHour(hour: nat, m: nat, share: nat, left: nat, own: nat)
    requires hour == m * share + left && left < m
    ensures m * (if own < share then share else own) >= hour <==> left == 0 || m * own >= hour
  {
    if own < share {
      MultiplyOrder(m, own, share - 1);
      assert m * (share - 1) == m * share - m;
    } else {
      MultiplyOrder(m, share, own);
    }
  }

  lemma IntervalFillsHour(c: Schedule)
    requires ValidSchedule(c) && c.cap > 0
    ensures c.cap * Interval(c) >= HOUR <==> HOUR % c.cap == 0 || c.cap * (c.interval * 1000) >= HOUR
  {
    ShareOfHour(HOUR, c.cap, HOUR / c.cap, HOUR % c.cap, c.interval * 1000);
  }

  /** Otherwise the hour from the first pulse sees one pulse too many. */
  lemma HourSeesTooMany(c: Schedule) returns (ks: seq<nat>)
    requires ValidSchedule(c) && c.cap > 0 && c.cap * Interval(c) < HOUR
    ensures DueWithin(c, 0, Due(c, 0, 0), HOUR, ks) && |ks| == c.cap + 1
  {
    ks := seq(c.cap + 1, k => k);
    forall k | 0 <= k < |ks| ensures Due(c, 0, 0) <= Due(c, 0, ks[k]) < Due(c, 0, 0) + HOUR {
      MultiplyOrder(Interval(c), 0, k);
      MultiplyOrder(Interval(c), k, c.cap);
    }
  }

  /**
    Over a whole hour the cap holds of due times exactly when that many intervals
    fill it: the cap divides the hour, or the configured interval is long enough.
   */
  lemma CapHoldsPerHourExactly(c: Schedule)
    requires ValidSchedule(c) && c.cap > 0
    ensures CapHoldsPerHour(c) <==> HOUR % c.cap == 0 || c.cap * (c.interval * 1000) >= HOUR
  {
    IntervalFillsHour(c);
    if c.cap * Interval(c) >= HOUR {
      forall enabledAt: int, from: int, ks: seq<nat> | DueWithin(c, enabledAt, from, HOUR, ks) ensures |ks| <= c.cap {
        AtMostPerWindow(c, enabledAt, from, HOUR, c.cap, ks);
      }
    } else {
      var ks := HourSeesTooMany(c);
    }
  }

  // ---- Runs of ticks -------------------------------------------------------------------------------

  datatype Tick = Tick(enabled: bool, now: int)

  /** A pulse seen to start: the tick that first found it open, when it was due, and in which schedule. */
  datatype Start = Start(at: int, due: int, schedule: nat, index: nat)

  /** The node, how many schedules have begun, the last pulse seen in this one, and all starts seen. */
  datatype Watch = Watch(enabledAt: Option<int>, schedules: nat, seen: Option<nat>, starts: seq<Start>)

  const UNSEEN := Watch(None, 0, None, [])

  /** The node after a tick, and the count of its schedules. */
  function Entered(w: Watch, t: Tick): Watch {
    if !t.enabled then w.(enabledAt := None, seen := None)
    else if w.enabledAt.Some? then w
    else w.(enabledAt := Some(t.now), schedules := w.schedules + 1, seen := None)
  }

  function Step(c: Schedule, w: Watch, t: Tick): Watch
    requires ValidSchedule(c)
  {
    var v := Entered(w, t);
    if v.enabledAt.None? then v
    else
      var r := Reported(c, v.enabledAt.value, t.now);
      if r.active && r.index >= 0 && v.seen != Some(r.index) then
        v.(seen := Some(r.index),
           starts := v.starts + [Start(t.now, Due(c, v.enabledAt.value, r.index), v.schedules, r.index)])
      else v
  }

  function After(c: Schedule, ticks: seq<Tick>): Watch
    requires ValidSchedule(c)
  {
    if ticks == [] then UNSEEN else Step(c, After(c, ticks[..|ticks| - 1]), ticks[|ticks| - 1])
  }

  lemma AfterSnoc(c: Schedule, ticks: seq<Tick>, t: Tick)
    requires ValidSchedule(c)
    ensures After(c, ticks + [t]) == Step(c, After(c, ticks), t)
  {
    assert (ticks + [t])[..|ticks|] == ticks;
  }

  /** The run follows the node's own ticks. */
  lemma WatchFollowsNode(c: Schedule, w: Watch, t: Tick)
    requires ValidSchedule(c)
    ensures Step(c, w, t).enabledAt == Enabled(w.enabledAt, t.enabled, t.now)
  {
  }

  predicate InOrder(ticks: seq<Tick>) { forall i, j :: 0 <= i < j < |ticks| ==> ticks[i].now <= ticks[j].now }

  predicate KeptEnabled(ticks: seq<Tick>) { forall i :: 0 <= i < |ticks| ==> ticks[i].enabled }

  /** No start was seen later than that after it was due. */
  predicate LateAtMost(starts: seq<Start>, late: nat) {
    forall i :: 0 <= i < |starts| ==> starts[i].at <= starts[i].due + late
  }

  predicate SeenInWindow(c: Schedule, s: Start)
    requires ValidSchedule(c)
  {
    s.due <= s.at < s.due + c.pulse * 1000
  }

  /** An interval on in the same schedule, or a delay on in a later one. */
  predicate Follows(c: Schedule, s: Start, t: Start)
    requires ValidSchedule(c)
  {
    || (s.schedule == t.schedule && t.due >= s.due + Interval(c))
    || (s.schedule < t.schedule && t.due >= s.at + c.delay * 1000)
  }

  predicate StartsOk(c: Schedule, starts: seq<Start>)
    requires ValidSchedule(c)
  {
    && (forall i :: 0 <= i < |starts| ==> SeenInWindow(c, starts[i]))
    && (forall i :: 0 < i < |starts| ==> Follows(c, starts[i - 1], starts[i]))
  }

  /** What the node knows of the last start. */
  predicate LastOk(c: Schedule, w: Watch, last: Start, now: int)
    requires ValidSchedule(c)
  {
    && last.at <= now && last.schedule <= w.schedules
    && (w.enabledAt.Some? && last.schedule == w.schedules ==>
          w.seen == Some(last.index) && last.due == Due(c, w.enabledAt.value, last.index))
    && (w.enabledAt.Some? && last.schedule < w.schedules ==> w.seen == None && last.at <= w.enabledAt.value)
  }

  predicate WatchInv(c: Schedule, w: Watch, now: int)
    requires ValidSchedule(c)
  {
    && StartsOk(c, w.starts)
    && (w.enabledAt.Some? ==> w.enabledAt.value <= now)
    && (w.starts == [] ==> w.seen == None)
    && (w.starts != [] ==> LastOk(c, w, w.starts[|w.starts| - 1], now))
  }

  lemma EnteredKeepsInv(c: Schedule, w: Watch, t: Tick, now: int)
    requires ValidSchedule(c) && WatchInv(c, w, now) && now <= t.now
    ensures WatchInv(c, Entered(w, t), t.now)
  {
  }

  /** A pulse newly seen in a schedule is a later one. */
  lemma NewPulseFollows(c: Schedule, v: Watch, last: Start, now: int)
    requires ValidSchedule(c) && v.enabledAt.Some? && v.enabledAt.value <= now
    requires LastOk(c, v, last, now) && SeenInWindow(c, last)
    ensures var r := Reported(c, v.enabledAt.value, now);
            r.active && r.index >= 0 && v.seen != Some(r.index) ==>
              Follows(c, last, Start(now, Due(c, v.enabledAt.value, r.index), v.schedules, r.index))
  {
    var e, r := v.enabledAt.value, Reported(c, v.enabledAt.value, now);
    ReportsLastDue(c, e, now);
    if r.active && r.index >= 0 && v.seen != Some(r.index) {
      if last.schedule == v.schedules {
        if last.index > r.index {
          DueSpread(c, e, r.index + 1, last.index, 0);
          assert false;
        }
        DueSpread(c, e, last.index, r.index, 1);
      } else {
        DueSpread(c, e, 0, r.index, 0);
      }
    }
  }

  lemma StartsGrow(c: Schedule, starts: seq<Start>, s: Start)
    requires ValidSchedule(c) && StartsOk(c, starts) && SeenInWindow(c, s)
    requires starts != [] ==> Follows(c, starts[|starts| - 1], s)
    ensures StartsOk(c, starts + [s])
  {
  }

  lemma StepKeepsInv(c: Schedule, w: Watch, t: Tick, now: int)
    requires ValidSchedule(c) && WatchInv(c, w, now) && now <= t.now
    ensures WatchInv(c, Step(c, w, t), t.now)
  {
    EnteredKeepsInv(c, w, t, now);
    var v := Entered(w, t);
    if v.enabledAt.Some? {
      var r := Reported(c, v.enabledAt.value, t.now);
      ReportsLastDue(c, v.enabledAt.value, t.now);
      if r.active && r.index >= 0 && v.seen != Some(r.index) {
        var s := Start(t.now, Due(c, v.enabledAt.value, r.index), v.schedules, r.index);
        if v.starts != [] {
          NewPulseFollows(c, v, v.starts[|v.starts| - 1], t.now);
        }
        StartsGrow(c, v.starts, s);
      }
    }
  }

  lemma {:induction false} RunsKeepInv(c: Schedule, ticks: seq<Tick>)
    requires ValidSchedule(c) && InOrder(ticks)
    ensures ticks != [] ==> WatchInv(c, After(c, ticks), ticks[|ticks| - 1].now)
    ensures StartsOk(c, After(c, ticks).starts)
  {
    if ticks != [] {
      var front, t := ticks[..|ticks| - 1], ticks[|ticks| - 1];
      RunsKeepInv(c, front);
      StepKeepsInv(c, After(c, front), t, if front == [] then t.now else front[|front| - 1].now);
    }
  }

  // ---- How close starts can come ---------------------------------------------------------------------

  /** m starts on: a of them intervals, the rest delays after a re-enabling. */
  function Spread(c: Schedule, late: nat, m: nat, a: nat): int
    requires ValidSchedule(c) && a <= m
  {
    a * Interval(c) + (m - a) * (c.delay * 1000) - if a > 0 then late else 0
  }

  lemma SpreadNext(c: Schedule, late: nat, m: nat, a: nat)
    requires ValidSchedule(c) && a <= m
    ensures Spread(c, late, m + 1, a) == Spread(c, late, m, a) + c.delay * 1000
    ensures Spread(c, late, m + 1, a + 1) <= Spread(c, late, m, a) + Interval(c)
  {
    var i, d := Interval(c), c.delay * 1000;
    assert (m + 1 - a) * d == (m - a) * d + d;
    assert (a + 1) * i == a * i + i;
  }

  /** Starts m apart are as far apart as the intervals and re-enablings between them make them. */
  lemma {:induction false} StartsSpread(c: Schedule, starts: seq<Start>, late: nat, i: nat, m: nat) returns (a: nat)
    requires ValidSchedule(c) && StartsOk(c, starts) && LateAtMost(starts, late) && i + m < |starts| && m > 0
    ensures a <= m && starts[i + m].due - starts[i].at >= Spread(c, late, m, a)
    ensures starts[i].schedule == starts[i + m].schedule ==> a == m
    ensures starts[i].schedule <= starts[i + m].schedule
    decreases m
  {
    var n := i + m;
    assert Follows(c, starts[n - 1], starts[n]) && SeenInWindow(c, starts[n - 1]);
    if m == 1 {
      a := if starts[i].schedule == starts[n].schedule then 1 else 0;
    } else {
      var b := StartsSpread(c, starts, late, i, m - 1);
      SpreadNext(c, late, m - 1, b);
      a := if starts[n - 1].schedule == starts[n].schedule then b + 1 else b;
    }
  }

  /** Positions in order, all seen in the half-open window of that width. */
  predicate SeenWithin(starts: seq<Start>, from: int, width: int, ks: seq<nat>) {
    && Increasing(ks)
    && (forall i :: 0 <= i < |ks| ==> ks[i] < |starts| && from <= starts[ks[i]].at < from + width)
  }

  /** No window of that width sees more than m starts. */
  ghost predicate CapSeen(starts: seq<Start>, m: nat, width: int) {
    forall from: int, ks: seq<nat> :: SeenWithin(starts, from, width, ks) ==> |ks| <= m
  }

  /** Starts m apart are that far apart in time. */
  predicate Apart(starts: seq<Start>, m: nat, width: int) {
    forall i: nat :: i + m < |starts| ==> starts[i + m].at >= starts[i].at + width
  }

  lemma {:induction false} StartsInOrder(c: Schedule, starts: seq<Start>, i: nat, j: nat)
    requires ValidSchedule(c) && StartsOk(c, starts) && i <= j < |starts|
    ensures starts[i].at <= starts[j].at
    decreases j - i
  {
    if i < j {
      StartsInOrder(c, starts, i, j - 1);
      assert Follows(c, starts[j - 1], starts[j]) && SeenInWindow(c, starts[j - 1]) && SeenInWindow(c, starts[j]);
    }
  }

  lemma ApartMeansCap(c: Schedule, starts: seq<Start>, m: nat, width: int)
    requires ValidSchedule(c) && StartsOk(c, starts) && Apart(starts, m, width)
    ensures CapSeen(starts, m, width)
  {
    forall from: int, ks: seq<nat> | SeenWithin(starts, from, width, ks) ensures |ks| <= m {
      if |ks| > m {
        Distinct(ks);
        var first, last := ks[0], ks[|ks| - 1];
        StartsInOrder(c, starts, first + m, last);
        assert false;
      }
    }
  }

  /** Starts closer than that are one too many in the window from the first of them. */
  lemma CloseBreaksCap(c: Schedule, starts: seq<Start>, m: nat, width: int, i: nat)
    requires ValidSchedule(c) && StartsOk(c, starts) && i + m < |starts| && starts[i + m].at < starts[i].at + width
    ensures !CapSeen(starts, m, width)
  {
    var ks := seq(m + 1, k requires 0 <= k => i + k);
    forall k | 0 <= k < |ks| ensures starts[i].at <= starts[ks[k]].at < starts[i].at + width {
      StartsInOrder(c, starts, i, i + k);
      StartsInOrder(c, starts, i + k, i + m);
    }
    assert SeenWithin(starts, starts[i].at, width, ks);
  }

  lemma {:induction false} OneSchedule(c: Schedule, ticks: seq<Tick>)
    requires ValidSchedule(c) && KeptEnabled(ticks)
    ensures After(c, ticks).schedules == if ticks == [] then 0 else 1
    ensures ticks != [] ==> After(c, ticks).enabledAt.Some?
    ensures forall i :: 0 <= i < |After(c, ticks).starts| ==> After(c, ticks).starts[i].schedule == 1
  {
    if ticks != [] {
      OneSchedule(c, ticks[..|ticks| - 1]);
    }
  }

  // ---- And do come -----------------------------------------------------------------------------------

  /** A tick inside a pulse's window reports that pulse, open. */
  lemma ReportsPulse(c: Schedule, enabledAt: int, k: nat, x: nat)
    requires ValidSchedule(c) && x < c.pulse * 1000
    ensures var r := Reported(c, enabledAt, Due(c, enabledAt, k) + x); r.active && r.index == k
  {
    var now := Due(c, enabledAt, k) + x;
    DueSpread(c, enabledAt, 0, k, 0);
    ReportsLastDue(c, enabledAt, now);
    var r := Reported(c, enabledAt, now);
    DueSpread(c, enabledAt, k, k + 1, 1);
    if r.index < k {
      DueSpread(c, enabledAt, r.index + 1, k, 0);
    } else if r.index > k {
      DueSpread(c, enabledAt, k + 1, r.index, 0);
    }
  }

  /**
    A run whose last start is the last tick's, with m starts before it back to
    `base`, a of those steps in one schedule and then re-enablings.
   */
  ghost predicate Witness(c: Schedule, ticks: seq<Tick>, late: nat, m: nat, a: nat, base: nat)
    requires ValidSchedule(c) && a <= m
  {
    && ticks != [] && InOrder(ticks) && (a == m ==> KeptEnabled(ticks))
    && var w := After(c, ticks);
       && |w.starts| == base + m + 1 && LateAtMost(w.starts, late)
       && EndsIn(c, w, ticks[|ticks| - 1].now, if m == 0 then late else 0)
       && w.starts[base + m].at == w.starts[base].at + Spread(c, late, m, a)
  }

  /** The schedule in force has just seen a pulse, that late. */
  predicate EndsIn(c: Schedule, w: Watch, now: int, late: nat)
    requires ValidSchedule(c)
  {
    && w.starts != [] && w.enabledAt.Some?
    && var last := w.starts[|w.starts| - 1];
       && last.at == now == last.due + late
       && w.seen == Some(last.index) && last.due == Due(c, w.enabledAt.value, last.index)
  }

  lemma OrderGrows(ticks: seq<Tick>, t: Tick)
    requires InOrder(ticks) && (ticks != [] ==> ticks[|ticks| - 1].now <= t.now)
    ensures InOrder(ticks + [t])
  {
  }

  lemma FirstWitness(c: Schedule, late: nat) returns (ticks: seq<Tick>, base: nat)
    requires ValidSchedule(c) && late < c.pulse * 1000
    ensures Witness(c, ticks, late, 0, 0, base)
  {
    var first, second := Tick(true, 0), Tick(true, Due(c, 0, 1) + late);
    ticks := [first] + [second];
    AfterSnoc(c, [], first);
    AfterSnoc(c, [first], second);
    assert [] + [first] == [first];
    FirstTick(c);
    var w := Step(c, UNSEEN, first);
    base := |w.starts|;
    SeesPulse(c, w, 0, 1, late);
    LateGrows(w.starts, Step(c, w, second).starts, late);
  }

  /** Enabled at 0: perhaps the first pulse at once, on time, and no other. */
  lemma FirstTick(c: Schedule)
    requires ValidSchedule(c)
    ensures var w := Step(c, UNSEEN, Tick(true, 0));
            w.enabledAt == Some(0) && w.seen != Some(1) && LateAtMost(w.starts, 0) && 0 <= Due(c, 0, 1)
  {
    ReportsLastDue(c, 0, 0);
    DueSpread(c, 0, 0, 1, 1);
  }

  /** A tick inside the window of a pulse not seen yet sees it start. */
  lemma SeesPulse(c: Schedule, w: Watch, enabledAt: int, k: nat, x: nat)
    requires ValidSchedule(c) && x < c.pulse * 1000 && w.enabledAt == Some(enabledAt) && w.seen != Some(k)
    ensures var due := Due(c, enabledAt, k);
            Step(c, w, Tick(true, due + x)) ==
              w.(seen := Some(k), starts := w.starts + [Start(due + x, due, w.schedules, k)])
  {
    ReportsPulse(c, enabledAt, k, x);
  }

  /** The next pulse of the schedule, on time. */
  lemma NextPulse(c: Schedule, w: Watch, now: int, late: nat)
    requires ValidSchedule(c) && late < c.pulse * 1000 && EndsIn(c, w, now, late)
    ensures var next := now - late + Interval(c);
            var v := Step(c, w, Tick(true, next));
            && now <= next && EndsIn(c, v, next, 0) && |v.starts| == |w.starts| + 1 && w.starts <= v.starts
  {
    var last, e := w.starts[|w.starts| - 1], w.enabledAt.value;
    assert (last.index + 1) * Interval(c) == last.index * Interval(c) + Interval(c);
    SeesPulse(c, w, e, last.index + 1, 0);
  }

  /** Disabled and enabled again at once, the first pulse on time. */
  lemma FirstPulseAgain(c: Schedule, w: Watch, now: int)
    requires ValidSchedule(c)
    ensures var next := now + c.delay * 1000;
            var v := Step(c, Step(c, Step(c, w, Tick(false, now)), Tick(true, now)), Tick(true, next));
            && now <= next && EndsIn(c, v, next, 0) && |v.starts| == |w.starts| + 1 && w.starts <= v.starts
  {
    ReportsLastDue(c, now, now);
    ReportsPulse(c, now, 0, 0);
  }

  lemma LateGrows(starts: seq<Start>, longer: seq<Start>, late: nat)
    requires LateAtMost(starts, late) && starts <= longer && |longer| == |starts| + 1
    requires longer[|starts|].at <= longer[|starts|].due + late
    ensures LateAtMost(longer, late)
  {
    assert forall i :: 0 <= i < |starts| ==> longer[i] == starts[i];
  }

  lemma WitnessOneMorePulse(c: Schedule, ticks: seq<Tick>, late: nat, m: nat, base: nat) returns (more: seq<Tick>)
    requires ValidSchedule(c) && late < c.pulse * 1000 && Witness(c, ticks, late, m, m, base)
    ensures Witness(c, more, late, m + 1, m + 1, base)
  {
    var w, now, was := After(c, ticks), ticks[|ticks| - 1].now, if m == 0 then late else 0;
    var t := Tick(true, now - was + Interval(c));
    NextPulse(c, w, now, was);
    AfterSnoc(c, ticks, t);
    OrderGrows(ticks, t);
    more := ticks + [t];
    LateGrows(w.starts, After(c, more).starts, late);
    assert (m + 1) * Interval(c) == m * Interval(c) + Interval(c);
  }

  lemma WitnessOneReenabling(c: Schedule, ticks: seq<Tick>, late: nat, m: nat, a: nat, base: nat)
    returns (more: seq<Tick>)
    requires ValidSchedule(c) && a <= m && Witness(c, ticks, late, m, a, base)
    ensures Witness(c, more, late, m + 1, a, base)
  {
    var w, now := After(c, ticks), ticks[|ticks| - 1].now;
    var off, on, next := Tick(false, now), Tick(true, now), Tick(true, now + c.delay * 1000);
    FirstPulseAgain(c, w, now);
    AfterSnoc(c, ticks, off);
    AfterSnoc(c, ticks + [off], on);
    AfterSnoc(c, ticks + [off] + [on], next);
    OrderGrows(ticks, off);
    OrderGrows(ticks + [off], on);
    OrderGrows(ticks + [off] + [on], next);
    more := ticks + [off] + [on] + [next];
    LateGrows(w.starts, After(c, more).starts, late);
    SpreadNext(c, late, m, a);
  }

  lemma {:induction false} WitnessFor(c: Schedule, late: nat, m: nat, a: nat) returns (ticks: seq<Tick>, base: nat)
    requires ValidSchedule(c) && late < c.pulse * 1000 && a <= m
    ensures Witness(c, ticks, late, m, a, base)
    decreases m
  {
    if m == 0 {
      ticks, base := FirstWitness(c, late);
    } else if a == m {
      var front;
      front, base := WitnessFor(c, late, m - 1, a - 1);
      ticks := WitnessOneMorePulse(c, front, late, m - 1, base);
    } else {
      var front;
      front, base := WitnessFor(c, late, m - 1, a);
      ticks := WitnessOneReenabling(c, front, late, m - 1, a, base);
    }
  }

  /** A spread narrower than the window breaks the cap. */
  lemma NarrowSpreadBreaksCap(c: Schedule, late: nat, m: nat, a: nat, width: int) returns (ticks: seq<Tick>)
    requires ValidSchedule(c) && late < c.pulse * 1000 && a <= m && Spread(c, late, m, a) < width
    ensures InOrder(ticks) && LateAtMost(After(c, ticks).starts, late) && (a == m ==> KeptEnabled(ticks))
    ensures !CapSeen(After(c, ticks).starts, m, width)
  {
    var base;
    ticks, base := WitnessFor(c, late, m, a);
    RunsKeepInv(c, ticks);
    CloseBreaksCap(c, After(c, ticks).starts, m, width, base);
  }

  // ---- Exactly when the cap holds of starts seen ------------------------------------------------------

  /** Over every run in time order that keeps the node enabled and sees no start later than that. */
  ghost predicate CapHoldsKeptEnabled(c: Schedule, late: nat, m: nat, width: int)
    requires ValidSchedule(c)
  {
    forall ticks: seq<Tick> :: InOrder(ticks) && KeptEnabled(ticks) && LateAtMost(After(c, ticks).starts, late) ==>
      CapSeen(After(c, ticks).starts, m, width)
  }

  /** Over every run in time order that sees no start later than that, enabled and disabled at will. */
  ghost predicate CapHoldsAlways(c: Schedule, late: nat, m: nat, width: int)
    requires ValidSchedule(c)
  {
    forall ticks: seq<Tick> :: InOrder(ticks) && LateAtMost(After(c, ticks).starts, late) ==>
      CapSeen(After(c, ticks).starts, m, width)
  }

  lemma KeptEnabledApart(c: Schedule, ticks: seq<Tick>, late: nat, m: nat, width: int)
    requires ValidSchedule(c) && InOrder(ticks) && KeptEnabled(ticks) && LateAtMost(After(c, ticks).starts, late)
    requires m > 0 && Spread(c, late, m, m) >= width
    ensures CapSeen(After(c, ticks).starts, m, width)
  {
    var starts := After(c, ticks).starts;
    RunsKeepInv(c, ticks);
    OneSchedule(c, ticks);
    forall i: nat | i + m < |starts| ensures starts[i + m].at >= starts[i].at + width {
      var a := StartsSpread(c, starts, late, i, m);
      assert SeenInWindow(c, starts[i + m]);
    }
    ApartMeansCap(c, starts, m, width);
  }

  /**
    Kept enabled, the cap holds of the starts seen in every window exactly when m
    intervals less the lateness fill the window.
   */
  lemma CapKeptEnabledExactly(c: Schedule, late: nat, m: nat, width: int)
    requires ValidSchedule(c) && late < c.pulse * 1000 && m > 0
    ensures CapHoldsKeptEnabled(c, late, m, width) <==> m * Interval(c) - late >= width
  {
    assert Spread(c, late, m, m) == m * Interval(c) - late;
    if Spread(c, late, m, m) >= width {
      forall ticks: seq<Tick> | InOrder(ticks) && KeptEnabled(ticks) && LateAtMost(After(c, ticks).starts, late)
        ensures CapSeen(After(c, ticks).starts, m, width)
      {
        KeptEnabledApart(c, ticks, late, m, width);
      }
    } else {
      var ticks := NarrowSpreadBreaksCap(c, late, m, m, width);
    }
  }

  /** Mixing intervals and re-enablings is no closer than one of the extremes. */
  lemma SpreadIsLeastAtEnds(c: Schedule, late: nat, m: nat, a: nat)
    requires ValidSchedule(c) && 1 <= a <= m
    ensures Spread(c, late, m, a) >= Spread(c, late, m, 1) || Spread(c, late, m, a) >= Spread(c, late, m, m)
  {
    var i, d := Interval(c), c.delay * 1000;
    if d <= i {
      MultiplyOrder(a - 1, d, i);
      assert a * i + (m - a) * d == i + (m - 1) * d + ((a - 1) * i - (a - 1) * d);
    } else {
      MultiplyOrder(m - a, i, d);
      assert a * i + (m - a) * d == m * i + ((m - a) * d - (m - a) * i);
    }
  }

  lemma AlwaysApart(c: Schedule, ticks: seq<Tick>, late: nat, m: nat, width: int)
    requires ValidSchedule(c) && InOrder(ticks) && LateAtMost(After(c, ticks).starts, late) && m > 0
    requires Spread(c, late, m, 0) >= width && Spread(c, late, m, 1) >= width && Spread(c, late, m, m) >= width
    ensures CapSeen(After(c, ticks).starts, m, width)
  {
    var starts := After(c, ticks).starts;
    RunsKeepInv(c, ticks);
    forall i: nat | i + m < |starts| ensures starts[i + m].at >= starts[i].at + width {
      var a := StartsSpread(c, starts, late, i, m);
      if a > 0 {
        SpreadIsLeastAtEnds(c, late, m, a);
      }
      assert SeenInWindow(c, starts[i + m]);
    }
    ApartMeansCap(c, starts, m, width);
  }

  /**
    Enabled and disabled at will, the cap holds exactly when the window is filled by
    m delays, by an interval less the lateness and m - 1 delays, and by m intervals
    less the lateness.
   */
  lemma CapAlwaysExactly(c: Schedule, late: nat, m: nat, width: int)
    requires ValidSchedule(c) && late < c.pulse * 1000 && m > 0
    ensures CapHoldsAlways(c, late, m, width) <==>
              && m * (c.delay * 1000) >= width
              && Interval(c) + (m - 1) * (c.delay * 1000) - late >= width
              && m * Interval(c) - late >= width
  {
    if Spread(c, late, m, 0) < width {
      var ticks := NarrowSpreadBreaksCap(c, late, m, 0, width);
    } else if Spread(c, late, m, 1) < width {
      var ticks := NarrowSpreadBreaksCap(c, late, m, 1, width);
    } else if Spread(c, late, m, m) < width {
      var ticks := NarrowSpreadBreaksCap(c, late, m, m, width);
    } else {
      forall ticks: seq<Tick> | InOrder(ticks) && LateAtMost(After(c, ticks).starts, late)
        ensures CapSeen(After(c, ticks).starts, m, width)
      {
        AlwaysApart(c, ticks, late, m, width);
      }
    }
  }

  /** No tick at all can see a start later than its window: that much lateness is no assumption. */
  lemma LatenessIsBounded(c: Schedule, ticks: seq<Tick>)
    requires ValidSchedule(c) && InOrder(ticks)
    ensures LateAtMost(After(c, ticks).starts, c.pulse * 1000 - 1)
  {
    RunsKeepInv(c, ticks);
    var starts := After(c, ticks).starts;
    assert forall i :: 0 <= i < |starts| ==> SeenInWindow(c, starts[i]);
  }

  /** A cap of 60 at 60 s with pulses of 30 s: a first tick 29999 ms late makes 61 starts in an hour. */
  lemma LateTickBreaksCap() returns (ticks: seq<Tick>)
    ensures var c := Schedule(0, 60, 30, 60);
            InOrder(ticks) && KeptEnabled(ticks) && !CapSeen(After(c, ticks).starts, 60, 60 * (HOUR / 60))
  {
    var c := Schedule(0, 60, 30, 60);
    assert Interval(c) == 60000;
    ticks := NarrowSpreadBreaksCap(c, 29999, 60, 60, 60 * (HOUR / 60));
  }

  /** With no delay, disabling and enabling again starts a pulse each time: no cap holds over any window. */
  lemma ReenablingBreaksAnyCap(c: Schedule, m: nat, width: int) returns (ticks: seq<Tick>)
    requires ValidSchedule(c) && c.delay == 0 && width > 0
    ensures InOrder(ticks) && !CapSeen(After(c, ticks).starts, m, width)
  {
    ticks := NarrowSpreadBreaksCap(c, 0, m, 0, width);
  }
}

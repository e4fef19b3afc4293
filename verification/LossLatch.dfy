/**
  The per-device loss latch of core/control/device_loss_latch.cpp.

  The state cache numbers each reachability edge under its lock but delivers it
  outside, so two edges of a device can arrive in either order. `Apply` is the
  lock section of `apply_reachability_edge`; the lemmas compare delivery orders.
 */
module LossLatch {

  datatype Status = OkStatus | Unavailable | DeadlineExceeded | OtherStatus

  datatype Edge = Edge(handle: string, reachable: bool, status: Status, number: nat)

  /** Only a transport-level failure latches: a device that answered badly still answered. */
  predicate IsTransportLoss(e: Edge) { !e.reachable && (e.status.Unavailable? || e.status.DeadlineExceeded?) }

  datatype Applied = Applied(number: nat, reachable: bool)

  datatype Latch = Latch(latched: set<string>, last: map<string, Applied>) {
    /** The newest edge applied for a device; an entry never written reads as number 0. */
    function Last(handle: string): Applied { if handle in last then last[handle] else Applied(0, false) }

    /** Latched, and as far as the latch knows back again. */
    predicate Returned(handle: string) { handle in latched && Last(handle).reachable }
  }

  /** One edge; the second result asks for the device's safe state to be re-asserted. */
  function Apply(l: Latch, e: Edge): (Latch, bool) {
    var last := l.Last(e.handle);
    if e.number <= last.number then
      var seen := l.(last := l.last[e.handle := last]);
      if e.reachable || !IsTransportLoss(e) then (seen, false)
      else (seen.(latched := l.latched + {e.handle}), e.handle !in l.latched && last.reachable)
    else
      var newer := l.(last := l.last[e.handle := Applied(e.number, e.reachable)]);
      if e.reachable then (newer, e.handle in l.latched)
      else if IsTransportLoss(e) then (newer.(latched := l.latched + {e.handle}), false)
      else (newer, false)
  }

  /**
    An edge latches its device exactly when it is a loss that the transport
    reports, unavailable or past its deadline, however old; it unlatches none, and
    it is remembered exactly when no newer one of the device is.
   */
  lemma LatchesExactlyOnTransportLoss(l: Latch, e: Edge, handle: string)
    ensures handle in Apply(l, e).0.latched <==>
              || handle in l.latched
              || (handle == e.handle && !e.reachable && (e.status == Unavailable || e.status == DeadlineExceeded))
    ensures Apply(l, e).0.Last(handle) ==
              if handle == e.handle && e.number > l.Last(handle).number then Applied(e.number, e.reachable)
              else l.Last(handle)
  {
  }

  /**
    A re-assert is asked for exactly when the edge leaves its device latched and
    returned, and is itself the return, newer than all before it, or has just made
    the device so.
   */
  lemma AsksExactlyOnReturn(l: Latch, e: Edge)
    ensures Apply(l, e).1 <==>
              && Apply(l, e).0.Returned(e.handle)
              && ((e.reachable && e.number > l.Last(e.handle).number) || !l.Returned(e.handle))
    ensures forall other: string :: other != e.handle ==> (Apply(l, e).0.Returned(other) <==> l.Returned(other))
  {
  }

  class DeviceLossLatch {
    var latched: set<string>
    var last: map<string, Applied>

    function State(): Latch
      reads this
    {
      Latch(latched, last)
    }

    constructor ()
      ensures State() == Latch({}, map[])
    {
      latched, last := {}, map[];
    }

    method ApplyReachabilityEdge(e: Edge) returns (reissue: bool)
      modifies this
      ensures (State(), reissue) == Apply(old(State()), e)
    {
      var transportFailure := e.status.Unavailable? || e.status.DeadlineExceeded?;
      var newest := if e.handle in last then last[e.handle] else Applied(0, false);
      if e.number <= newest.number {
        last := last[e.handle := newest];
        if e.reachable || !transportFailure {
          return false;
        }
        var engaged := e.handle !in latched;
        latched := latched + {e.handle};
        return engaged && newest.reachable;
      }
      last := last[e.handle := Applied(e.number, e.reachable)];
      if e.reachable {
        return e.handle in latched;
      }
      if transportFailure {
        latched := latched + {e.handle};
      }
      return false;
    }

    method ReleaseAll() returns (released: set<string>)
      modifies this
      ensures released == old(latched)
      ensures State() == old(State()).(latched := {})
    {
      released := latched;
      latched := {};
    }
  }

  // ---- Delivery between two re-arms ------------------------------------------------

  function Deliver(l: Latch, edges: seq<Edge>): Latch
    decreases |edges|
  {
    if edges == [] then l else Deliver(Apply(l, edges[0]).0, edges[1..])
  }

  /** Whether `a` is the newest of `l`'s record and the delivered edges of the device. */
  predicate IsNewest(l: Latch, edges: seq<Edge>, handle: string, a: Applied) {
    && l.Last(handle).number <= a.number
    && (forall e :: e in edges && e.handle == handle ==> e.number <= a.number)
    && (a == l.Last(handle) || exists e :: e in edges && e.handle == handle && a == Applied(e.number, e.reachable))
  }

  /** What any delivery leaves, in terms of which edges were delivered and not of their order. */
  ghost predicate IsDelivered(l: Latch, edges: seq<Edge>, handle: string, d: Latch) {
    && (handle in d.latched <==>
          handle in l.latched || exists e :: e in edges && e.handle == handle && IsTransportLoss(e))
    && (handle in d.last <==> handle in l.last || exists e :: e in edges && e.handle == handle)
    && IsNewest(l, edges, handle, d.Last(handle))
    && (d.Last(handle).number == l.Last(handle).number ==> d.Last(handle) == l.Last(handle))
  }

  lemma DeliveredFirst(l: Latch, first: Edge, rest: seq<Edge>, handle: string, d: Latch)
    requires IsDelivered(Apply(l, first).0, rest, handle, d)
    ensures IsDelivered(l, [first] + rest, handle, d)
  {
    var edges := [first] + rest;
    assert forall e :: e in edges <==> e == first || e in rest;
  }

  lemma {:induction false} DeliveredState(l: Latch, edges: seq<Edge>, handle: string)
    ensures IsDelivered(l, edges, handle, Deliver(l, edges))
    decreases |edges|
  {
    if edges != [] {
      DeliveredState(Apply(l, edges[0]).0, edges[1..], handle);
      DeliveredFirst(l, edges[0], edges[1..], handle, Deliver(l, edges));
      assert edges == [edges[0]] + edges[1..];
    }
  }

  /** Numbers identify a device's edges, as one strictly increasing counter hands them out. */
  ghost predicate WellNumbered(edges: seq<Edge>) {
    forall e, f :: e in edges && f in edges && e.handle == f.handle && e.number == f.number ==> e == f
  }

  /**
    Order does not matter: deliveries of the same numbered edges, in any two
    orders, leave the same latched set and the same newest-edge records.
   */
  lemma DeliveryOrderIsIrrelevant(l: Latch, edges: seq<Edge>, reordered: seq<Edge>)
    requires WellNumbered(edges)
    requires multiset(edges) == multiset(reordered)
    ensures Deliver(l, edges) == Deliver(l, reordered)
  {
    assert forall e :: e in edges <==> e in multiset(edges);
    assert forall e :: e in reordered <==> e in multiset(reordered);
    var d, r := Deliver(l, edges), Deliver(l, reordered);
    forall handle
      ensures handle in d.latched <==> handle in r.latched
      ensures handle in d.last <==> handle in r.last
      ensures d.Last(handle) == r.Last(handle)
    {
      DeliveredState(l, edges, handle);
      DeliveredState(l, reordered, handle);
    }
    assert d.last.Keys == r.last.Keys;
    assert forall handle :: handle in d.last ==> d.last[handle] == d.Last(handle) && r.last[handle] == r.Last(handle);
    assert d.last == r.last;
  }

  // ---- Delivery across re-arms --------------------------------------------------------

  /** A delivery, or the release on a deliberate MANUAL -> AUTO. */
  datatype Event = Delivery(e: Edge) | Rearm

  function Replay(l: Latch, events: seq<Event>): Latch {
    if events == [] then l
    else
      var before := Replay(l, events[..|events| - 1]);
      match events[|events| - 1]
      case Delivery(e) => Apply(before, e).0
      case Rearm => before.(latched := {})
  }

  /** How many re-arms come before position `n`. */
  function Rearms(events: seq<Event>, n: nat): nat
    requires n <= |events|
  {
    if n == 0 then 0 else Rearms(events, n - 1) + (if events[n - 1].Rearm? then 1 else 0)
  }

  lemma {:induction false} RearmsOfPrefix(events: seq<Event>, m: nat, n: nat)
    requires n <= m <= |events|
    ensures Rearms(events[..m], n) == Rearms(events, n)
    ensures Rearms(events, n) <= Rearms(events, m)
    decreases m, n
  {
    if n > 0 {
      RearmsOfPrefix(events, m, n - 1);
    }
    if n < m {
      RearmsOfPrefix(events, m - 1, n);
    }
  }

  /** Position `i` delivers a transport loss of the device. */
  predicate LosesAt(events: seq<Event>, i: nat, handle: string)
    requires i < |events|
  {
    events[i].Delivery? && events[i].e.handle == handle && IsTransportLoss(events[i].e)
  }

  /** After any interleaving, a device is latched exactly by a transport loss delivered since the last re-arm. */
  lemma {:induction false} ReplayedLatch(l: Latch, events: seq<Event>, handle: string)
    ensures handle in Replay(l, events).latched <==>
            || (handle in l.latched && Rearms(events, |events|) == 0)
            || exists i: nat :: i < |events| && LosesAt(events, i, handle)
                                && Rearms(events, i) == Rearms(events, |events|)
  {
    if events != [] {
      var n := |events| - 1;
      var front := events[..n];
      ReplayedLatch(l, front, handle);
      forall i: nat | i <= n
        ensures Rearms(front, i) == Rearms(events, i) <= Rearms(events, n)
        ensures i < n ==> (LosesAt(front, i, handle) <==> LosesAt(events, i, handle))
      {
        RearmsOfPrefix(events, n, i);
      }
      if exists i: nat :: i < n && LosesAt(front, i, handle) && Rearms(front, i) == Rearms(front, n) {
        var i: nat :| i < n && LosesAt(front, i, handle) && Rearms(front, i) == Rearms(front, n);
        assert LosesAt(events, i, handle);
      }
      if events[n].Delivery? && LosesAt(events, n, handle) {
        assert Rearms(events, n) == Rearms(events, |events|);
      }
    }
  }

  /**
    `actual` delivers what `decided` lists, each edge behind at least the
    re-arms it was decided behind: an edge can be late, never early.
   */
  ghost predicate IsDelayOf(actual: seq<Event>, decided: seq<Event>) {
    && Rearms(actual, |actual|) == Rearms(decided, |decided|)
    && forall i: nat :: i < |decided| && decided[i].Delivery? ==>
         exists j: nat :: j < |actual| && actual[j] == decided[i] && Rearms(decided, i) <= Rearms(actual, j)
  }

  /**
    Re-arms interleaved anywhere, lateness only fails closed: the latched set
    after all deliveries contains the one in-order delivery would leave.
   */
  lemma LateDeliveryFailsClosed(l: Latch, actual: seq<Event>, decided: seq<Event>)
    requires IsDelayOf(actual, decided)
    ensures Replay(l, decided).latched <= Replay(l, actual).latched
  {
    forall handle | handle in Replay(l, decided).latched
      ensures handle in Replay(l, actual).latched
    {
      ReplayedLatch(l, decided, handle);
      ReplayedLatch(l, actual, handle);
      if !(handle in l.latched && Rearms(decided, |decided|) == 0) {
        var i: nat :| i < |decided| && LosesAt(decided, i, handle) && Rearms(decided, i) == Rearms(decided, |decided|);
        var j: nat :| j < |actual| && actual[j] == decided[i] && Rearms(decided, i) <= Rearms(actual, j);
        RearmsOfPrefix(actual, |actual|, j);
        assert LosesAt(actual, j, handle) && Rearms(actual, j) == Rearms(actual, |actual|);
      }
    }
  }

  // ---- Exactly when lateness shows --------------------------------------------------------

  /**
    `actual` is exactly the deliveries and re-arms of `decided`, each delivery moved
    to position `at[i]`, behind at least the re-arms it was decided behind.
   */
  ghost predicate IsRetiming(actual: seq<Event>, decided: seq<Event>, at: seq<nat>) {
    && |at| == |decided| == |actual| && Rearms(actual, |actual|) == Rearms(decided, |decided|)
    && (forall i: nat :: i < |decided| && decided[i].Delivery? ==> IsMoved(actual, decided, at, i))
    && (forall i: nat, k: nat :: i < k < |decided| && decided[i].Delivery? && decided[k].Delivery? ==> at[i] != at[k])
    && (forall j: nat :: j < |actual| && actual[j].Delivery? ==> ComesFrom(actual, decided, at, j))
  }

  predicate IsMoved(actual: seq<Event>, decided: seq<Event>, at: seq<nat>, i: nat)
    requires i < |decided| == |at|
  {
    at[i] < |actual| && actual[at[i]] == decided[i] && Rearms(decided, i) <= Rearms(actual, at[i])
  }

  ghost predicate ComesFrom(actual: seq<Event>, decided: seq<Event>, at: seq<nat>, j: nat)
    requires |decided| == |at|
  {
    exists i: nat :: i < |decided| && decided[i].Delivery? && at[i] == j
  }

  lemma RetimingIsDelay(actual: seq<Event>, decided: seq<Event>, at: seq<nat>)
    requires IsRetiming(actual, decided, at)
    ensures IsDelayOf(actual, decided)
  {
    forall i: nat | i < |decided| && decided[i].Delivery?
      ensures exists j: nat :: j < |actual| && actual[j] == decided[i] && Rearms(decided, i) <= Rearms(actual, j)
    {
      assert IsMoved(actual, decided, at, i);
    }
  }

  /** A transport loss of the device comes behind every re-arm. */
  ghost predicate LostSinceRearm(events: seq<Event>, handle: string) {
    exists i: nat :: i < |events| && LosesAt(events, i, handle) && Rearms(events, i) == Rearms(events, |events|)
  }

  /** The loss at `i` was decided before the last re-arm and delivered after it. */
  predicate OvertakenByRearm(actual: seq<Event>, decided: seq<Event>, at: seq<nat>, i: nat, handle: string)
    requires i < |decided| == |at|
  {
    && LosesAt(decided, i, handle) && at[i] < |actual|
    && Rearms(decided, i) < Rearms(decided, |decided|) && Rearms(actual, at[i]) == Rearms(actual, |actual|)
  }

  /** Each device with a loss overtaken by the last re-arm has a loss decided after it too. */
  ghost predicate LatenessIsMoot(actual: seq<Event>, decided: seq<Event>, at: seq<nat>)
    requires |decided| == |at|
  {
    forall i: nat, handle: string ::
      i < |decided| && OvertakenByRearm(actual, decided, at, i, handle) ==> LostSinceRearm(decided, handle)
  }

  /** What was delivered after the last re-arm was decided after it, or overtaken. */
  lemma LossComesFrom(actual: seq<Event>, decided: seq<Event>, at: seq<nat>, handle: string)
    requires IsRetiming(actual, decided, at) && LostSinceRearm(actual, handle)
    ensures || LostSinceRearm(decided, handle)
            || exists i: nat :: i < |decided| && OvertakenByRearm(actual, decided, at, i, handle)
  {
    var j: nat :| j < |actual| && LosesAt(actual, j, handle) && Rearms(actual, j) == Rearms(actual, |actual|);
    assert ComesFrom(actual, decided, at, j);
    var i: nat :| i < |decided| && decided[i].Delivery? && at[i] == j;
    assert IsMoved(actual, decided, at, i);
    RearmsOfPrefix(decided, |decided|, i);
    assert LosesAt(decided, i, handle);
    if Rearms(decided, i) < Rearms(decided, |decided|) {
      assert OvertakenByRearm(actual, decided, at, i, handle);
    }
  }

  lemma LatchedAfter(l: Latch, events: seq<Event>, handle: string)
    ensures handle in Replay(l, events).latched <==>
              (handle in l.latched && Rearms(events, |events|) == 0) || LostSinceRearm(events, handle)
  {
    ReplayedLatch(l, events, handle);
  }

  lemma MootLatenessLatchesSame(l: Latch, actual: seq<Event>, decided: seq<Event>, at: seq<nat>, handle: string)
    requires IsRetiming(actual, decided, at) && LatenessIsMoot(actual, decided, at)
    ensures handle in Replay(l, actual).latched ==> handle in Replay(l, decided).latched
  {
    LatchedAfter(l, actual, handle);
    LatchedAfter(l, decided, handle);
    if LostSinceRearm(actual, handle) {
      LossComesFrom(actual, decided, at, handle);
    }
  }

  lemma OvertakenLossShows(l: Latch, actual: seq<Event>, decided: seq<Event>, at: seq<nat>, i: nat, handle: string)
    requires IsRetiming(actual, decided, at) && i < |decided|
    requires OvertakenByRearm(actual, decided, at, i, handle) && !LostSinceRearm(decided, handle)
    ensures handle in Replay(l, actual).latched && handle !in Replay(l, decided).latched
  {
    LatchedAfter(l, actual, handle);
    LatchedAfter(l, decided, handle);
    assert IsMoved(actual, decided, at, i);
    assert LosesAt(actual, at[i], handle);
  }

  lemma MootLatenessDoesNotShow(l: Latch, actual: seq<Event>, decided: seq<Event>, at: seq<nat>)
    requires IsRetiming(actual, decided, at) && LatenessIsMoot(actual, decided, at)
    ensures Replay(l, actual).latched == Replay(l, decided).latched
  {
    RetimingIsDelay(actual, decided, at);
    LateDeliveryFailsClosed(l, actual, decided);
    forall handle | handle in Replay(l, actual).latched ensures handle in Replay(l, decided).latched {
      MootLatenessLatchesSame(l, actual, decided, at, handle);
    }
  }

  lemma OvertakenLoss(actual: seq<Event>, decided: seq<Event>, at: seq<nat>) returns (i: nat, handle: string)
    requires |decided| == |at| && !LatenessIsMoot(actual, decided, at)
    ensures i < |decided| && OvertakenByRearm(actual, decided, at, i, handle) && !LostSinceRearm(decided, handle)
  {
    i, handle :| i < |decided| && OvertakenByRearm(actual, decided, at, i, handle) && !LostSinceRearm(decided, handle);
  }

  /**
    Exactly when lateness does not show: with re-arms interleaved anywhere, late
    delivery latches what in-order delivery would if and only if each device whose
    loss was decided before the last re-arm and delivered after it also has a loss
    decided after it.
   */
  lemma LateDeliveryLatchesSameExactly(l: Latch, actual: seq<Event>, decided: seq<Event>, at: seq<nat>)
    requires IsRetiming(actual, decided, at)
    ensures Replay(l, actual).latched == Replay(l, decided).latched <==> LatenessIsMoot(actual, decided, at)
  {
    if LatenessIsMoot(actual, decided, at) {
      MootLatenessDoesNotShow(l, actual, decided, at);
    } else {
      var i, handle := OvertakenLoss(actual, decided, at);
      OvertakenLossShows(l, actual, decided, at, i, handle);
    }
  }

  /** No loss overtaken by the last re-arm, no difference. */
  lemma PromptLossesLatchSame(l: Latch, actual: seq<Event>, decided: seq<Event>, at: seq<nat>)
    requires IsRetiming(actual, decided, at)
    requires forall i: nat, handle: string :: i < |decided| ==> !OvertakenByRearm(actual, decided, at, i, handle)
    ensures Replay(l, actual).latched == Replay(l, decided).latched
  {
    LateDeliveryLatchesSameExactly(l, actual, decided, at);
  }

  /** It does show: any transport loss delivered only after the re-arm that followed it latches again. */
  lemma LateDeliveryCanLatchMore(l: Latch, loss: Edge)
    requires IsTransportLoss(loss)
    ensures var decided, actual := [Delivery(loss), Rearm], [Rearm, Delivery(loss)];
            && IsRetiming(actual, decided, [1, 0])
            && Replay(l, decided).latched != Replay(l, actual).latched
  {
    var decided, actual, at := [Delivery(loss), Rearm], [Rearm, Delivery(loss)], [1, 0];
    assert Rearms(decided, 0) == 0 && Rearms(decided, 1) == 0 && Rearms(decided, 2) == 1;
    assert Rearms(actual, 0) == 0 && Rearms(actual, 1) == 1 && Rearms(actual, 2) == 1;
    assert IsMoved(actual, decided, at, 0) && ComesFrom(actual, decided, at, 1) by { assert at[0] == 1; }
    assert IsRetiming(actual, decided, at);
    assert OvertakenByRearm(actual, decided, at, 0, loss.handle);
    assert !LostSinceRearm(decided, loss.handle);
    LateDeliveryLatchesSameExactly(l, actual, decided, at);
  }
}

/**
  Behaviour-tree calls against the device-loss latch, over any number of threads:
  the check before the provider's lock, the re-check under it, and the dispatch
  (core/control/call_router.cpp), with reachability edges applied to the latch of
  LossLatch and the latch re-armed at any instant by others
  (core/control/device_loss_latch.cpp).

  Nothing orders an engagement with the provider's lock, so a call past its
  re-check can still reach a device lost the next instant. At most one can.
 */
module LossGate {
  import opened LossLatch
  import opened Options
  import opened Registry
  import CallRouter

  type Tid = nat

  /** `held`: an actuating tree call that is not a safe-state call. */
  datatype Call = Call(handle: string, held: bool)

  /** The provider whose lock a call takes. A handle that does not parse is refused before any lock. */
  function ProviderOf(handle: string): string {
    match CallRouter.ParseHandle(handle)
    case None => ""
    case Some((provider, _)) => provider
  }

  /** Where a thread's call is. It holds its provider's lock from `Locked` on. */
  datatype Pc = NoCall | Checking(c: Call) | Waiting(c: Call) | Locked(c: Call) | Ready(c: Call) | Sending(c: Call)

  datatype Event = Lost(handle: string) | Rearmed | Reached(handle: string)

  /** The latch, who holds each provider's lock, the calls under way, and what happened. */
  datatype State = State(latch: Latch, owner: map<string, Tid>, pcs: map<Tid, Pc>, events: seq<Event>) {
    function At(t: Tid): Pc { if t in pcs then pcs[t] else NoCall }
    function With(t: Tid, pc: Pc): State { this.(pcs := pcs[t := pc]) }
    function Unlock(provider: string): State { this.(owner := owner - {provider}) }
    function Emit(e: Event): State { this.(events := events + [e]) }
  }

  datatype Action = Start(c: Call) | Check | Acquire | Recheck | Dispatch | Finish | Deliver(edge: Edge) | Rearm

  /** The edge latches its device, which was not latched. */
  predicate Engages(l: Latch, e: Edge) { IsTransportLoss(e) && e.handle !in l.latched }

  predicate Holds(s: State, c: Call) { c.held && c.handle in s.latch.latched }

  /** This gate is the router's, on the same latch and call. */
  lemma LossGatesAgree(s: State, c: Call, request: CallRouter.Request, spec: FunctionSpec, world: CallRouter.World)
    requires c.handle == request.handle && world.lost == s.latch.latched
    requires c.held <==> request.isBehaviorTree && !request.safeState && spec.category != ReadCategory
    ensures CallRouter.LossHolds(request, spec, world) <==> Holds(s, c)
  {
  }

  predicate Enabled(s: State, t: Tid, a: Action) {
    var pc := s.At(t);
    match a
    case Start(c) => pc.NoCall? && CallRouter.ParseHandle(c.handle).Some?
    case Check => pc.Checking?
    case Acquire => pc.Waiting? && ProviderOf(pc.c.handle) !in s.owner
    case Recheck => pc.Locked?
    case Dispatch => pc.Ready?
    case Finish => pc.Sending?
    case Deliver(_) => true
    case Rearm => true
  }

  function Fire(s: State, t: Tid, a: Action): State
    requires Enabled(s, t, a)
  {
    var pc := s.At(t);
    match a
    case Start(c) => s.With(t, Checking(c))
    case Check => s.With(t, if Holds(s, pc.c) then NoCall else Waiting(pc.c))
    case Acquire => s.(owner := s.owner[ProviderOf(pc.c.handle) := t]).With(t, Locked(pc.c))
    case Recheck =>
      if Holds(s, pc.c) then s.Unlock(ProviderOf(pc.c.handle)).With(t, NoCall) else s.With(t, Ready(pc.c))
    case Dispatch =>
      (if pc.c.held then s.Emit(Reached(pc.c.handle)) else s).With(t, Sending(pc.c))
    case Finish => s.Unlock(ProviderOf(pc.c.handle)).With(t, NoCall)
    case Deliver(edge) =>
      var applied := s.(latch := Apply(s.latch, edge).0);
      if Engages(s.latch, edge) then applied.Emit(Lost(edge.handle)) else applied
    case Rearm => s.(latch := s.latch.(latched := {})).Emit(Rearmed)
  }

  ghost predicate Next(s: State, s': State) {
    exists t: Tid, a: Action :: Enabled(s, t, a) && s' == Fire(s, t, a)
  }

  const START := State(Latch({}, map[]), map[], map[], [])

  ghost predicate IsRun(run: seq<State>) {
    && run != [] && run[0] == START
    && forall i :: 0 < i < |run| ==> Next(run[i - 1], run[i])
  }

  lemma FiresNext(s: State, t: Tid, a: Action)
    requires Enabled(s, t, a)
    ensures Next(s, Fire(s, t, a))
  {
  }

  lemma RunExtends(run: seq<State>, s: State)
    requires IsRun(run) && Next(run[|run| - 1], s)
    ensures IsRun(run + [s])
  {
    var all := run + [s];
    forall i | 0 < i < |all| ensures Next(all[i - 1], all[i]) {
      assert all[i - 1] == run[i - 1];
      if i < |run| {
        assert Next(run[i - 1], run[i]) && all[i] == run[i];
      }
    }
  }

  // ---- What reached a lost device --------------------------------------------------------------

  /** Lost since the last re-arm. */
  predicate IsLost(events: seq<Event>, d: string) {
    events != [] && !events[|events| - 1].Rearmed?
    && (events[|events| - 1] == Lost(d) || IsLost(events[..|events| - 1], d))
  }

  /** Held calls that reached the device since it was lost. */
  function Slips(events: seq<Event>, d: string): nat {
    if !IsLost(events, d) then 0
    else
      var front, last := events[..|events| - 1], events[|events| - 1];
      Slips(front, d) + if last == Reached(d) then 1 else 0
  }

  lemma EventAdds(events: seq<Event>, e: Event, d: string)
    ensures IsLost(events + [e], d) <==> !e.Rearmed? && (e == Lost(d) || IsLost(events, d))
    ensures Slips(events + [e], d) ==
              if e.Rearmed? || !(e == Lost(d) || IsLost(events, d)) then 0
              else Slips(events, d) + if e == Reached(d) then 1 else 0
  {
    assert (events + [e])[..|events|] == events;
  }

  // ---- Invariants ----------------------------------------------------------------------------------

  predicate HasLock(pc: Pc) { pc.Locked? || pc.Ready? || pc.Sending? }

  /** A call past its re-check that the latch would now hold. */
  predicate IsThrough(pc: Pc, d: string) { pc.Ready? && pc.c.held && pc.c.handle == d }

  ghost predicate LocksInv(s: State) {
    forall t: Tid :: HasLock(s.At(t)) ==>
      ProviderOf(s.At(t).c.handle) in s.owner && s.owner[ProviderOf(s.At(t).c.handle)] == t
  }

  ghost predicate SlipsInv(s: State, d: string) {
    && (d in s.latch.latched <==> IsLost(s.events, d))
    && Slips(s.events, d) <= 1
    && (Slips(s.events, d) == 1 ==> forall t: Tid :: !IsThrough(s.At(t), d))
  }

  lemma StepKeepsLocks(s: State, t: Tid, a: Action)
    requires LocksInv(s) && Enabled(s, t, a)
    ensures LocksInv(Fire(s, t, a))
  {
    var s' := Fire(s, t, a);
    forall u: Tid | HasLock(s'.At(u))
      ensures ProviderOf(s'.At(u).c.handle) in s'.owner && s'.owner[ProviderOf(s'.At(u).c.handle)] == u
    {
      if u != t {
        assert s'.At(u) == s.At(u);
      }
    }
  }

  /** Only one call of a provider can be past its re-check. */
  lemma OnlyOneThrough(s: State, t: Tid, u: Tid, d: string)
    requires LocksInv(s) && IsThrough(s.At(t), d) && IsThrough(s.At(u), d)
    ensures t == u
  {
  }

  /** While the device is latched no call passes its re-check on it. */
  lemma NoneNewlyThrough(s: State, t: Tid, a: Action, u: Tid, d: string)
    requires Enabled(s, t, a) && d in s.latch.latched && IsThrough(Fire(s, t, a).At(u), d)
    ensures IsThrough(s.At(u), d)
  {
    if u != t {
      assert Fire(s, t, a).At(u) == s.At(u);
    }
  }

  /** What the step adds to the history. */
  function Emitted(s: State, t: Tid, a: Action): seq<Event>
    requires Enabled(s, t, a)
  {
    match a
    case Dispatch => if s.At(t).c.held then [Reached(s.At(t).c.handle)] else []
    case Deliver(edge) => if Engages(s.latch, edge) then [Lost(edge.handle)] else []
    case Rearm => [Rearmed]
    case _ => []
  }

  lemma StepEmits(s: State, t: Tid, a: Action)
    requires Enabled(s, t, a)
    ensures Fire(s, t, a).events == s.events + Emitted(s, t, a)
    ensures Fire(s, t, a).latch.latched ==
              if a.Rearm? then {}
              else if a.Deliver? && Engages(s.latch, a.edge) then s.latch.latched + {a.edge.handle}
              else s.latch.latched
  {
  }

  /** The latch and the history of a device, through a step. */
  lemma StepCounts(s: State, t: Tid, a: Action, d: string)
    requires Enabled(s, t, a) && (d in s.latch.latched <==> IsLost(s.events, d))
    ensures var s' := Fire(s, t, a);
            && (d in s'.latch.latched <==> IsLost(s'.events, d))
            && (Slips(s'.events, d) > Slips(s.events, d) ==>
                  a.Dispatch? && IsThrough(s.At(t), d) && Slips(s'.events, d) == Slips(s.events, d) + 1)
            && (d in s'.latch.latched && Slips(s'.events, d) > 0 ==> d in s.latch.latched)
            && (d in s.latch.latched && d in s'.latch.latched ==> Slips(s'.events, d) >= Slips(s.events, d))
            && (d !in s.latch.latched ==> Slips(s'.events, d) == 0)
  {
    StepEmits(s, t, a);
    var more := Emitted(s, t, a);
    if more != [] {
      EventAdds(s.events, more[0], d);
      assert more == [more[0]];
    } else {
      assert s.events + more == s.events;
    }
  }

  lemma StepKeepsSlips(s: State, t: Tid, a: Action, d: string)
    requires LocksInv(s) && SlipsInv(s, d) && Enabled(s, t, a)
    ensures SlipsInv(Fire(s, t, a), d)
  {
    var s' := Fire(s, t, a);
    StepCounts(s, t, a, d);
    if Slips(s'.events, d) >= 1 {
      forall u: Tid ensures !IsThrough(s'.At(u), d) {
        SlipLeavesNoneThrough(s, t, a, u, d);
      }
    }
  }

  lemma SlipLeavesNoneThrough(s: State, t: Tid, a: Action, u: Tid, d: string)
    requires LocksInv(s) && SlipsInv(s, d) && Enabled(s, t, a) && d in s.latch.latched
    requires Slips(s.events, d) == 1 || (a.Dispatch? && IsThrough(s.At(t), d))
    ensures !IsThrough(Fire(s, t, a).At(u), d)
  {
    if IsThrough(Fire(s, t, a).At(u), d) {
      NoneNewlyThrough(s, t, a, u, d);
      if a.Dispatch? && u != t && IsThrough(s.At(t), d) {
        OnlyOneThrough(s, t, u, d);
      }
    }
  }

  lemma {:induction false} RunsKeepInv(run: seq<State>, n: nat, d: string)
    requires IsRun(run) && n < |run|
    ensures LocksInv(run[n]) && SlipsInv(run[n], d)
  {
    if n > 0 {
      RunsKeepInv(run, n - 1, d);
      var t: Tid, a: Action :| Enabled(run[n - 1], t, a) && run[n] == Fire(run[n - 1], t, a);
      StepKeepsLocks(run[n - 1], t, a);
      StepKeepsSlips(run[n - 1], t, a, d);
    }
  }

  // ---- Main results -----------------------------------------------------------------------------------

  /** In every interleaving, at most one held tree call reaches a device between its loss and the re-arm. */
  lemma AtMostOneReachesLostDevice(run: seq<State>, n: nat, d: string)
    requires IsRun(run) && n < |run|
    ensures Slips(run[n].events, d) <= 1
  {
    RunsKeepInv(run, n, d);
  }

  /** The device stays latched from state m to state n. */
  ghost predicate LatchedThroughout(run: seq<State>, m: nat, n: nat, d: string)
    requires n < |run|
  {
    forall k :: m <= k <= n ==> d in run[k].latch.latched
  }

  /** And that one had passed its re-check, under the provider's lock, before the loss. */
  lemma {:induction false} SlipWasThroughBefore(run: seq<State>, m: nat, n: nat, t: Tid, d: string)
    requires IsRun(run) && m <= n < |run| && LatchedThroughout(run, m, n, d) && IsThrough(run[n].At(t), d)
    ensures IsThrough(run[m].At(t), d)
    decreases n - m
  {
    if m < n {
      var u: Tid, a: Action :| Enabled(run[n - 1], u, a) && run[n] == Fire(run[n - 1], u, a);
      NoneNewlyThrough(run[n - 1], u, a, t, d);
      SlipWasThroughBefore(run, m, n - 1, t, d);
    }
  }

  /** Nobody is past the re-check on the device. */
  ghost predicate NoneThrough(s: State, d: string) { forall t: Tid :: !IsThrough(s.At(t), d) }

  lemma StepKeepsNoneThrough(s: State, t: Tid, a: Action, d: string)
    requires LocksInv(s) && SlipsInv(s, d) && Enabled(s, t, a)
    requires d in s.latch.latched && d in Fire(s, t, a).latch.latched && NoneThrough(s, d)
    ensures NoneThrough(Fire(s, t, a), d) && Slips(Fire(s, t, a).events, d) == Slips(s.events, d)
  {
    var s' := Fire(s, t, a);
    forall u: Tid ensures !IsThrough(s'.At(u), d) {
      if IsThrough(s'.At(u), d) {
        NoneNewlyThrough(s, t, a, u, d);
      }
    }
    StepCounts(s, t, a, d);
  }

  lemma NextKeepsNoneThrough(s: State, s': State, d: string)
    requires LocksInv(s) && SlipsInv(s, d) && Next(s, s') && NoneThrough(s, d)
    requires d in s.latch.latched && d in s'.latch.latched
    ensures NoneThrough(s', d) && Slips(s'.events, d) == Slips(s.events, d)
  {
    var t: Tid, a: Action :| Enabled(s, t, a) && s' == Fire(s, t, a);
    StepKeepsNoneThrough(s, t, a, d);
  }

  lemma RunStepKeepsNoneThrough(run: seq<State>, n: nat, d: string)
    requires IsRun(run) && 0 < n < |run| && NoneThrough(run[n - 1], d)
    requires d in run[n - 1].latch.latched && d in run[n].latch.latched
    ensures NoneThrough(run[n], d) && Slips(run[n].events, d) == Slips(run[n - 1].events, d)
  {
    RunsKeepInv(run, n - 1, d);
    NextKeepsNoneThrough(run[n - 1], run[n], d);
  }

  /** With no call past its re-check when the loss engages, none reaches the device until the re-arm. */
  lemma {:induction false} NoneThroughNoneReaches(run: seq<State>, m: nat, n: nat, d: string)
    requires IsRun(run) && m <= n < |run| && LatchedThroughout(run, m, n, d) && NoneThrough(run[m], d)
    ensures NoneThrough(run[n], d) && Slips(run[n].events, d) == Slips(run[m].events, d)
    decreases n - m
  {
    if m < n {
      NoneThroughNoneReaches(run, m, n - 1, d);
      RunStepKeepsNoneThrough(run, n, d);
    }
  }

  /** With one past it, that call can reach the device in the very next step. */
  lemma OneThroughCanReach(s: State, t: Tid, d: string)
    requires d in s.latch.latched && IsLost(s.events, d) && IsThrough(s.At(t), d)
    ensures Enabled(s, t, Dispatch) && Slips(Fire(s, t, Dispatch).events, d) == Slips(s.events, d) + 1
  {
    EventAdds(s.events, Reached(d), d);
  }

  /** The step from state m engages the device's latch. */
  ghost predicate EngagesAt(run: seq<State>, m: nat, d: string) {
    0 < m < |run| && d !in run[m - 1].latch.latched && d in run[m].latch.latched
  }

  /** Everything that can follow an engagement, up to the re-arm, keeps held calls off the device. */
  ghost predicate Sheltered(run: seq<State>, m: nat, d: string)
    requires m < |run|
  {
    forall longer: seq<State> ::
      IsRun(longer) && run[..m + 1] <= longer && LatchedThroughout(longer, m, |longer| - 1, d) ==>
        Slips(longer[|longer| - 1].events, d) == 0
  }

  lemma EngagementStartsClean(run: seq<State>, m: nat, d: string)
    requires IsRun(run) && EngagesAt(run, m, d)
    ensures Slips(run[m].events, d) == 0
  {
    RunsKeepInv(run, m - 1, d);
    var t: Tid, a: Action :| Enabled(run[m - 1], t, a) && run[m] == Fire(run[m - 1], t, a);
    StepCounts(run[m - 1], t, a, d);
  }

  /** An engaged device is out of every held call's reach until the re-arm exactly when none was past its re-check. */
  lemma ShelteredExactlyWhenNoneThrough(run: seq<State>, m: nat, d: string)
    requires IsRun(run) && EngagesAt(run, m, d)
    ensures Sheltered(run, m, d) <==> NoneThrough(run[m], d)
  {
    EngagementStartsClean(run, m, d);
    if NoneThrough(run[m], d) {
      forall longer: seq<State> |
        IsRun(longer) && run[..m + 1] <= longer && LatchedThroughout(longer, m, |longer| - 1, d)
        ensures Slips(longer[|longer| - 1].events, d) == 0
      {
        assert longer[m] == run[..m + 1][m];
        NoneThroughNoneReaches(longer, m, |longer| - 1, d);
      }
    } else {
      var t: Tid :| IsThrough(run[m].At(t), d);
      RunsKeepInv(run, m, d);
      OneThroughCanReach(run[m], t, d);
      Slipped(run, m, t, d);
    }
  }

  lemma Slipped(run: seq<State>, m: nat, t: Tid, d: string)
    requires IsRun(run) && m < |run| && d in run[m].latch.latched && IsThrough(run[m].At(t), d)
    requires Slips(Fire(run[m], t, Dispatch).events, d) > 0
    ensures !Sheltered(run, m, d)
  {
    var s' := Fire(run[m], t, Dispatch);
    var front := run[..m + 1];
    assert IsRun(front) by {
      assert forall i :: 0 <= i <= m ==> front[i] == run[i];
    }
    FiresNext(run[m], t, Dispatch);
    RunExtends(front, s');
    var longer := front + [s'];
    assert IsRun(longer) && longer[m] == run[m] && longer[|longer| - 1] == s';
    assert LatchedThroughout(longer, m, |longer| - 1, d);
  }

  /** Only a delivered transport loss engages a device's latch. */
  lemma EngagedByLoss(run: seq<State>, m: nat, d: string)
    requires IsRun(run) && EngagesAt(run, m, d)
    ensures exists e: Edge :: IsTransportLoss(e) && e.handle == d && run[m].latch == Apply(run[m - 1].latch, e).0
  {
    var t: Tid, a: Action :| Enabled(run[m - 1], t, a) && run[m] == Fire(run[m - 1], t, a);
    StepEmits(run[m - 1], t, a);
    assert a.Deliver? && IsTransportLoss(a.edge) && a.edge.handle == d;
  }

  // ---- The one that slips -------------------------------------------------------------------------------

  /** A call alone, past its re-check under its provider's lock. */
  function Through(handle: string): State {
    State(Latch({}, map[]), map[ProviderOf(handle) := 0], map[0 := Ready(Call(handle, true))], [])
  }

  lemma GetsThrough(handle: string)
    requires CallRouter.ParseHandle(handle).Some?
    ensures exists run: seq<State> :: IsRun(run) && |run| == 5 && run[4] == Through(handle)
  {
    var c, p := Call(handle, true), ProviderOf(handle);
    var a := State(Latch({}, map[]), map[], map[0 := Checking(c)], []);
    var b, locked := a.(pcs := map[0 := Waiting(c)]), a.(owner := map[p := 0], pcs := map[0 := Locked(c)]);
    FiresNext(START, 0, Start(c));
    assert Fire(START, 0, Start(c)) == a;
    FiresNext(a, 0, Check);
    assert Fire(a, 0, Check) == b;
    FiresNext(b, 0, Acquire);
    assert Fire(b, 0, Acquire) == locked;
    FiresNext(locked, 0, Recheck);
    assert Fire(locked, 0, Recheck) == Through(handle);
    assert IsRun([START, a, b, locked, Through(handle)]);
  }

  lemma LossSlips(handle: string, e: Edge)
    requires IsTransportLoss(e) && e.handle == handle
    ensures var lost := Fire(Through(handle), 1, Deliver(e));
            && handle in lost.latch.latched && IsThrough(lost.At(0), handle)
            && Next(Through(handle), lost) && Next(lost, Fire(lost, 0, Dispatch))
            && Slips(Fire(lost, 0, Dispatch).events, handle) == 1
  {
    var lost := Fire(Through(handle), 1, Deliver(e));
    FiresNext(Through(handle), 1, Deliver(e));
    FiresNext(lost, 0, Dispatch);
    EventAdds([], Lost(handle), handle);
    assert lost.events == [] + [Lost(handle)];
    EventAdds(lost.events, Reached(handle), handle);
  }

  /** For any handle and any transport loss of it: past the re-check, the loss delivered, and the call reaches it. */
  lemma LossAfterRecheckSlips(handle: string, e: Edge)
    requires CallRouter.ParseHandle(handle).Some? && IsTransportLoss(e) && e.handle == handle
    ensures exists run: seq<State> ::
              IsRun(run) && |run| == 7 && EngagesAt(run, 5, handle) && Slips(run[6].events, handle) == 1
  {
    GetsThrough(handle);
    var front: seq<State> :| IsRun(front) && |front| == 5 && front[4] == Through(handle);
    var lost := Fire(Through(handle), 1, Deliver(e));
    LossSlips(handle, e);
    RunExtends(front, lost);
    var reached := Fire(lost, 0, Dispatch);
    RunExtends(front + [lost], reached);
    var run := front + [lost] + [reached];
    assert IsRun(run) && run[4] == Through(handle) && run[5] == lost && run[6] == reached;
    assert EngagesAt(run, 5, handle);
  }
}

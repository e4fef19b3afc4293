/**
  What subscribers of core/state/state_cache.cpp are told of a device's
  availability, over every run of StateCache: after a good read nobody is left
  believing the device unavailable, and after a failed one nobody available.
 */
module Availability {
  import opened Options
  import opened StateCache

  /** The availability events of a device since it was last reported removed. */
  function Since(log: seq<Event>, h: Handle): seq<bool> {
    if log == [] then []
    else
      var front, e := log[..|log| - 1], log[|log| - 1];
      if e == Removed(h) then []
      else Since(front, h) + (if e.Availability? && e.h == h then [e.available] else [])
  }

  lemma SinceNext(log: seq<Event>, e: Event, h: Handle)
    ensures Since(log + [e], h) ==
              if e == Removed(h) then []
              else Since(log, h) + (if e.Availability? && e.h == h then [e.available] else [])
  {
    assert (log + [e])[..|log|] == log;
  }

  lemma SinceTold(log: seq<Event>, h0: Handle, available: bool)
    ensures forall h: Handle ::
              Since(log + [Availability(h0, available)], h) ==
              if h == h0 then Since(log, h) + [available] else Since(log, h)
  {
    forall h: Handle
      ensures Since(log + [Availability(h0, available)], h) ==
                if h == h0 then Since(log, h) + [available] else Since(log, h)
    {
      SinceNext(log, Availability(h0, available), h);
    }
  }

  lemma SinceEdge(log: seq<Event>, e: Event)
    requires e.Loss? || e.Return?
    ensures forall h: Handle :: Since(log + [e], h) == Since(log, h)
  {
    forall h: Handle ensures Since(log + [e], h) == Since(log, h) {
      SinceNext(log, e, h);
    }
  }

  predicate ToldUnavailable(log: seq<Event>, h: Handle) {
    var events := Since(log, h); events != [] && !events[|events| - 1]
  }

  /** A loss of the device that no return has answered. */
  predicate LossOutstanding(log: seq<Event>, h: Handle) { |EdgesOf(log, h)| % 2 == 1 }

  /**
    The record against what subscribers were told. Only a device that was removed
    with its loss outstanding, and restored, is on record as unavailable with
    nothing said since.
   */
  predicate AvailOk(log: seq<Event>, h: Handle, r: Reach) {
    && (r.lossReported ==> r.unavailableEmitted)
    && (r.unavailableEmitted <==> ToldUnavailable(log, h) || (Since(log, h) == [] && r.lossReported))
  }

  ghost predicate AvailInv(s: State) { forall h: Handle :: AvailOk(s.c.log, h, Record(s, h)) }

  // ---- Reads ------------------------------------------------------------------------------

  /** The log gained `events`, all of them about the live device h0. */
  ghost predicate Tells(c: Cache, c': Cache, h0: Handle) {
    && h0 in c.live && h0 in c'.live && AvailOk(c'.log, h0, c'.live[h0])
    && (forall h: Handle :: h != h0 ==> Since(c'.log, h) == Since(c.log, h))
  }

  lemma MarkDownTells(c: Cache, h0: Handle)
    requires h0 in c.live && AvailOk(c.log, h0, c.live[h0])
    ensures var c' := MarkDown(c, h0, false);
            && Tells(c, c', h0) && c'.live[h0].unavailableEmitted && !c'.live[h0].providerAvailable
            && c'.live[h0].lossReported == c.live[h0].lossReported
    ensures ToldUnavailable(MarkDown(c, h0, false).log, h0) <==> !(Since(c.log, h0) == [] && c.live[h0].lossReported)
  {
    SinceTold(c.log, h0, false);
  }

  lemma ReadFailedTells(c: Cache, h0: Handle, providerLost: bool)
    requires h0 in c.live && AvailOk(c.log, h0, c.live[h0])
    ensures var c' := ReadFailed(c, h0, false, providerLost);
            && Tells(c, c', h0) && c'.live[h0].unavailableEmitted && !c'.live[h0].providerAvailable
            && c'.live[h0].lossReported == (c.live[h0].lossReported || !providerLost)
            && (ToldUnavailable(c'.log, h0) <==> !(Since(c.log, h0) == [] && c.live[h0].lossReported))
  {
    MarkDownTells(c, h0);
    var told := MarkDown(c, h0, false);
    SinceEdge(told.log, Loss(h0, told.counter + 1));
  }

  /** The events of a good read, and the record it leaves. */
  lemma ReadOkIs(c: Cache, h0: Handle)
    requires h0 in c.live
    ensures var c', r := ReadOk(c, h0), c.live[h0];
            && c'.live == c.live[h0 := FRESH] && c'.departed == c.departed
            && c'.log == ReadOkLog(c.log, h0, r, c.counter + 1)
  {
  }

  function ReadOkLog(log: seq<Event>, h0: Handle, r: Reach, number: nat): seq<Event> {
    var told := if r.unavailableEmitted then log + [Availability(h0, true)] else log;
    if r.lossReported then told + [Return(h0, number)] else told
  }

  lemma ReadOkSince(log: seq<Event>, h0: Handle, r: Reach, number: nat)
    requires AvailOk(log, h0, r)
    ensures !ToldUnavailable(ReadOkLog(log, h0, r, number), h0)
    ensures forall h: Handle :: h != h0 ==> Since(ReadOkLog(log, h0, r, number), h) == Since(log, h)
  {
    var told := if r.unavailableEmitted then log + [Availability(h0, true)] else log;
    SinceTold(log, h0, true);
    SinceEdge(told, Return(h0, number));
  }

  lemma ReadOkTells(c: Cache, h0: Handle)
    requires h0 in c.live && AvailOk(c.log, h0, c.live[h0])
    ensures var c' := ReadOk(c, h0);
            Tells(c, c', h0) && !ToldUnavailable(c'.log, h0) && c'.live[h0] == FRESH
  {
    ReadOkIs(c, h0);
    ReadOkSince(c.log, h0, c.live[h0], c.counter + 1);
  }

  /** During a shutdown nothing is said and only the present reading is lost. */
  lemma ShutdownIsSilent(c: Cache, h0: Handle, providerLost: bool)
    requires h0 in c.live
    ensures var c' := ReadFailed(c, h0, true, providerLost);
            && c' == MarkDown(c, h0, true) && c'.log == c.log && c'.counter == c.counter
            && c'.live == c.live[h0 := c.live[h0].(providerAvailable := false)] && c'.departed == c.departed
  {
  }

  // ---- Every step ------------------------------------------------------------------------------

  lemma TellingKeepsAvail(s: State, s': State, h0: Handle)
    requires AvailInv(s) && Tells(s.c, s'.c, h0) && s'.rebuild == s.rebuild && s'.c.departed == s.c.departed
    requires s'.c.live.Keys == s.c.live.Keys && forall h :: h in s.c.live && h != h0 ==> s'.c.live[h] == s.c.live[h]
    ensures AvailInv(s')
  {
    forall h: Handle ensures AvailOk(s'.c.log, h, Record(s', h)) {
      assert AvailOk(s.c.log, h, Record(s, h));
    }
  }

  lemma SameRecordsKeepAvail(s: State, s': State)
    requires AvailInv(s) && s'.c.log == s.c.log
    requires forall h: Handle ::
               && Record(s', h).lossReported == Record(s, h).lossReported
               && Record(s', h).unavailableEmitted == Record(s, h).unavailableEmitted
    ensures AvailInv(s')
  {
    forall h: Handle ensures AvailOk(s'.c.log, h, Record(s', h)) {
      assert AvailOk(s.c.log, h, Record(s, h));
    }
  }

  /** A dropped device is forgotten unless its loss is outstanding. */
  lemma DropsRecord(s: State, h0: Handle, h: Handle)
    requires Inv(s) && Enabled(s, DropOne(h0))
    ensures Record(Fire(s, DropOne(h0)), h) ==
              if h == h0 && !Record(s, h).lossReported then FRESH else Record(s, h)
  {
  }

  lemma RemovalIsOk(log: seq<Event>, h0: Handle, h: Handle, r: Reach, r': Reach)
    requires AvailOk(log, h, r) && r' == if h == h0 && !r.lossReported then FRESH else r
    ensures AvailOk(log + [Removed(h0)], h, r')
  {
    SinceNext(log, Removed(h0), h);
  }

  lemma DropKeepsAvail(s: State, h0: Handle)
    requires Inv(s) && AvailInv(s) && Enabled(s, DropOne(h0))
    ensures AvailInv(Fire(s, DropOne(h0)))
  {
    var s' := Fire(s, DropOne(h0));
    forall h: Handle ensures AvailOk(s'.c.log, h, Record(s', h)) {
      DropsRecord(s, h0, h);
      RemovalIsOk(s.c.log, h0, h, Record(s, h), Record(s', h));
    }
  }

  lemma GoodReadKeepsAvail(s: State, h: Handle)
    requires AvailInv(s) && h in s.c.live
    ensures AvailInv(Fire(s, GoodReadOf(h)))
  {
    assert AvailOk(s.c.log, h, Record(s, h));
    ReadOkTells(s.c, h);
    TellingKeepsAvail(s, Fire(s, GoodReadOf(h)), h);
  }

  lemma FailedReadKeepsAvail(s: State, h: Handle, shuttingDown: bool, providerLost: bool)
    requires AvailInv(s) && h in s.c.live
    ensures AvailInv(Fire(s, FailRead(h, shuttingDown, providerLost)))
  {
    var s' := Fire(s, FailRead(h, shuttingDown, providerLost));
    assert AvailOk(s.c.log, h, Record(s, h));
    if shuttingDown {
      ShutdownIsSilent(s.c, h, providerLost);
      SameRecordsKeepAvail(s, s');
    } else {
      ReadFailedTells(s.c, h, providerLost);
      TellingKeepsAvail(s, s', h);
    }
  }

  lemma ProviderLossKeepsAvail(s: State, h: Handle, shuttingDown: bool)
    requires AvailInv(s) && h in s.c.live
    ensures AvailInv(Fire(s, LoseProvider(h, shuttingDown)))
  {
    var s' := Fire(s, LoseProvider(h, shuttingDown));
    assert AvailOk(s.c.log, h, Record(s, h));
    if shuttingDown {
      ShutdownIsSilent(s.c, h, true);
      SameRecordsKeepAvail(s, s');
    } else {
      MarkDownTells(s.c, h);
      TellingKeepsAvail(s, s', h);
    }
  }

  lemma StepKeepsAvail(s: State, a: Action)
    requires Inv(s) && AvailInv(s) && Enabled(s, a) && !Fire(s, a).duplicated
    ensures AvailInv(Fire(s, a))
  {
    var s' := Fire(s, a);
    match a
    case FailRead(h, shuttingDown, providerLost) =>
      if h in s.c.live { FailedReadKeepsAvail(s, h, shuttingDown, providerLost); }
    case GoodReadOf(h) => if h in s.c.live { GoodReadKeepsAvail(s, h); }
    case LoseProvider(h, shuttingDown) => if h in s.c.live { ProviderLossKeepsAvail(s, h, shuttingDown); }
    case Begin(provider, inventory) => SameRecordsKeepAvail(s, s');
    case InsertNext => SameRecordsKeepAvail(s, s');
    case StartDropping => SameRecords(s, s'); SameRecordsKeepAvail(s, s');
    case DropOne(h) => DropKeepsAvail(s, h);
    case End => SameRecords(s, s'); SameRecordsKeepAvail(s, s');
  }

  lemma InitHasAvail(s: State)
    requires Init(s)
    ensures AvailInv(s)
  {
    forall h: Handle ensures AvailOk(s.c.log, h, Record(s, h)) {
    }
  }

  lemma {:induction false} RunsKeepAvail(run: seq<State>, n: nat)
    requires IsRun(run) && n < |run| && !run[n].duplicated
    ensures AvailInv(run[n])
  {
    if n == 0 {
      InitHasAvail(run[0]);
    } else {
      assert StepsTo(run, n);
      var a: Action :| Enabled(run[n - 1], a) && run[n] == Fire(run[n - 1], a);
      RunsKeepAvail(run, n - 1);
      RunsKeepInv(run, n - 1);
      StepKeepsAvail(run[n - 1], a);
    }
  }

  // ---- Main results -------------------------------------------------------------------------------

  /** The record of a live device, against its edges and what was said of it. */
  lemma DeviceOnRecord(run: seq<State>, n: nat, h: Handle)
    requires IsRun(run) && n < |run| && !run[n].duplicated
    ensures h in run[n].c.live ==>
              && AvailOk(run[n].c.log, h, run[n].c.live[h])
              && (run[n].c.live[h].lossReported <==> LossOutstanding(run[n].c.log, h))
  {
    RunsKeepAvail(run, n);
    RunsKeepInv(run, n);
    assert AvailOk(run[n].c.log, h, Record(run[n], h));
    assert DeviceOk(run[n].c.log, h, Record(run[n], h));
  }

  lemma NeverUnrepeats(run: seq<State>, n: nat)
    requires IsRun(run) && 0 < n < |run| && !run[n].duplicated
    ensures !run[n - 1].duplicated
  {
    assert StepsTo(run, n);
  }

  /**
    After a good read of a live device, in every run whose inventories list no
    device twice, nobody is left told it is unavailable, and no loss is left
    unanswered.
   */
  lemma GoodReadIsAnnounced(run: seq<State>, n: nat, h: Handle)
    requires IsRun(run) && 0 < n < |run| && !run[n].duplicated
    requires run[n] == Fire(run[n - 1], GoodReadOf(h)) && h in run[n - 1].c.live
    ensures !ToldUnavailable(run[n].c.log, h) && !LossOutstanding(run[n].c.log, h)
    ensures h in run[n].c.live && run[n].c.live[h].providerAvailable
  {
    NeverUnrepeats(run, n);
    DeviceOnRecord(run, n - 1, h);
    DeviceOnRecord(run, n, h);
    ReadOkTells(run[n - 1].c, h);
  }

  /** What a failed read leaves: subscribers told, but for a device restored with its loss still outstanding. */
  ghost predicate FailureAnnounced(before: State, after: State, h: Handle) {
    && (ToldUnavailable(after.c.log, h) <==> !(Since(before.c.log, h) == [] && LossOutstanding(before.c.log, h)))
    && h in after.c.live && !after.c.live[h].providerAvailable
  }

  /**
    After a failed read outside a shutdown, subscribers have been told the device
    is unavailable since it was last removed, exactly unless it came back from that
    removal with its loss outstanding and nothing has been said of it since. A
    failure the provider itself reported, and no other, leaves a new loss outstanding.
   */
  lemma FailedReadIsAnnounced(run: seq<State>, n: nat, h: Handle, providerLost: bool)
    requires IsRun(run) && 0 < n < |run| && !run[n].duplicated
    requires run[n] == Fire(run[n - 1], FailRead(h, false, providerLost)) && h in run[n - 1].c.live
    ensures FailureAnnounced(run[n - 1], run[n], h)
    ensures LossOutstanding(run[n].c.log, h) <==> !providerLost || LossOutstanding(run[n - 1].c.log, h)
  {
    NeverUnrepeats(run, n);
    DeviceOnRecord(run, n - 1, h);
    DeviceOnRecord(run, n, h);
    ReadFailedTells(run[n - 1].c, h, providerLost);
  }

  /** Likewise when its provider is found lost, which is no loss of the device. */
  lemma ProviderLossIsAnnounced(run: seq<State>, n: nat, h: Handle)
    requires IsRun(run) && 0 < n < |run| && !run[n].duplicated
    requires run[n] == Fire(run[n - 1], LoseProvider(h, false)) && h in run[n - 1].c.live
    ensures FailureAnnounced(run[n - 1], run[n], h)
    ensures LossOutstanding(run[n].c.log, h) <==> LossOutstanding(run[n - 1].c.log, h)
  {
    NeverUnrepeats(run, n);
    DeviceOnRecord(run, n - 1, h);
    DeviceOnRecord(run, n, h);
    MarkDownTells(run[n - 1].c, h);
  }

  // ---- A device restored with its loss outstanding ------------------------------------------------------

  const LOST := Reach(false, true, true)

  function LostLog(h: Handle): seq<Event> { [Availability(h, false), Loss(h, 1)] }

  function LostState(h: Handle): State { State(Cache(map[h := LOST], map[], 1, LostLog(h)), None, false) }

  function RestoredState(h: Handle): State {
    State(Cache(map[h := LOST], map[], 1, LostLog(h) + [Removed(h)]), None, false)
  }

  lemma RunExtends(run: seq<State>, a: Action, s: State)
    requires IsRun(run) && Enabled(run[|run| - 1], a) && s == Fire(run[|run| - 1], a)
    ensures IsRun(run + [s])
  {
    var all := run + [s];
    forall i | 0 < i < |all| ensures StepsTo(all, i) {
      assert all[i - 1] == run[i - 1];
      if i < |run| {
        assert StepsTo(run, i) && all[i] == run[i];
      }
    }
  }

  lemma LosesDevice(h: Handle) returns (run: seq<State>)
    ensures IsRun(run) && run[|run| - 1] == LostState(h)
  {
    var s := State(Cache(map[h := FRESH], map[], 0, []), None, false);
    run := [s];
    assert ReadFailed(s.c, h, false, false).live == map[h := LOST];
    RunExtends(run, FailRead(h, false, false), LostState(h));
    run := run + [LostState(h)];
  }

  lemma DropsLost(run: seq<State>, h: Handle) returns (more: seq<State>)
    requires IsRun(run) && run[|run| - 1] == LostState(h)
    ensures IsRun(more)
    ensures more[|more| - 1] == State(Cache(map[], map[h := LOST], 1, LostLog(h) + [Removed(h)]), None, false)
  {
    var begun := State(Cache(map[], map[], 1, LostLog(h)),
                       Some(Rebuild(h.provider, map[h := LOST], [], {}, false)), false);
    assert CarryOut(LostState(h).c, h.provider).live == map[] && Carried(LostState(h).c, h.provider) == map[h := LOST];
    RunExtends(run, Begin(h.provider, []), begun);
    var dropping := begun.(rebuild := Some(begun.rebuild.value.(dropping := true)));
    RunExtends(run + [begun], StartDropping, dropping);
    var gone := State(Cache(map[], map[h := LOST], 1, LostLog(h) + [Removed(h)]),
                      Some(Rebuild(h.provider, map[], [], {}, true)), false);
    assert dropping.rebuild.value.carried - {h} == map[];
    RunExtends(run + [begun] + [dropping], DropOne(h), gone);
    RunExtends(run + [begun] + [dropping] + [gone], End, gone.(rebuild := None));
    more := run + [begun] + [dropping] + [gone] + [gone.(rebuild := None)];
  }

  lemma RestoresLost(run: seq<State>, h: Handle) returns (more: seq<State>)
    requires IsRun(run)
    requires run[|run| - 1] == State(Cache(map[], map[h := LOST], 1, LostLog(h) + [Removed(h)]), None, false)
    ensures IsRun(more) && more[|more| - 1] == RestoredState(h)
  {
    var s := run[|run| - 1];
    var begun := s.(rebuild := Some(Rebuild(h.provider, map[], [h], {}, false)));
    assert CarryOut(s.c, h.provider) == s.c && Carried(s.c, h.provider) == map[];
    RunExtends(run, Begin(h.provider, [h]), begun);
    var inserted := RestoredState(h).(rebuild := Some(Rebuild(h.provider, map[], [], {h}, false)));
    assert s.c.departed - {h} == map[] && s.c.live[h := LOST] == map[h := LOST] && [h][1..] == [] && {} + {h} == {h};
    RunExtends(run + [begun], InsertNext, inserted);
    var dropping := inserted.(rebuild := Some(inserted.rebuild.value.(dropping := true)));
    RunExtends(run + [begun] + [inserted], StartDropping, dropping);
    RunExtends(run + [begun] + [inserted] + [dropping], End, RestoredState(h));
    more := run + [begun] + [inserted] + [dropping] + [RestoredState(h)];
  }

  /**
    The exception is reached: a device lost, removed and restored fails its next
    read, and subscribers, told it was removed, are not told it is unavailable.
   */
  lemma RestoredLossIsSilent(h: Handle) returns (run: seq<State>)
    ensures IsRun(run) && |run| > 1 && !run[|run| - 1].duplicated
    ensures run[|run| - 1] == Fire(run[|run| - 2], FailRead(h, false, false)) && h in run[|run| - 2].c.live
    ensures !ToldUnavailable(run[|run| - 1].c.log, h)
  {
    var lost := LosesDevice(h);
    var dropped := DropsLost(lost, h);
    var restored := RestoresLost(dropped, h);
    var s := Fire(RestoredState(h), FailRead(h, false, false));
    RunExtends(restored, FailRead(h, false, false), s);
    run := restored + [s];
    SinceNext(LostLog(h), Removed(h), h);
  }
}

/**
  The sequence numbers of the run journal's event streams
  (core/runs/run_journal.cpp, `append_event_locked`), over every run of RunJournal.
 */
module RunNumbering {
  import opened DurableLists
  import opened Options
  import opened RunJournal

  /** 1, 2, 3 and on. */
  predicate Numbered(events: seq<Event>) { forall i :: 0 <= i < |events| ==> events[i].number == i + 1 }

  /** The first is 1, and each other repeats the one before it or follows it. */
  predicate Follows(events: seq<Event>, i: nat)
    requires i < |events|
  {
    if i == 0 then events[i].number == 1
    else events[i].number > 0 && events[i - 1].number <= events[i].number <= events[i - 1].number + 1
  }

  predicate Steady(events: seq<Event>) { forall i :: 0 <= i < |events| ==> Follows(events, i) }

  /** The last number, 0 before the first. */
  function LastOf(events: seq<Event>): nat { if events == [] then 0 else events[|events| - 1].number }

  lemma SteadyGrows(events: seq<Event>, e: Event)
    requires Steady(events) && LastOf(events) <= e.number <= LastOf(events) + 1 && e.number > 0
    ensures Steady(events + [e]) && LastOf(events + [e]) == e.number
  {
    var all := events + [e];
    forall i | 0 <= i < |all| ensures Follows(all, i) {
      if i < |events| {
        assert Follows(events, i);
      }
    }
  }

  lemma CutKeepsSteady(events: seq<Event>, n: nat)
    requires Steady(events) && n <= |events|
    ensures Steady(events[..n])
  {
    forall i | 0 <= i < n ensures Follows(events[..n], i) {
      assert Follows(events, i);
    }
  }

  lemma {:induction false} MaxSeqIsLast(events: seq<Event>)
    requires Steady(events)
    ensures MaxSeq(events) == LastOf(events)
  {
    if events != [] {
      var front := events[..|events| - 1];
      CutKeepsSteady(events, |events| - 1);
      MaxSeqIsLast(front);
      assert Follows(events, |events| - 1);
    }
  }

  // ---- In every run --------------------------------------------------------------------------

  /** A number in memory is the one after the last, or after a stray event the last itself. */
  predicate NumberInv(j: Journal, id: Id) {
    var events := StreamOf(j.disk, id).items;
    && Steady(events)
    && (id in j.mem.next ==> events != [] && j.mem.next[id] == LastOf(events) + if id in j.strays then 0 else 1)
    && (id in j.strays ==> id in j.mem.next)
  }

  ghost predicate NumbersInv(j: Journal) { forall id: Id :: NumberInv(j, id) }

  lemma NextSeqIs(j: Journal, id: Id)
    requires NumberInv(j, id)
    ensures NextSeq(j, id) == LastOf(StreamOf(j.disk, id).items) + (if id in j.strays then 0 else 1)
    ensures NextSeq(j, id) > 0
  {
    var events := StreamOf(j.disk, id).items;
    MaxSeqIsLast(events);
    if events != [] {
      assert Follows(events, |events| - 1);
    }
  }

  lemma AppendKeepsNumbers(j: Journal, id: Id, closing: bool, ticket: Option<nat>, fate: EventFate)
    requires NumbersInv(j)
    ensures NumbersInv(AppendLocked(j, id, closing, ticket, fate))
  {
    var k := AppendLocked(j, id, closing, ticket, fate);
    assert NumberInv(j, id);
    NextSeqIs(j, id);
    SteadyGrows(StreamOf(j.disk, id).items, Event(NextSeq(j, id), closing, ticket));
    forall other: Id ensures NumberInv(k, other) {
      assert NumberInv(j, other);
    }
  }

  /** The index, the runs and the queue have no part in it. */
  lemma OthersKeepNumbers(j: Journal, k: Journal)
    requires NumbersInv(j) && k.disk.streams == j.disk.streams && k.mem.next == j.mem.next && k.strays == j.strays
    ensures NumbersInv(k)
  {
    forall id: Id ensures NumberInv(k, id) {
      assert NumberInv(j, id);
    }
  }

  lemma ErasedKeepsNumbers(j: Journal, id: Id)
    requires NumbersInv(j)
    ensures NumbersInv(Erased(j, id))
  {
    forall other: Id ensures NumberInv(Erased(j, id), other) {
      assert NumberInv(j, other);
    }
  }

  lemma SealingKeepsNumbers(j: Journal, id: Id, mem: Memory, event: EventFate)
    requires NumbersInv(j) && mem.next == j.mem.next
    ensures NumbersInv(Sealing(j, id, mem, event))
  {
    var written := j.(disk := Recorded(j.disk, Record(id, false), Stored), mem := mem.(runs := mem.runs[id := false]));
    OthersKeepNumbers(j, written);
    AppendKeepsNumbers(written, id, true, None, event);
    ErasedKeepsNumbers(AppendLocked(written, id, true, None, event), id);
  }

  /** With nothing in memory, streams cut anywhere. */
  lemma ForgettingKeepsNumbers(j: Journal, k: Journal)
    requires NumbersInv(j) && k.mem.next == map[] && k.strays == {}
    requires forall id: Id :: StreamOf(k.disk, id).items <= StreamOf(j.disk, id).items
    ensures NumbersInv(k)
  {
    forall id: Id ensures NumberInv(k, id) {
      assert NumberInv(j, id);
      var before, after := StreamOf(j.disk, id).items, StreamOf(k.disk, id).items;
      CutKeepsSteady(before, |after|);
      assert after == before[..|after|];
    }
  }

  lemma OpenKeepsNumbers(j: Journal, id: Id, fate: Fate, event: EventFate)
    requires NumbersInv(j)
    ensures NumbersInv(OpenRun(j, id, fate, event))
  {
    var d, ids := Recorded(j.disk, Record(id, true), fate), j.ids.(minted := j.ids.minted + {id});
    var written := j.(disk := d, ids := ids);
    var opened' := written.(mem := j.mem.(runs := j.mem.runs[id := true], openId := Some(id)));
    OthersKeepNumbers(j, written);
    OthersKeepNumbers(j, opened');
    AppendKeepsNumbers(opened', id, false, None, event);
  }

  lemma CloseKeepsNumbers(j: Journal, id: Id, fate: Fate, event: EventFate)
    requires NumbersInv(j)
    ensures NumbersInv(CloseRun(j, id, fate, event))
  {
    OthersKeepNumbers(j, j.(disk := Recorded(j.disk, Record(id, false), fate)));
    SealingKeepsNumbers(j, id, if j.mem.openId == Some(id) then j.mem.(openId := None) else j.mem, event);
  }

  lemma RecoverKeepsNumbers(j: Journal, fate: Fate, event: EventFate)
    requires NumbersInv(j) && j.mem.phase.Recovering? && j.mem.phase.todo != []
    ensures NumbersInv(RecoverNext(j, fate, event))
  {
    var id := j.mem.phase.todo[0];
    var mem := j.mem.(phase := Recovering(j.mem.phase.todo[1..]));
    OthersKeepNumbers(j, j.(mem := mem));
    ForgettingKeepsNumbers(j, Killed(j.(disk := Recorded(j.disk, Record(id, false), fate))));
    SealingKeepsNumbers(j, id, mem, event);
  }

  lemma CrashKeepsNumbers(j: Journal, index: Loss, streams: Id -> Loss)
    requires NumbersInv(j)
    ensures NumbersInv(CrashTo(j, index, streams))
  {
    ForgettingKeepsNumbers(j, CrashTo(j, index, streams));
  }

  lemma WriteKeepsNumbers(j: Journal, event: EventFate)
    requires NumbersInv(j)
    ensures NumbersInv(WriteItem(j, event))
  {
    if j.queue.writing.Some? {
      var taken := j.(queue := j.queue.(writing := None));
      OthersKeepNumbers(j, taken);
      if j.mem.openId.Some? {
        AppendKeepsNumbers(taken, j.mem.openId.value, false, j.queue.writing, event);
      }
    }
  }

  lemma StepKeepsNumbers(j: Journal, a: Action)
    requires NumbersInv(j) && Enabled(j, a)
    ensures NumbersInv(Fire(j, a))
  {
    match a
    case DoOpen(id, record, event) => OpenKeepsNumbers(j, id, record, event);
    case DoClose(id, record, event) => CloseKeepsNumbers(j, id, record, event);
    case DoAppend(id, event) => AppendKeepsNumbers(j, id, false, None, event);
    case DoWrite(event) => WriteKeepsNumbers(j, event);
    case DoKill => ForgettingKeepsNumbers(j, Fire(j, a));
    case DoCrash(index, streams) => CrashKeepsNumbers(j, index, streams);
    case DoRestart => ForgettingKeepsNumbers(j, Fire(j, a));
    case DoRecover(record, event) => RecoverKeepsNumbers(j, record, event);
    case _ => OthersKeepNumbers(j, Fire(j, a));
  }

  lemma {:induction false} RunsKeepNumbers(run: seq<Journal>, n: nat)
    requires IsRun(run) && n < |run|
    ensures NumbersInv(run[n])
  {
    if n == 0 {
      forall id: Id ensures NumberInv(run[0], id) {
      }
    } else {
      RunsKeepNumbers(run, n - 1);
      assert StepsTo(run, n);
      var a: Action :| Enabled(run[n - 1], a) && run[n] == Fire(run[n - 1], a);
      StepKeepsNumbers(run[n - 1], a);
    }
  }

  /** In every run each stream's numbers start at 1 and never skip or go back, whatever fails. */
  lemma NumbersAreSteady(run: seq<Journal>, n: nat, id: Id, i: nat)
    requires IsRun(run) && n < |run| && i < |StreamOf(run[n].disk, id).items|
    ensures Follows(StreamOf(run[n].disk, id).items, i)
  {
    RunsKeepNumbers(run, n);
    assert NumberInv(run[n], id);
  }

  // ---- When they are 1, 2, 3 and on -------------------------------------------------------------

  ghost predicate AllNumbered(j: Journal) { forall id: Id :: Numbered(StreamOf(j.disk, id).items) }

  /** The step adds an event to a stream whose last one is a stray, its number still in memory. */
  predicate LandsOnStray(j: Journal, k: Journal) {
    exists id <- j.strays :: |StreamOf(k.disk, id).items| > |StreamOf(j.disk, id).items|
  }

  lemma NumberedLast(events: seq<Event>)
    requires Numbered(events)
    ensures LastOf(events) == |events|
  {
  }

  lemma NumberedGrows(events: seq<Event>, e: Event)
    requires Numbered(events)
    ensures Numbered(events + [e]) <==> e.number == |events| + 1
  {
    var all := events + [e];
    assert all[|events|] == e;
    assert forall i :: 0 <= i < |events| ==> all[i] == events[i];
  }

  lemma LandingNumbers(j: Journal, d: Disk, id: Id, e: Event, fate: EventFate)
    requires NumbersInv(j) && AllNumbered(j) && d.streams == j.disk.streams && e.number == NextSeq(j, id)
    ensures var k := j.(disk := Landed(d, id, e, fate)); AllNumbered(k) <==> !LandsOnStray(j, k)
  {
    var k, before := j.(disk := Landed(d, id, e, fate)), StreamOf(j.disk, id).items;
    assert NumberInv(j, id) && Numbered(before);
    NextSeqIs(j, id);
    NumberedLast(before);
    NumberedGrows(before, e);
    assert forall other: Id :: other != id ==> StreamOf(k.disk, other) == StreamOf(j.disk, other);
    if !fate.EventMissed? {
      assert StreamOf(k.disk, id).items == before + [e];
      if id in j.strays {
        assert !Numbered(StreamOf(k.disk, id).items);
        assert LandsOnStray(j, k);
      } else {
        forall other: Id ensures Numbered(StreamOf(k.disk, other).items) {
          assert Numbered(StreamOf(j.disk, other).items);
        }
      }
    } else {
      assert forall other: Id :: StreamOf(k.disk, other) == StreamOf(j.disk, other);
      forall other: Id ensures Numbered(StreamOf(k.disk, other).items) {
        assert Numbered(StreamOf(j.disk, other).items);
      }
    }
  }

  /** What a step that appends leaves, whatever else it changes. */
  lemma AppendNumbers(j: Journal, w: Journal, id: Id, closing: bool, ticket: Option<nat>, event: EventFate)
    requires NumbersInv(j) && AllNumbered(j)
    requires w.disk.streams == j.disk.streams && w.mem.next == j.mem.next
    ensures var k := AppendLocked(w, id, closing, ticket, event); AllNumbered(k) <==> !LandsOnStray(j, k)
  {
    var k, e := AppendLocked(w, id, closing, ticket, event), Event(NextSeq(w, id), closing, ticket);
    assert NextSeq(w, id) == NextSeq(j, id);
    LandingNumbers(j, w.disk, id, e, event);
    SameStreams(j, j.(disk := Landed(w.disk, id, e, event)), k);
  }

  lemma SameStreams(j: Journal, k: Journal, l: Journal)
    requires l.disk.streams == k.disk.streams
    ensures (AllNumbered(k) <==> AllNumbered(l)) && (LandsOnStray(j, k) <==> LandsOnStray(j, l))
  {
    assert forall id: Id :: StreamOf(k.disk, id) == StreamOf(l.disk, id);
    if AllNumbered(k) {
      forall id: Id ensures Numbered(StreamOf(l.disk, id).items) {
        assert Numbered(StreamOf(k.disk, id).items);
      }
    }
    if AllNumbered(l) {
      forall id: Id ensures Numbered(StreamOf(k.disk, id).items) {
        assert Numbered(StreamOf(l.disk, id).items);
      }
    }
  }

  /** A step that lands nothing. */
  lemma CutsNumber(j: Journal, k: Journal)
    requires AllNumbered(j) && forall id: Id :: StreamOf(k.disk, id).items <= StreamOf(j.disk, id).items
    ensures AllNumbered(k) && !LandsOnStray(j, k)
  {
    forall id: Id ensures Numbered(StreamOf(k.disk, id).items) {
      assert Numbered(StreamOf(j.disk, id).items);
    }
  }

  lemma SealingNumbers(j: Journal, id: Id, mem: Memory, event: EventFate)
    requires NumbersInv(j) && AllNumbered(j) && mem.next == j.mem.next
    ensures var k := Sealing(j, id, mem, event); AllNumbered(k) <==> !LandsOnStray(j, k)
  {
    var written := j.(disk := Recorded(j.disk, Record(id, false), Stored), mem := mem.(runs := mem.runs[id := false]));
    AppendNumbers(j, written, id, true, None, event);
    SameStreams(j, AppendLocked(written, id, true, None, event), Sealing(j, id, mem, event));
  }

  lemma OpenNumbers(j: Journal, id: Id, fate: Fate, event: EventFate)
    requires NumbersInv(j) && AllNumbered(j)
    ensures var k := OpenRun(j, id, fate, event); AllNumbered(k) <==> !LandsOnStray(j, k)
  {
    if j.mem.openId.None? && fate.Stored? {
      var d, ids := Recorded(j.disk, Record(id, true), fate), j.ids.(minted := j.ids.minted + {id});
      var opened' := j.(disk := d, ids := ids, mem := j.mem.(runs := j.mem.runs[id := true], openId := Some(id)));
      AppendNumbers(j, opened', id, false, None, event);
    } else {
      CutsNumber(j, OpenRun(j, id, fate, event));
    }
  }

  lemma CloseNumbers(j: Journal, id: Id, fate: Fate, event: EventFate)
    requires NumbersInv(j) && AllNumbered(j)
    ensures var k := CloseRun(j, id, fate, event); AllNumbered(k) <==> !LandsOnStray(j, k)
  {
    if id in j.mem.runs && j.mem.runs[id] && fate.Stored? {
      SealingNumbers(j, id, if j.mem.openId == Some(id) then j.mem.(openId := None) else j.mem, event);
    } else {
      CutsNumber(j, CloseRun(j, id, fate, event));
    }
  }

  lemma WriteNumbers(j: Journal, event: EventFate)
    requires NumbersInv(j) && AllNumbered(j)
    ensures var k := WriteItem(j, event); AllNumbered(k) <==> !LandsOnStray(j, k)
  {
    if j.queue.writing.Some? && j.mem.openId.Some? {
      var taken := j.(queue := j.queue.(writing := None));
      AppendNumbers(j, taken, j.mem.openId.value, false, j.queue.writing, event);
    } else {
      CutsNumber(j, WriteItem(j, event));
    }
  }

  lemma RecoverNumbers(j: Journal, fate: Fate, event: EventFate)
    requires NumbersInv(j) && AllNumbered(j) && j.mem.phase.Recovering? && j.mem.phase.todo != []
    ensures var k := RecoverNext(j, fate, event); AllNumbered(k) <==> !LandsOnStray(j, k)
  {
    var id := j.mem.phase.todo[0];
    if id in j.mem.runs && j.mem.runs[id] && fate.Stored? {
      SealingNumbers(j, id, j.mem.(phase := Recovering(j.mem.phase.todo[1..])), event);
    } else {
      CutsNumber(j, RecoverNext(j, fate, event));
    }
  }

  lemma StepNumbers(j: Journal, a: Action)
    requires NumbersInv(j) && AllNumbered(j) && Enabled(j, a)
    ensures AllNumbered(Fire(j, a)) <==> !LandsOnStray(j, Fire(j, a))
  {
    match a
    case DoOpen(id, record, event) => OpenNumbers(j, id, record, event);
    case DoClose(id, record, event) => CloseNumbers(j, id, record, event);
    case DoAppend(id, event) =>
      if id in j.mem.runs && j.mem.runs[id] {
        AppendNumbers(j, j, id, false, None, event);
      } else {
        CutsNumber(j, Fire(j, a));
      }
    case DoWrite(event) => WriteNumbers(j, event);
    case DoRecover(record, event) => RecoverNumbers(j, record, event);
    case _ => CutsNumber(j, Fire(j, a));
  }

  lemma RunStepNumbers(run: seq<Journal>, n: nat)
    requires IsRun(run) && 0 < n < |run| && AllNumbered(run[n - 1])
    ensures AllNumbered(run[n]) <==> !LandsOnStray(run[n - 1], run[n])
  {
    RunsKeepNumbers(run, n - 1);
    assert StepsTo(run, n);
    var a: Action :| Enabled(run[n - 1], a) && run[n] == Fire(run[n - 1], a);
    StepNumbers(run[n - 1], a);
  }

  ghost predicate NumberedUpTo(run: seq<Journal>, n: nat)
    requires n < |run|
  {
    forall i :: 0 <= i <= n ==> AllNumbered(run[i])
  }

  ghost predicate NoneLandsOnStray(run: seq<Journal>, n: nat)
    requires n < |run|
  {
    forall i :: 0 < i <= n ==> !LandsOnStray(run[i - 1], run[i])
  }

  /**
    Up to any state of any run, every stream has always been numbered 1, 2, 3 and
    on exactly when no event landed on a stream after a stray one while that
    stream's number stayed in memory.
   */
  lemma {:induction false} NumberedExactlyWhenNoneLandsOnStray(run: seq<Journal>, n: nat)
    requires IsRun(run) && n < |run|
    ensures NumberedUpTo(run, n) <==> NoneLandsOnStray(run, n)
  {
    if n == 0 {
      assert forall id: Id :: StreamOf(run[0].disk, id).items == [];
    } else {
      NumberedExactlyWhenNoneLandsOnStray(run, n - 1);
      if NumberedUpTo(run, n - 1) {
        RunStepNumbers(run, n);
      }
    }
  }

  /** With no stray event, then, every stream is numbered 1, 2, 3 and on. */
  lemma CleanRunsAreNumbered(run: seq<Journal>, n: nat, id: Id, i: nat)
    requires IsRun(run) && n < |run| && (forall m :: 0 <= m < n ==> run[m].strays == {})
    requires i < |StreamOf(run[n].disk, id).items|
    ensures StreamOf(run[n].disk, id).items[i].number == i + 1
  {
    forall m | 0 < m <= n ensures !LandsOnStray(run[m - 1], run[m]) {
      assert run[m - 1].strays == {};
    }
    NumberedExactlyWhenNoneLandsOnStray(run, n);
    assert AllNumbered(run[n]) && Numbered(StreamOf(run[n].disk, id).items);
  }

  const EVENT := Event(2, false, None)

  lemma StrayThenNext(id: Id)
    ensures var stray := AppendEvent(Opened(id), id, EventStray);
            var again := AppendEvent(stray, id, EventStored);
            && Next(Opened(id), stray) && Next(stray, again)
            && StreamOf(again.disk, id).items == [Event(1, false, None), EVENT, EVENT]
  {
    FiresNext(Opened(id), DoAppend(id, EventStray));
    FiresNext(AppendEvent(Opened(id), id, EventStray), DoAppend(id, EventStored));
  }

  /** A stray event in the first run opened, and then another event: both have the number 2. */
  lemma StrayEventRepeatsNumber(id: Id)
    ensures exists run: seq<Journal> ::
              && IsRun(run) && |run| == 6 && !NumberedUpTo(run, 5)
              && StreamOf(run[5].disk, id).items == [Event(1, false, None), EVENT, EVENT]
  {
    var stray := AppendEvent(Opened(id), id, EventStray);
    var again := AppendEvent(stray, id, EventStored);
    var run := OpenedRun(id);
    StrayThenNext(id);
    RunExtends(run, stray);
    RunExtends(run + [stray], again);
    var all := run + [stray] + [again];
    assert IsRun(all) && |all| == 6 && all[5] == again;
    var events := StreamOf(again.disk, id).items;
    assert events[2].number == 2;
    assert !Numbered(StreamOf(all[5].disk, id).items) && !AllNumbered(all[5]);
  }
}

/**
  The run journal of core/runs/run_journal.cpp at the level of records: opening
  and closing runs, their event streams, the tick thread's queue and its writer,
  processes killed, power losses, and recovery at the next start.

  A power loss cuts the index and each event stream anywhere past what is kept,
  or takes the file whole (module RunLogCrashes says when it can).
 */
module RunJournal {
  import opened DurableLists
  import opened Octets
  import opened Options

  type Id = string

  const MAX_QUEUE := 512

  datatype Record = Record(id: Id, isOpen: bool)

  /** `ticket` numbers what went through the queue, in the order enqueued. */
  datatype Event = Event(number: nat, closing: bool, ticket: Option<nat>)

  type Stream = Durable<Event>

  datatype Disk = Disk(index: Durable<Record>, streams: map<Id, Stream>)

  datatype Phase = Down | Recovering(todo: seq<Id>) | Up

  datatype Memory = Memory(phase: Phase, runs: map<Id, bool>, openId: Option<Id>, next: map<Id, nat>)

  datatype Queue = Queue(waiting: seq<nat>, writing: Option<nat>, tickets: nat)

  /** Every run id ever minted, and those minted before the index was last lost whole. */
  datatype Ids = Ids(minted: set<Id>, forgotten: set<Id>)

  /**
    `strays` are the streams whose last event landed though its write reported
    failure, and whose next number was in memory then and has been ever since.
   */
  datatype Journal = Journal(disk: Disk, mem: Memory, queue: Queue, ids: Ids, strays: set<Id>)

  const DOWN := Memory(Down, map[], None, map[])

  /** Not there, there though the write reported failure, written but not synced, or reported. */
  datatype EventFate = EventMissed | EventStray | EventUnsynced | EventStored

  function StreamOf(d: Disk, id: Id): Stream { if id in d.streams then d.streams[id] else Nothing() }

  // ---- The sequence number of the next event -----------------------------------------------

  function MaxSeq(events: seq<Event>): nat {
    if events == [] then 0
    else
      var m, last := MaxSeq(events[..|events| - 1]), events[|events| - 1].number;
      if last > m then last else m
  }

  method ScanMaxSeq(events: seq<Event>) returns (max: nat)
    ensures max == MaxSeq(events)
    ensures forall e <- events :: e.number <= max
    ensures max == 0 || exists e <- events :: e.number == max
  {
    max := 0;
    for i := 0 to |events|
      invariant max == MaxSeq(events[..i])
      invariant forall e <- events[..i] :: e.number <= max
      invariant max == 0 || exists e <- events[..i] :: e.number == max
    {
      assert events[..i + 1][..i] == events[..i];
      assert events[..i + 1] == events[..i] + [events[i]];
      if events[i].number > max {
        max := events[i].number;
        assert events[i] in events[..i + 1];
      }
    }
    assert events[..|events|] == events;
  }

  function NextSeq(j: Journal, id: Id): nat {
    if id in j.mem.next then j.mem.next[id] else MaxSeq(StreamOf(j.disk, id).items) + 1
  }

  // ---- Steps -------------------------------------------------------------------------------

  function FateOf(fate: EventFate): Fate {
    match fate
    case EventMissed => Missed
    case EventStray => Unsure
    case EventUnsynced => Unsure
    case EventStored => Stored
  }

  /** The line is written, so its number is spent. */
  predicate IsWritten(fate: EventFate) { fate.EventUnsynced? || fate.EventStored? }

  function Landed(d: Disk, id: Id, e: Event, fate: EventFate): Disk {
    if fate.EventMissed? then d else d.(streams := d.streams[id := Append(StreamOf(d, id), e, FateOf(fate))])
  }

  /** `append_event_locked`. */
  function AppendLocked(j: Journal, id: Id, closing: bool, ticket: Option<nat>, fate: EventFate): Journal {
    var seqNo := NextSeq(j, id);
    j.(disk := Landed(j.disk, id, Event(seqNo, closing, ticket), fate),
       mem := if IsWritten(fate) then j.mem.(next := j.mem.next[id := seqNo + 1]) else j.mem,
       strays := if IsWritten(fate) then j.strays - {id}
                 else if fate.EventStray? && id in j.mem.next then j.strays + {id}
                 else j.strays)
  }

  /** `append_record`. */
  function Recorded(d: Disk, r: Record, fate: Fate): Disk { d.(index := Append(d.index, r, fate)) }

  /** `next_seq_.erase(id)`. */
  function Erased(j: Journal, id: Id): Journal {
    j.(mem := j.mem.(next := j.mem.next - {id}), strays := j.strays - {id})
  }

  function OpenRun(j: Journal, id: Id, fate: Fate, event: EventFate): Journal {
    if j.mem.openId.Some? then j
    else
      var written := j.(disk := Recorded(j.disk, Record(id, true), fate), ids := j.ids.(minted := j.ids.minted + {id}));
      if !fate.Stored? then written
      else
        var opened' := written.(mem := j.mem.(runs := j.mem.runs[id := true], openId := Some(id)));
        AppendLocked(opened', id, false, None, event)
  }

  /** Closed in memory once its record is stored; then the closing event. */
  function Sealing(j: Journal, id: Id, mem: Memory, event: EventFate): Journal {
    var written := j.(disk := Recorded(j.disk, Record(id, false), Stored), mem := mem.(runs := mem.runs[id := false]));
    Erased(AppendLocked(written, id, true, None, event), id)
  }

  function CloseRun(j: Journal, id: Id, fate: Fate, event: EventFate): Journal {
    if id !in j.mem.runs || !j.mem.runs[id] then j
    else if !fate.Stored? then j.(disk := Recorded(j.disk, Record(id, false), fate))
    else
      Sealing(j, id, if j.mem.openId == Some(id) then j.mem.(openId := None) else j.mem, event)
  }

  /** `append_event`, on the calling thread. */
  function AppendEvent(j: Journal, id: Id, event: EventFate): Journal {
    if id !in j.mem.runs || !j.mem.runs[id] then j else AppendLocked(j, id, false, None, event)
  }

  function EnqueueEvent(q: Queue): Queue {
    q.(tickets := q.tickets + 1, waiting := if |q.waiting| >= MAX_QUEUE then q.waiting else q.waiting + [q.tickets])
  }

  /** The writer takes the oldest item under the queue's lock. */
  function TakeItem(q: Queue): Queue {
    if q.writing.Some? || q.waiting == [] then q
    else q.(writing := Some(q.waiting[0]), waiting := q.waiting[1..])
  }

  /** Then journals it, under the journal's lock, into whichever run is open now. */
  function WriteItem(j: Journal, event: EventFate): Journal {
    if j.queue.writing.None? then j
    else
      var taken := j.(queue := j.queue.(writing := None));
      if j.mem.openId.None? then taken else AppendLocked(taken, j.mem.openId.value, false, j.queue.writing, event)
  }

  /** The process is gone, with what it had in memory. */
  function Killed(j: Journal): Journal {
    j.(mem := DOWN, queue := Queue([], None, j.queue.tickets), strays := {})
  }

  function CrashTo(j: Journal, index: Loss, streams: Id -> Loss): Journal {
    var left := map id | id in j.disk.streams :: Survives(j.disk.streams[id], streams(id));
    Killed(j).(disk := Disk(Survives(j.disk.index, index), left),
               ids := if index.Whole? then j.ids.(forgotten := j.ids.minted) else j.ids)
  }

  function FoldRuns(index: seq<Record>): map<Id, bool> {
    if index == [] then map[]
    else FoldRuns(index[..|index| - 1])[index[|index| - 1].id := index[|index| - 1].isOpen]
  }

  function FoldOrder(index: seq<Record>): seq<Id> {
    if index == [] then []
    else
      var order, id := FoldOrder(index[..|index| - 1]), index[|index| - 1].id;
      if id in FoldRuns(index[..|index| - 1]) then order else order + [id]
  }

  /** `initialize` has read the index. */
  function Restart(j: Journal): Journal {
    var index := j.disk.index.items;
    j.(mem := Memory(Recovering(FoldOrder(index)), FoldRuns(index), None, map[]), strays := {})
  }

  /** `initialize` closes the next run left open; it gives up if the record is not stored. */
  function RecoverNext(j: Journal, fate: Fate, event: EventFate): Journal
    requires j.mem.phase.Recovering? && j.mem.phase.todo != []
  {
    var id := j.mem.phase.todo[0];
    var mem := j.mem.(phase := Recovering(j.mem.phase.todo[1..]));
    if id !in mem.runs || !mem.runs[id] then j.(mem := mem)
    else if !fate.Stored? then Killed(j.(disk := Recorded(j.disk, Record(id, false), fate)))
    else Sealing(j, id, mem, event)
  }

  datatype Action =
    | DoOpen(id: Id, record: Fate, event: EventFate)
    | DoClose(id: Id, record: Fate, event: EventFate)
    | DoAppend(id: Id, event: EventFate)
    | DoEnqueue
    | DoTake
    | DoWrite(event: EventFate)
    | DoKill
    | DoCrash(index: Loss, streams: Id -> Loss)
    | DoRestart
    | DoRecover(record: Fate, event: EventFate)
    | DoFinish

  /** Ids are minted fresh. */
  predicate Enabled(j: Journal, a: Action) {
    match a
    case DoOpen(id, _, _) => j.mem.phase.Up? && id !in j.ids.minted
    case DoKill => true
    case DoCrash(_, _) => true
    case DoRestart => j.mem.phase.Down?
    case DoRecover(_, _) => j.mem.phase.Recovering? && j.mem.phase.todo != []
    case DoFinish => j.mem.phase == Recovering([])
    case _ => j.mem.phase.Up?
  }

  function Fire(j: Journal, a: Action): Journal
    requires Enabled(j, a)
  {
    match a
    case DoOpen(id, record, event) => OpenRun(j, id, record, event)
    case DoClose(id, record, event) => CloseRun(j, id, record, event)
    case DoAppend(id, event) => AppendEvent(j, id, event)
    case DoEnqueue => j.(queue := EnqueueEvent(j.queue))
    case DoTake => j.(queue := TakeItem(j.queue))
    case DoWrite(event) => WriteItem(j, event)
    case DoKill => Killed(j)
    case DoCrash(index, streams) => CrashTo(j, index, streams)
    case DoRestart => Restart(j)
    case DoRecover(record, event) => RecoverNext(j, record, event)
    case DoFinish => j.(mem := j.mem.(phase := Up))
  }

  ghost predicate Next(j: Journal, k: Journal) { exists a: Action :: Enabled(j, a) && k == Fire(j, a) }

  const INITIAL := Journal(Disk(Nothing(), map[]), DOWN, Queue([], None, 0), Ids({}, {}), {})

  ghost predicate StepsTo(run: seq<Journal>, i: nat)
    requires 0 < i < |run|
  {
    Next(run[i - 1], run[i])
  }

  ghost predicate IsRun(run: seq<Journal>) {
    |run| > 0 && run[0] == INITIAL && forall i :: 0 < i < |run| ==> StepsTo(run, i)
  }

  lemma FiresNext(j: Journal, a: Action)
    requires Enabled(j, a)
    ensures Next(j, Fire(j, a))
  {
  }

  lemma RunExtends(run: seq<Journal>, j: Journal)
    requires IsRun(run) && Next(run[|run| - 1], j)
    ensures IsRun(run + [j])
  {
    var all := run + [j];
    forall i | 0 < i < |all| ensures StepsTo(all, i) {
      assert all[i - 1] == run[i - 1];
      if i < |run| {
        assert StepsTo(run, i) && all[i] == run[i];
      }
    }
  }

  // ---- Invariants ----------------------------------------------------------------------------

  predicate ClosesLast(events: seq<Event>) {
    forall i :: 0 <= i < |events| - 1 ==> !events[i].closing
  }

  predicate HasClosing(events: seq<Event>) { exists i :: 0 <= i < |events| && events[i].closing }

  predicate TicketsIncrease(events: seq<Event>) {
    forall i, k :: 0 <= i < k < |events| && events[i].ticket.Some? && events[k].ticket.Some? ==>
      events[i].ticket.value < events[k].ticket.value
  }

  predicate TicketsBelow(events: seq<Event>, floor: nat) {
    forall i :: 0 <= i < |events| && events[i].ticket.Some? ==> events[i].ticket.value < floor
  }

  predicate GoodStream(events: seq<Event>, floor: nat) {
    ClosesLast(events) && TicketsIncrease(events) && TicketsBelow(events, floor)
  }

  /** Every ticket not yet journaled is at or above this. */
  function Floor(q: Queue): nat {
    if q.writing.Some? then q.writing.value else if q.waiting != [] then q.waiting[0] else q.tickets
  }

  predicate QueueInv(q: Queue) {
    && (forall i, k :: 0 <= i < k < |q.waiting| ==> q.waiting[i] < q.waiting[k])
    && (forall i :: 0 <= i < |q.waiting| ==> q.waiting[i] < q.tickets)
    && (q.writing.Some? ==>
          q.writing.value < q.tickets && forall i :: 0 <= i < |q.waiting| ==> q.writing.value < q.waiting[i])
  }

  /** Minted, and not before the index was last lost whole. */
  predicate IsKnown(ids: Ids, id: Id) { id in ids.minted && id !in ids.forgotten }

  /** Only a run's first record is an open one. */
  predicate OpensFirst(index: seq<Record>) {
    forall i, k :: 0 <= i < k < |index| && index[i].id == index[k].id ==> !index[k].isOpen
  }

  predicate IndexInv(index: Durable<Record>, ids: Ids) {
    && index.kept <= |index.items| && OpensFirst(index.items) && ids.forgotten <= ids.minted
    && (forall i :: 0 <= i < |index.items| ==> IsKnown(ids, index.items[i].id))
  }

  /** The closed record of `id` is on storage. */
  predicate Sealed(d: Disk, id: Id) { Record(id, false) in d.index.items[..Least(d.index.kept, |d.index.items|)] }

  /** The run is closed for good: its closed record is on storage, or the index that held its records is gone. */
  predicate Settled(d: Disk, ids: Ids, id: Id) { Sealed(d, id) || id in ids.forgotten }

  predicate StreamInv(d: Disk, ids: Ids, id: Id, floor: nat) {
    var s := StreamOf(d, id);
    && s.kept <= |s.items| && GoodStream(s.items, floor)
    && (s.items != [] ==> id in ids.minted)
    && (HasClosing(s.items) ==> Settled(d, ids, id))
  }

  ghost predicate StreamsInv(d: Disk, ids: Ids, floor: nat) { forall id: Id :: StreamInv(d, ids, id, floor) }

  ghost predicate RunsInv(d: Disk, mem: Memory, ids: Ids) {
    && (forall id <- mem.runs :: IsKnown(ids, id))
    && (!mem.phase.Down? ==>
          && (forall id: Id :: Record(id, false) in d.index.items ==>
                id in mem.runs && (mem.runs[id] ==> mem.openId == Some(id)))
          && (forall id: Id :: Sealed(d, id) ==> id in mem.runs && !mem.runs[id]))
    && (mem.openId.Some? ==> mem.phase.Up? && mem.openId.value in mem.runs && mem.runs[mem.openId.value])
    && (mem.phase.Up? ==> forall id <- mem.runs :: mem.runs[id] ==> mem.openId == Some(id))
    && (mem.phase.Recovering? ==> forall id <- mem.runs :: mem.runs[id] ==> id in mem.phase.todo)
  }

  ghost predicate Inv(j: Journal) {
    && QueueInv(j.queue)
    && IndexInv(j.disk.index, j.ids)
    && StreamsInv(j.disk, j.ids, Floor(j.queue))
    && RunsInv(j.disk, j.mem, j.ids)
  }

  // ---- Every step keeps them -----------------------------------------------------------------

  lemma StreamGrows(events: seq<Event>, e: Event, floor: nat, floor': nat)
    requires GoodStream(events, floor) && !HasClosing(events) && floor <= floor'
    requires e.ticket.Some? ==> floor <= e.ticket.value < floor'
    ensures GoodStream(events + [e], floor')
    ensures HasClosing(events + [e]) ==> e.closing
  {
    var grown := events + [e];
    assert forall i :: 0 <= i < |events| ==> grown[i] == events[i];
    forall i | 0 <= i < |grown| - 1 ensures !grown[i].closing {
      assert grown[i] == events[i];
    }
  }

  lemma LandingKeepsStreams(d: Disk, ids: Ids, id: Id, e: Event, fate: EventFate, floor: nat, floor': nat)
    requires StreamsInv(d, ids, floor)
    requires !HasClosing(StreamOf(d, id).items) && id in ids.minted && (e.closing ==> Settled(d, ids, id))
    requires floor <= floor' && (e.ticket.Some? ==> floor <= e.ticket.value < floor')
    ensures StreamsInv(Landed(d, id, e, fate), ids, floor') && Landed(d, id, e, fate).index == d.index
  {
    var k := Landed(d, id, e, fate);
    assert StreamInv(d, ids, id, floor);
    StreamGrows(StreamOf(d, id).items, e, floor, floor');
    forall other: Id ensures StreamInv(k, ids, other, floor') {
      assert StreamInv(d, ids, other, floor);
    }
  }

  /** An open run's stream has no closing event yet. */
  lemma OpenRunIsUnsealed(j: Journal, id: Id)
    requires Inv(j) && !j.mem.phase.Down? && id in j.mem.runs && j.mem.runs[id]
    ensures !HasClosing(StreamOf(j.disk, id).items) && IsKnown(j.ids, id) && !Sealed(j.disk, id)
  {
    assert StreamInv(j.disk, j.ids, id, Floor(j.queue));
  }

  /** What a record adds to the index, and what it seals. */
  lemma RecordAdds(d: Disk, r: Record, fate: Fate)
    requires d.index.kept <= |d.index.items|
    ensures var e := Recorded(d, r, fate);
            && (forall x: Record :: x in e.index.items <==> x in d.index.items || (x == r && !fate.Missed?))
            && (forall id: Id :: Sealed(d, id) ==> Sealed(e, id))
            && (forall id: Id :: Sealed(e, id) <==>
                  if fate.Stored? then Record(id, false) in d.index.items || Record(id, false) == r
                  else Sealed(d, id))
  {
    var e := Recorded(d, r, fate);
    if !fate.Missed? {
      assert e.index.items[..d.index.kept] == d.index.items[..d.index.kept];
      assert e.index.items[..|e.index.items|] == e.index.items;
    }
    assert forall x :: x in d.index.items[..d.index.kept] ==> x in d.index.items;
  }

  lemma RecordKeepsIndex(index: Durable<Record>, ids: Ids, r: Record, fate: Fate)
    requires IndexInv(index, ids) && r.id !in ids.forgotten && (r.isOpen ==> r.id !in ids.minted)
    ensures IndexInv(Append(index, r, fate), ids.(minted := ids.minted + {r.id}))
  {
  }

  lemma RecordKeepsStreams(d: Disk, ids: Ids, r: Record, fate: Fate, floor: nat)
    requires d.index.kept <= |d.index.items| && StreamsInv(d, ids, floor)
    ensures StreamsInv(Recorded(d, r, fate), ids.(minted := ids.minted + {r.id}), floor)
  {
    RecordAdds(d, r, fate);
    var e, all := Recorded(d, r, fate), ids.(minted := ids.minted + {r.id});
    forall id: Id ensures StreamInv(e, all, id, floor) {
      assert StreamInv(d, ids, id, floor);
    }
  }

  lemma FreshStreamIsEmpty(j: Journal, id: Id)
    requires Inv(j) && id !in j.ids.minted
    ensures StreamOf(j.disk, id).items == []
  {
    assert StreamInv(j.disk, j.ids, id, Floor(j.queue));
  }

  /** A fresh run opened when none is: the only open one, and nothing newly sealed is open. */
  lemma OpenKeepsRuns(d: Disk, e: Disk, mem: Memory, opened': Memory, ids: Ids, id: Id)
    requires RunsInv(d, mem, ids) && IndexInv(d.index, ids)
    requires mem.phase.Up? && mem.openId.None? && id !in ids.minted
    requires forall x: Id :: Record(x, false) in e.index.items <==> Record(x, false) in d.index.items
    requires forall x: Id :: Sealed(e, x) ==> Record(x, false) in d.index.items
    requires opened'.phase.Up? && opened'.runs == mem.runs[id := true] && opened'.openId == Some(id)
    ensures RunsInv(e, opened', ids.(minted := ids.minted + {id}))
  {
    forall x: Id | Record(x, false) in d.index.items ensures x != id {
      var i :| 0 <= i < |d.index.items| && d.index.items[i] == Record(x, false);
    }
  }

  lemma OpenKeepsInv(j: Journal, id: Id, fate: Fate, event: EventFate)
    requires Inv(j) && j.mem.phase.Up? && id !in j.ids.minted
    ensures Inv(OpenRun(j, id, fate, event))
  {
    if j.mem.openId.None? {
      var r := Record(id, true);
      RecordAdds(j.disk, r, fate);
      RecordKeepsIndex(j.disk.index, j.ids, r, fate);
      RecordKeepsStreams(j.disk, j.ids, r, fate, Floor(j.queue));
      if fate.Stored? {
        OpenedKeepsInv(j, id, event);
      }
    }
  }

  lemma OpenedKeepsInv(j: Journal, id: Id, event: EventFate)
    requires Inv(j) && j.mem.phase.Up? && id !in j.ids.minted && j.mem.openId.None?
    ensures Inv(OpenRun(j, id, Stored, event))
  {
    var r, ids := Record(id, true), j.ids.(minted := j.ids.minted + {id});
    var d := Recorded(j.disk, r, Stored);
    RecordAdds(j.disk, r, Stored);
    RecordKeepsIndex(j.disk.index, j.ids, r, Stored);
    RecordKeepsStreams(j.disk, j.ids, r, Stored, Floor(j.queue));
    FreshStreamIsEmpty(j, id);
    var k := OpenRun(j, id, Stored, event);
    var e := Event(NextSeq(j.(disk := d), id), false, None);
    LandingKeepsStreams(d, ids, id, e, event, Floor(j.queue), Floor(j.queue));
    assert k.disk == Landed(d, id, e, event);
    OpenKeepsRuns(j.disk, k.disk, j.mem, k.mem, j.ids, id);
  }

  /** Storing an open run's closed record, in memory and in the index. */
  lemma SealKeepsRuns(d: Disk, e: Disk, mem: Memory, closed: Memory, ids: Ids, id: Id)
    requires RunsInv(d, mem, ids) && !mem.phase.Down? && id in mem.runs && mem.runs[id]
    requires forall x: Id :: Record(x, false) in e.index.items <==> Record(x, false) in d.index.items || x == id
    requires forall x: Id :: Sealed(e, x) <==> Record(x, false) in d.index.items || x == id
    requires closed.runs == mem.runs[id := false]
    requires mem.phase.Up? ==> closed.phase.Up? && closed.openId == None
    requires mem.phase.Recovering? ==>
               && closed.phase.Recovering? && closed.openId == mem.openId
               && forall x :: x in mem.phase.todo ==> x == id || x in closed.phase.todo
    ensures RunsInv(e, closed, ids)
  {
  }

  lemma SealingKeepsInv(j: Journal, id: Id, mem: Memory, event: EventFate)
    requires Inv(j) && !j.mem.phase.Down? && id in j.mem.runs && j.mem.runs[id] && mem.runs == j.mem.runs
    requires j.mem.phase.Up? ==> mem.phase.Up? && mem.openId == None
    requires j.mem.phase.Recovering? ==>
               && mem.phase.Recovering? && mem.openId == j.mem.openId
               && forall x :: x in j.mem.phase.todo ==> x == id || x in mem.phase.todo
    ensures Inv(Sealing(j, id, mem, event))
  {
    var r, d := Record(id, false), Recorded(j.disk, Record(id, false), Stored);
    OpenRunIsUnsealed(j, id);
    assert j.ids.(minted := j.ids.minted + {id}) == j.ids;
    RecordAdds(j.disk, r, Stored);
    RecordKeepsIndex(j.disk.index, j.ids, r, Stored);
    RecordKeepsStreams(j.disk, j.ids, r, Stored, Floor(j.queue));
    var k := Sealing(j, id, mem, event);
    var e := Event(NextSeq(j.(disk := d, mem := mem), id), true, None);
    LandingKeepsStreams(d, j.ids, id, e, event, Floor(j.queue), Floor(j.queue));
    assert k.disk == Landed(d, id, e, event);
    SealKeepsRuns(j.disk, k.disk, j.mem, k.mem, j.ids, id);
  }

  /** A closed record that is not stored: on the index, perhaps, and nowhere else. */
  lemma UnstoredKeepsInv(j: Journal, id: Id, fate: Fate)
    requires Inv(j) && !j.mem.phase.Down? && id in j.mem.runs && j.mem.runs[id] && !fate.Stored?
    ensures var k := j.(disk := Recorded(j.disk, Record(id, false), fate));
            && QueueInv(k.queue) && IndexInv(k.disk.index, k.ids) && StreamsInv(k.disk, k.ids, Floor(k.queue))
            && (j.mem.phase.Up? ==> RunsInv(k.disk, k.mem, k.ids))
  {
    assert IsKnown(j.ids, id);
    assert j.ids.(minted := j.ids.minted + {id}) == j.ids;
    RecordAdds(j.disk, Record(id, false), fate);
    RecordKeepsIndex(j.disk.index, j.ids, Record(id, false), fate);
    RecordKeepsStreams(j.disk, j.ids, Record(id, false), fate, Floor(j.queue));
  }

  lemma CloseKeepsInv(j: Journal, id: Id, fate: Fate, event: EventFate)
    requires Inv(j) && j.mem.phase.Up?
    ensures Inv(CloseRun(j, id, fate, event))
  {
    if id in j.mem.runs && j.mem.runs[id] {
      if fate.Stored? {
        SealingKeepsInv(j, id, j.mem.(openId := None), event);
      } else {
        UnstoredKeepsInv(j, id, fate);
      }
    }
  }

  lemma AppendKeepsInv(j: Journal, id: Id, event: EventFate)
    requires Inv(j) && j.mem.phase.Up?
    ensures Inv(AppendEvent(j, id, event))
  {
    if id in j.mem.runs && j.mem.runs[id] {
      OpenRunIsUnsealed(j, id);
      LandingKeepsStreams(j.disk, j.ids, id, Event(NextSeq(j, id), false, None), event, Floor(j.queue), Floor(j.queue));
    }
  }

  lemma FloorRises(d: Disk, ids: Ids, floor: nat, floor': nat)
    requires StreamsInv(d, ids, floor) && floor <= floor'
    ensures StreamsInv(d, ids, floor')
  {
    forall id: Id ensures StreamInv(d, ids, id, floor') {
      assert StreamInv(d, ids, id, floor);
    }
  }

  lemma QueueKeepsInv(j: Journal)
    requires Inv(j)
    ensures Inv(j.(queue := EnqueueEvent(j.queue))) && Inv(j.(queue := TakeItem(j.queue)))
  {
    FloorRises(j.disk, j.ids, Floor(j.queue), Floor(EnqueueEvent(j.queue)));
    FloorRises(j.disk, j.ids, Floor(j.queue), Floor(TakeItem(j.queue)));
  }

  lemma WriteKeepsInv(j: Journal, event: EventFate)
    requires Inv(j) && j.mem.phase.Up?
    ensures Inv(WriteItem(j, event))
  {
    if j.queue.writing.Some? {
      var taken := j.(queue := j.queue.(writing := None));
      if j.mem.openId.None? {
        FloorRises(j.disk, j.ids, Floor(j.queue), Floor(taken.queue));
      } else {
        var id := j.mem.openId.value;
        OpenRunIsUnsealed(j, id);
        LandingKeepsStreams(j.disk, j.ids, id, Event(NextSeq(j, id), false, j.queue.writing), event,
                            Floor(j.queue), Floor(taken.queue));
      }
    }
  }

  lemma CutStream(events: seq<Event>, n: nat, floor: nat)
    requires GoodStream(events, floor) && n <= |events|
    ensures GoodStream(events[..n], floor) && (HasClosing(events[..n]) ==> HasClosing(events))
  {
  }

  lemma SurvivingStream(s: Stream, loss: Loss, floor: nat)
    requires s.kept <= |s.items| && GoodStream(s.items, floor)
    ensures var t := Survives(s, loss);
            && t.kept <= |t.items| && GoodStream(t.items, floor) && t.items <= s.items
            && (HasClosing(t.items) ==> HasClosing(s.items))
  {
    if loss.Cut? {
      CutStream(s.items, Survives(s, loss).kept, floor);
    }
  }

  lemma KilledKeepsInv(j: Journal)
    requires QueueInv(j.queue) && IndexInv(j.disk.index, j.ids) && StreamsInv(j.disk, j.ids, Floor(j.queue))
    ensures Inv(Killed(j))
  {
    FloorRises(j.disk, j.ids, Floor(j.queue), Floor(Killed(j).queue));
  }

  /** What the index seals is still sealed, or forgotten with the index. */
  lemma CrashKeepsSettled(j: Journal, index: Loss, streams: Id -> Loss, id: Id)
    requires IndexInv(j.disk.index, j.ids) && Settled(j.disk, j.ids, id)
    ensures var k := CrashTo(j, index, streams); Settled(k.disk, k.ids, id)
  {
    var k := CrashTo(j, index, streams);
    if Sealed(j.disk, id) {
      var i :| 0 <= i < j.disk.index.kept && j.disk.index.items[..j.disk.index.kept][i] == Record(id, false);
      assert j.disk.index.items[i] == Record(id, false);
      if index.Cut? {
        assert k.disk.index.items[i] == Record(id, false);
      }
    }
  }

  lemma CrashKeepsInv(j: Journal, index: Loss, streams: Id -> Loss)
    requires Inv(j)
    ensures Inv(CrashTo(j, index, streams))
  {
    KilledKeepsInv(j);
    var k, floor := CrashTo(j, index, streams), Floor(Killed(j).queue);
    forall id: Id ensures StreamInv(k.disk, k.ids, id, floor) {
      assert StreamInv(Killed(j).disk, j.ids, id, floor);
      if id in j.disk.streams {
        SurvivingStream(j.disk.streams[id], streams(id), floor);
      }
      if Settled(j.disk, j.ids, id) {
        CrashKeepsSettled(j, index, streams, id);
      }
    }
  }

  predicate Mentions(index: seq<Record>, id: Id) { exists i :: 0 <= i < |index| && index[i].id == id }

  /** A run with a closed record is closed in the fold. */
  lemma {:induction false} FoldedClosed(index: seq<Record>, id: Id)
    requires OpensFirst(index) && Record(id, false) in index
    ensures id in FoldRuns(index) && !FoldRuns(index)[id]
  {
    var front, last := index[..|index| - 1], index[|index| - 1];
    assert index == front + [last];
    if Record(id, false) in front {
      var i :| 0 <= i < |front| && front[i] == Record(id, false);
      assert index[i] == front[i];
      FoldedClosed(front, id);
    }
  }

  /** Every run in the fold is in the order, and in the index. */
  lemma {:induction false} FoldedListed(index: seq<Record>, id: Id)
    requires id in FoldRuns(index)
    ensures id in FoldOrder(index) && Mentions(index, id)
  {
    var front, last := index[..|index| - 1], index[|index| - 1];
    if id in FoldRuns(front) {
      FoldedListed(front, id);
      var i :| 0 <= i < |front| && front[i].id == id;
      assert index[i] == front[i];
    } else {
      assert index[|index| - 1].id == id;
    }
  }

  lemma FoldedRuns(index: seq<Record>)
    requires OpensFirst(index)
    ensures forall id: Id :: Record(id, false) in index ==> id in FoldRuns(index) && !FoldRuns(index)[id]
    ensures forall id <- FoldRuns(index) :: id in FoldOrder(index) && Mentions(index, id)
  {
    forall id: Id | Record(id, false) in index ensures id in FoldRuns(index) && !FoldRuns(index)[id] {
      FoldedClosed(index, id);
    }
    forall id <- FoldRuns(index) ensures id in FoldOrder(index) && Mentions(index, id) {
      FoldedListed(index, id);
    }
  }

  /** A start finds each run of the index, and no other, as its latest record has it. */
  lemma {:induction false} FoldsLatest(index: seq<Record>, i: nat)
    requires i < |index| && forall k :: i < k < |index| ==> index[k].id != index[i].id
    ensures index[i].id in FoldRuns(index) && FoldRuns(index)[index[i].id] == index[i].isOpen
    decreases |index|
  {
    var front := index[..|index| - 1];
    if i < |front| {
      assert front[i] == index[i] && index[|index| - 1].id != index[i].id;
      FoldsLatest(front, i);
    }
  }

  lemma RestartKeepsInv(j: Journal)
    requires Inv(j)
    ensures Inv(Restart(j))
  {
    var index := j.disk.index;
    FoldedRuns(index.items);
    assert forall x :: x in index.items[..Least(index.kept, |index.items|)] ==> x in index.items;
  }

  lemma RecoverKeepsInv(j: Journal, fate: Fate, event: EventFate)
    requires Inv(j) && j.mem.phase.Recovering? && j.mem.phase.todo != []
    ensures Inv(RecoverNext(j, fate, event))
  {
    var id := j.mem.phase.todo[0];
    var mem := j.mem.(phase := Recovering(j.mem.phase.todo[1..]));
    assert j.mem.phase.todo == [id] + mem.phase.todo;
    if id in mem.runs && mem.runs[id] {
      if fate.Stored? {
        SealingKeepsInv(j, id, mem, event);
      } else {
        UnstoredKeepsInv(j, id, fate);
        KilledKeepsInv(j.(disk := Recorded(j.disk, Record(id, false), fate)));
      }
    }
  }

  lemma StepKeepsInv(j: Journal, a: Action)
    requires Inv(j) && Enabled(j, a)
    ensures Inv(Fire(j, a))
  {
    match a
    case DoOpen(id, record, event) => OpenKeepsInv(j, id, record, event);
    case DoClose(id, record, event) => CloseKeepsInv(j, id, record, event);
    case DoAppend(id, event) => AppendKeepsInv(j, id, event);
    case DoEnqueue => QueueKeepsInv(j);
    case DoTake => QueueKeepsInv(j);
    case DoWrite(event) => WriteKeepsInv(j, event);
    case DoKill => KilledKeepsInv(j);
    case DoCrash(index, streams) => CrashKeepsInv(j, index, streams);
    case DoRestart => RestartKeepsInv(j);
    case DoRecover(record, event) => RecoverKeepsInv(j, record, event);
    case DoFinish =>
  }

  lemma {:induction false} RunsKeepInv(run: seq<Journal>, n: nat)
    requires IsRun(run) && n < |run|
    ensures Inv(run[n])
  {
    if n > 0 {
      RunsKeepInv(run, n - 1);
      assert StepsTo(run, n);
      var a: Action :| Enabled(run[n - 1], a) && run[n] == Fire(run[n - 1], a);
      StepKeepsInv(run[n - 1], a);
    }
  }

  // ---- Main results --------------------------------------------------------------------------

  /** At most one run is open, and it is the recorded one. */
  lemma OpenRunIsTheRecordedOne(run: seq<Journal>, n: nat, id: Id)
    requires IsRun(run) && n < |run| && run[n].mem.phase.Up?
    ensures id in run[n].mem.runs && run[n].mem.runs[id] <==> run[n].mem.openId == Some(id)
  {
    RunsKeepInv(run, n);
  }

  /**
    Every stream ends at its closing event, and holds what came through the queue
    in the order it was enqueued: a fault before the mode change it caused.
   */
  lemma StreamsAreOrdered(run: seq<Journal>, n: nat, id: Id, i: nat, k: nat)
    requires IsRun(run) && n < |run|
    requires i < |StreamOf(run[n].disk, id).items| && k < |StreamOf(run[n].disk, id).items|
    ensures var events := StreamOf(run[n].disk, id).items;
            && (events[i].closing ==> i == |events| - 1)
            && (events[i].ticket.Some? && events[k].ticket.Some? ==>
                  (events[i].ticket.value < events[k].ticket.value <==> i < k))
  {
    RunsKeepInv(run, n);
    var events := StreamOf(run[n].disk, id).items;
    assert StreamInv(run[n].disk, run[n].ids, id, Floor(run[n].queue));
    if k < i { assert TicketsIncrease(events); }
  }

  /** A closing event's run has its closed record on storage, exactly unless the index was since lost whole. */
  lemma ClosingMeansStored(run: seq<Journal>, n: nat, id: Id)
    requires IsRun(run) && n < |run| && HasClosing(StreamOf(run[n].disk, id).items)
    ensures Sealed(run[n].disk, id) <==> id !in run[n].ids.forgotten
  {
    RunsKeepInv(run, n);
    var d := run[n].disk;
    assert StreamInv(d, run[n].ids, id, Floor(run[n].queue));
    if Sealed(d, id) {
      var i :| 0 <= i < d.index.kept && d.index.items[..d.index.kept][i] == Record(id, false);
      assert d.index.items[i] == Record(id, false);
    }
  }

  // ---- What is queued is journaled ---------------------------------------------------------------

  /** The item has been journaled last in the stream of the run open then. */
  predicate JournaledBy(j: Journal, k: Journal, ticket: nat) {
    && j.mem.openId.Some?
    && var before, after := StreamOf(j.disk, j.mem.openId.value).items, StreamOf(k.disk, j.mem.openId.value).items;
       |after| == |before| + 1 && after[..|before|] == before
       && after[|before|].ticket == Some(ticket) && !after[|before|].closing
  }

  /** The process ended, by a kill, a power loss or a start that gave up. */
  predicate Ends(j: Journal, k: Journal) { k.mem.phase.Down? && k.queue == Queue([], None, j.queue.tickets) }

  /**
    An item of the queue goes forward: while it waits, it waits on or is taken, and
    once taken it is journaled in the open run's stream, unless no run is open, its
    write leaves nothing, or the process ends.
   */
  lemma QueuedItemsGoForward(j: Journal, a: Action, ticket: nat)
    requires Enabled(j, a) && !Ends(j, Fire(j, a))
    ensures var k := Fire(j, a);
            && (ticket in j.queue.waiting ==> ticket in k.queue.waiting || k.queue.writing == Some(ticket))
            && (j.queue.writing == Some(ticket) ==>
                  || k.queue.writing == Some(ticket)
                  || (a.DoWrite? && (j.mem.openId.None? || a.event.EventMissed? || JournaledBy(j, k, ticket))))
  {
    if a.DoTake? && j.queue.waiting != [] {
      assert j.queue.waiting == [j.queue.waiting[0]] + j.queue.waiting[1..];
    }
  }

  /** An item offered is the last to wait, unless the queue is full. */
  lemma OfferedItemWaits(q: Queue)
    ensures var after := EnqueueEvent(q);
            && after.tickets == q.tickets + 1 && after.writing == q.writing
            && (|q.waiting| < 512 ==> after.waiting == q.waiting + [q.tickets])
            && (|q.waiting| >= 512 ==> after.waiting == q.waiting)
  {
  }

  // ---- A start recovers every run left open -------------------------------------------------------

  /** Recovery to its end, with every record stored; `event` is the fate of each closing event. */
  ghost function Recovered(j: Journal, event: EventFate): Journal
    requires j.mem.phase.Recovering?
    decreases |j.mem.phase.todo|
  {
    if j.mem.phase.todo == [] then j else Recovered(RecoverNext(j, Stored, event), event)
  }

  /** One run recovered: closed, its record on storage, its closing event in its stream if that landed. */
  lemma RecoversOne(j: Journal, event: EventFate, id: Id)
    requires Inv(j) && j.mem.phase.Recovering? && j.mem.phase.todo != []
    ensures var k := RecoverNext(j, Stored, event);
            && Inv(k) && k.mem.phase == Recovering(j.mem.phase.todo[1..]) && k.mem.runs.Keys == j.mem.runs.Keys
            && (id in j.mem.runs ==>
                  && (k.mem.runs[id] <==> j.mem.runs[id] && id != j.mem.phase.todo[0])
                  && (j.mem.runs[id] && !k.mem.runs[id] ==>
                        && Sealed(k.disk, id)
                        && (!event.EventMissed? ==> HasClosing(StreamOf(k.disk, id).items))))
  {
    RecoverKeepsInv(j, Stored, event);
    var first := j.mem.phase.todo[0];
    if first in j.mem.runs && j.mem.runs[first] {
      var k := RecoverNext(j, Stored, event);
      assert k.disk.index.items[|j.disk.index.items|] == Record(first, false);
      var events := StreamOf(k.disk, first).items;
      assert !event.EventMissed? ==> events != [] && events[|events| - 1].closing;
    }
  }

  /** Once all are, no run is open, and each that was is sealed. */
  lemma {:induction false} RecoversEveryRun(j: Journal, event: EventFate, id: Id)
    requires Inv(j) && j.mem.phase.Recovering?
    ensures var k := Recovered(j, event);
            && Inv(k) && k.mem.phase == Recovering([]) && k.mem.runs.Keys == j.mem.runs.Keys
            && (id in j.mem.runs ==> !k.mem.runs[id])
            && (id in j.mem.runs && j.mem.runs[id] ==>
                  Sealed(k.disk, id) && (!event.EventMissed? ==> HasClosing(StreamOf(k.disk, id).items)))
    decreases |j.mem.phase.todo|
  {
    if j.mem.phase.todo != [] {
      var k := RecoverNext(j, Stored, event);
      RecoversOne(j, event, id);
      RecoversEveryRun(k, event, id);
      if id in j.mem.runs && j.mem.runs[id] && !k.mem.runs[id] {
        RecoveryKeepsSealed(k, event, id);
      }
    }
  }

  lemma {:induction false} RecoveryKeepsSealed(j: Journal, event: EventFate, id: Id)
    requires Inv(j) && j.mem.phase.Recovering? && Sealed(j.disk, id)
    ensures Sealed(Recovered(j, event).disk, id)
    ensures StreamOf(Recovered(j, event).disk, id).items == StreamOf(j.disk, id).items
    decreases |j.mem.phase.todo|
  {
    if j.mem.phase.todo != [] {
      var k := RecoverNext(j, Stored, event);
      RecoverKeepsInv(j, Stored, event);
      RecordAdds(j.disk, Record(j.mem.phase.todo[0], false), Stored);
      SettledIsNotOpen(j, id);
      RecoveryKeepsSealed(k, event, id);
    }
  }

  // ---- Two first runs ---------------------------------------------------------------------------

  const STARTED := INITIAL.(mem := Memory(Up, map[], None, map[]))

  function Opened(id: Id): Journal {
    Journal(Disk(Durable([Record(id, true)], 1), map[id := Durable([Event(1, false, None)], 1)]),
            Memory(Up, map[id := true], Some(id), map[id := 2]), INITIAL.queue, Ids({id}, {}), {})
  }

  function Closed(id: Id): Journal {
    Journal(Disk(Durable([Record(id, true), Record(id, false)], 2),
                 map[id := Durable([Event(1, false, None), Event(2, true, None)], 2)]),
            Memory(Up, map[id := false], None, map[]), INITIAL.queue, Ids({id}, {}), {})
  }

  lemma StartsUp()
    ensures IsRun([INITIAL, Restart(INITIAL), STARTED])
  {
    FiresNext(INITIAL, DoRestart);
    FiresNext(Restart(INITIAL), DoFinish);
    var run := [INITIAL, Restart(INITIAL), STARTED];
    assert StepsTo(run, 1) && StepsTo(run, 2);
  }

  lemma OpensFirstRun(id: Id)
    ensures Next(STARTED, Opened(id))
  {
    FiresNext(STARTED, DoOpen(id, Stored, EventStored));
    var d := Recorded(STARTED.disk, Record(id, true), Stored);
    assert d.index == Opened(id).disk.index && d.streams[id := Opened(id).disk.streams[id]] == Opened(id).disk.streams;
    assert Append(Nothing(), Event(1, false, None), Stored) == Opened(id).disk.streams[id];
    assert STARTED.mem.runs[id := true] == map[id := true] && STARTED.mem.next[id := 2] == map[id := 2];
    assert STARTED.strays - {id} == {} && STARTED.ids.minted + {id} == {id};
    assert OpenRun(STARTED, id, Stored, EventStored) == Opened(id);
  }

  lemma ClosesFirstRun(id: Id)
    ensures Next(Opened(id), Closed(id))
  {
    FiresNext(Opened(id), DoClose(id, Stored, EventStored));
    var j := Opened(id);
    var d := Recorded(j.disk, Record(id, false), Stored);
    assert d == j.disk.(index := Durable([Record(id, true), Record(id, false)], 2));
    assert map[id := true][id := false] == map[id := false];
    var e := Event(2, true, None);
    var streams := d.streams[id := Append(d.streams[id], e, Stored)];
    assert Append(d.streams[id], e, Stored) == Durable([Event(1, false, None), e], 2);
    assert streams == map[id := Durable([Event(1, false, None), e], 2)];
    assert j.mem.next[id := 3] - {id} == map[];
    assert j.strays - {id} == {};
    assert CloseRun(j, id, Stored, EventStored) == Closed(id);
  }

  lemma OpenedRun(id: Id) returns (run: seq<Journal>)
    ensures IsRun(run) && |run| == 4 && run[3] == Opened(id)
  {
    StartsUp();
    OpensFirstRun(id);
    run := [INITIAL, Restart(INITIAL), STARTED];
    RunExtends(run, Opened(id));
    run := run + [Opened(id)];
  }

  function IndexLost(id: Id): Journal { CrashTo(Closed(id), Whole, (x: Id) => Cut(0)) }

  lemma LosesClosedRecord(id: Id)
    ensures Sealed(Closed(id).disk, id) && Next(Closed(id), IndexLost(id))
    ensures HasClosing(StreamOf(IndexLost(id).disk, id).items) && !Sealed(IndexLost(id).disk, id)
  {
    FiresNext(Closed(id), DoCrash(Whole, (x: Id) => Cut(0)));
    assert Closed(id).disk.index.items[1] == Record(id, false);
    assert StreamOf(IndexLost(id).disk, id).items[1].closing;
  }

  /** A run opened and closed, both reported, and then the index lost whole: the closed record is gone. */
  lemma LostIndexForgetsClosing(id: Id)
    ensures exists run: seq<Journal> ::
              && IsRun(run) && |run| == 6 && Sealed(run[4].disk, id)
              && HasClosing(StreamOf(run[5].disk, id).items) && !Sealed(run[5].disk, id)
  {
    var run := OpenedRun(id);
    ClosesFirstRun(id);
    RunExtends(run, Closed(id));
    LosesClosedRecord(id);
    RunExtends(run + [Closed(id)], IndexLost(id));
    var all := run + [Closed(id)] + [IndexLost(id)];
    assert IsRun(all) && |all| == 6 && all[4] == Closed(id) && all[5] == IndexLost(id);
  }

  // ---- A closed run's stream is final ----------------------------------------------------------

  /** Whatever lands, lands in the stream of a run not yet settled. */
  lemma StepKeepsSettledStream(j: Journal, a: Action, id: Id)
    requires Inv(j) && Enabled(j, a) && Settled(j.disk, j.ids, id)
    ensures StreamOf(Fire(j, a).disk, id).items <= StreamOf(j.disk, id).items
  {
    SettledIsNotOpen(j, id);
    assert StreamInv(j.disk, j.ids, id, Floor(j.queue));
  }

  lemma SettledIsNotOpen(j: Journal, id: Id)
    requires Inv(j) && Settled(j.disk, j.ids, id)
    ensures id in j.ids.minted && (!j.mem.phase.Down? && id in j.mem.runs ==> !j.mem.runs[id])
    ensures !j.mem.phase.Down? ==> j.mem.openId != Some(id)
  {
    var d := j.disk;
    if Sealed(d, id) {
      var i :| 0 <= i < d.index.kept && d.index.items[..d.index.kept][i] == Record(id, false);
      assert d.index.items[i] == Record(id, false);
    }
  }

  lemma StepKeepsSettled(j: Journal, a: Action, id: Id)
    requires Inv(j) && Enabled(j, a) && Settled(j.disk, j.ids, id)
    ensures Settled(Fire(j, a).disk, Fire(j, a).ids, id)
  {
    match a
    case DoOpen(x, record, _) => RecordAdds(j.disk, Record(x, true), record);
    case DoClose(x, record, _) => RecordAdds(j.disk, Record(x, false), record);
    case DoRecover(record, _) => RecordAdds(j.disk, Record(j.mem.phase.todo[0], false), record);
    case DoCrash(index, streams) => CrashKeepsSettled(j, index, streams, id);
    case _ =>
  }

  /** `k` has the run settled, and no more of its stream than `j` had. */
  predicate SettledSince(j: Journal, k: Journal, id: Id) {
    Settled(k.disk, k.ids, id) && StreamOf(k.disk, id).items <= StreamOf(j.disk, id).items
  }

  lemma NextKeepsSettled(j: Journal, k: Journal, id: Id)
    requires Inv(j) && Next(j, k) && Settled(j.disk, j.ids, id)
    ensures SettledSince(j, k, id)
  {
    var a: Action :| Enabled(j, a) && k == Fire(j, a);
    StepKeepsSettled(j, a, id);
    StepKeepsSettledStream(j, a, id);
  }

  lemma RunStepKeepsSettled(run: seq<Journal>, n: nat, id: Id)
    requires IsRun(run) && 0 < n < |run| && Settled(run[n - 1].disk, run[n - 1].ids, id)
    ensures SettledSince(run[n - 1], run[n], id)
  {
    RunsKeepInv(run, n - 1);
    assert StepsTo(run, n);
    NextKeepsSettled(run[n - 1], run[n], id);
  }

  lemma SettledSinceTransitive(j: Journal, k: Journal, l: Journal, id: Id)
    requires SettledSince(j, k, id) && SettledSince(k, l, id)
    ensures SettledSince(j, l, id)
  {
  }

  /**
    Once a run's closed record is stored its stream never grows again, whatever
    restarts follow and even if the index is lost whole.
   */
  lemma {:induction false} ClosedStreamsNeverGrow(run: seq<Journal>, m: nat, n: nat, id: Id)
    requires IsRun(run) && m <= n < |run| && Settled(run[m].disk, run[m].ids, id)
    ensures SettledSince(run[m], run[n], id)
    decreases n - m
  {
    if m < n {
      ClosedStreamsNeverGrow(run, m, n - 1, id);
      RunStepKeepsSettled(run, n, id);
      SettledSinceTransitive(run[m], run[n - 1], run[n], id);
    }
  }

  // ---- Reported events stay ----------------------------------------------------------------------

  /** The step takes the run's stream whole. */
  predicate LosesStream(j: Journal, k: Journal, id: Id) { StreamOf(k.disk, id).kept < StreamOf(j.disk, id).kept }

  lemma LandingKeepsStream(d: Disk, id: Id, e: Event, fate: EventFate, other: Id)
    requires StreamOf(d, other).kept <= |StreamOf(d, other).items|
    ensures KeepsAll(StreamOf(d, other), StreamOf(Landed(d, id, e, fate), other))
  {
  }

  lemma AppendKeepsStream(j: Journal, id: Id, closing: bool, ticket: Option<nat>, event: EventFate, other: Id)
    requires StreamOf(j.disk, other).kept <= |StreamOf(j.disk, other).items|
    ensures KeepsAll(StreamOf(j.disk, other), StreamOf(AppendLocked(j, id, closing, ticket, event).disk, other))
  {
    LandingKeepsStream(j.disk, id, Event(NextSeq(j, id), closing, ticket), event, other);
  }

  lemma SealingKeepsStream(j: Journal, id: Id, mem: Memory, event: EventFate, other: Id)
    requires StreamOf(j.disk, other).kept <= |StreamOf(j.disk, other).items|
    ensures KeepsAll(StreamOf(j.disk, other), StreamOf(Sealing(j, id, mem, event).disk, other))
  {
    var written := j.(disk := Recorded(j.disk, Record(id, false), Stored), mem := mem.(runs := mem.runs[id := false]));
    AppendKeepsStream(written, id, true, None, event, other);
  }

  lemma OpenKeepsStream(j: Journal, id: Id, fate: Fate, event: EventFate, other: Id)
    requires StreamOf(j.disk, other).kept <= |StreamOf(j.disk, other).items|
    ensures KeepsAll(StreamOf(j.disk, other), StreamOf(OpenRun(j, id, fate, event).disk, other))
  {
    var d, ids := Recorded(j.disk, Record(id, true), fate), j.ids.(minted := j.ids.minted + {id});
    var opened' := j.(disk := d, ids := ids, mem := j.mem.(runs := j.mem.runs[id := true], openId := Some(id)));
    AppendKeepsStream(opened', id, false, None, event, other);
  }

  /** Every step but a power loss keeps what a stream kept. */
  lemma StepKeepsStream(j: Journal, a: Action, id: Id)
    requires StreamOf(j.disk, id).kept <= |StreamOf(j.disk, id).items| && Enabled(j, a) && !a.DoCrash?
    ensures KeepsAll(StreamOf(j.disk, id), StreamOf(Fire(j, a).disk, id))
  {
    match a
    case DoOpen(x, record, event) => OpenKeepsStream(j, x, record, event, id);
    case DoClose(x, _, event) =>
      SealingKeepsStream(j, x, if j.mem.openId == Some(x) then j.mem.(openId := None) else j.mem, event, id);
    case DoAppend(x, event) => AppendKeepsStream(j, x, false, None, event, id);
    case DoWrite(event) =>
      if j.mem.openId.Some? {
        var taken := j.(queue := j.queue.(writing := None));
        AppendKeepsStream(taken, j.mem.openId.value, false, j.queue.writing, event, id);
      }
    case DoRecover(_, event) =>
      SealingKeepsStream(j, j.mem.phase.todo[0], j.mem.(phase := Recovering(j.mem.phase.todo[1..])), event, id);
    case _ =>
  }

  /** A step keeps what a stream kept, exactly unless it is a power loss that takes the stream. */
  lemma NextKeepsStream(j: Journal, k: Journal, id: Id)
    requires StreamOf(j.disk, id).kept <= |StreamOf(j.disk, id).items| && Next(j, k)
    ensures KeepsAll(StreamOf(j.disk, id), StreamOf(k.disk, id)) <==> !LosesStream(j, k, id)
  {
    var a: Action :| Enabled(j, a) && k == Fire(j, a);
    if !a.DoCrash? {
      StepKeepsStream(j, a, id);
    } else if id in j.disk.streams {
      LossKeepsAllExactly(j.disk.streams[id], a.streams(id));
    }
  }

  lemma KeptIsThere(run: seq<Journal>, n: nat, id: Id)
    requires IsRun(run) && n < |run|
    ensures StreamOf(run[n].disk, id).kept <= |StreamOf(run[n].disk, id).items|
  {
    RunsKeepInv(run, n);
    assert StreamInv(run[n].disk, run[n].ids, id, Floor(run[n].queue));
  }

  lemma RunStepKeepsStream(run: seq<Journal>, n: nat, id: Id)
    requires IsRun(run) && 0 < n < |run| && !LosesStream(run[n - 1], run[n], id)
    ensures KeepsAll(StreamOf(run[n - 1].disk, id), StreamOf(run[n].disk, id))
  {
    KeptIsThere(run, n - 1, id);
    assert StepsTo(run, n);
    NextKeepsStream(run[n - 1], run[n], id);
  }

  ghost predicate KeepsStream(run: seq<Journal>, m: nat, n: nat, id: Id)
    requires n < |run|
  {
    forall i :: m < i <= n ==> !LosesStream(run[i - 1], run[i], id)
  }

  lemma {:induction false} KeptEventsStay(run: seq<Journal>, m: nat, n: nat, id: Id)
    requires IsRun(run) && m <= n < |run| && KeepsStream(run, m, n, id)
    ensures KeepsAll(StreamOf(run[m].disk, id), StreamOf(run[n].disk, id))
    decreases n - m
  {
    if m < n {
      KeptEventsStay(run, m, n - 1, id);
      RunStepKeepsStream(run, n, id);
      KeepsAllTransitive(StreamOf(run[m].disk, id), StreamOf(run[n - 1].disk, id), StreamOf(run[n].disk, id));
    } else {
      KeptIsThere(run, m, id);
    }
  }

  /**
    An event whose append reported success is in its place in the stream ever
    after, through every kill, power loss and restart that leaves the stream's file.
   */
  lemma ReportedEventsSurvive(run: seq<Journal>, m: nat, n: nat, id: Id, e: Event)
    requires IsRun(run) && 0 < m <= n < |run| && KeepsStream(run, m, n, id)
    requires StreamOf(run[m].disk, id) == Append(StreamOf(run[m - 1].disk, id), e, Stored)
    ensures var at := |StreamOf(run[m - 1].disk, id).items|;
            at < |StreamOf(run[n].disk, id).items| && StreamOf(run[n].disk, id).items[at] == e
  {
    KeptEventsStay(run, m, n, id);
    var before, after := StreamOf(run[m].disk, id), StreamOf(run[n].disk, id);
    assert after.items[|before.items| - 1] == after.items[..before.kept][|before.items| - 1];
  }

  // ---- The journal object ----------------------------------------------------------------------

  class RunRegistry {
    var disk: Disk
    var phase: Phase
    var runs: map<Id, bool>
    var openId: Option<Id>
    var next: map<Id, nat>
    var waiting: seq<nat>
    var writing: Option<nat>
    var tickets: nat
    var ids: Ids
    var strays: set<Id>

    function State(): Journal
      reads this
    {
      Journal(disk, Memory(phase, runs, openId, next), Queue(waiting, writing, tickets), ids, strays)
    }

    method AppendRecord(r: Record, fate: Fate) returns (ok: bool)
      modifies `disk
      ensures disk == Recorded(old(disk), r, fate) && ok == fate.Stored?
    {
      disk := disk.(index := Append(disk.index, r, fate));
      ok := fate.Stored?;
    }

    method AppendEventLocked(id: Id, closing: bool, ticket: Option<nat>, fate: EventFate) returns (ok: bool)
      modifies `disk, `next, `strays
      ensures State() == AppendLocked(old(State()), id, closing, ticket, fate)
      ensures ok == fate.EventStored?
    {
      var seqNo;
      if id in next {
        seqNo := next[id];
      } else {
        var max := ScanMaxSeq(StreamOf(disk, id).items);
        seqNo := max + 1;
      }
      if fate.EventMissed? {
        return false;
      }
      var grown := Append(StreamOf(disk, id), Event(seqNo, closing, ticket), FateOf(fate));
      disk := disk.(streams := disk.streams[id := grown]);
      if fate.EventStray? {
        strays := if id in next then strays + {id} else strays;
        return false;
      }
      next, strays := next[id := seqNo + 1], strays - {id};
      ok := fate.EventStored?;
    }

    method Open(id: Id, fate: Fate, event: EventFate) returns (ok: bool)
      modifies this
      ensures State() == OpenRun(old(State()), id, fate, event)
      ensures ok <==> old(openId).None? && fate.Stored?
      ensures ok ==>
                && openId == Some(id) && runs == old(runs)[id := true]
                && disk.index.items == old(disk).index.items + [Record(id, true)]
                && disk.index.kept == |disk.index.items|
      ensures !ok ==>
                runs == old(runs) && openId == old(openId) && next == old(next) && disk.streams == old(disk).streams
    {
      if openId.Some? {
        return false;
      }
      ids := ids.(minted := ids.minted + {id});
      ok := AppendRecord(Record(id, true), fate);
      if ok {
        runs, openId := runs[id := true], Some(id);
        var _ := AppendEventLocked(id, false, None, event);
      }
    }

    /** The run is closed in memory, then its closing event is journaled. */
    method Seal(id: Id, event: EventFate)
      modifies this
      ensures State() == Erased(AppendLocked(old(State()).(mem := old(State()).mem.(
                runs := old(runs)[id := false],
                openId := if old(openId) == Some(id) then None else old(openId))), id, true, None, event), id)
    {
      runs := runs[id := false];
      if openId == Some(id) {
        openId := None;
      }
      var _ := AppendEventLocked(id, true, None, event);
      next, strays := next - {id}, strays - {id};
    }

    method Close(id: Id, fate: Fate, event: EventFate) returns (ok: bool)
      modifies this
      ensures State() == CloseRun(old(State()), id, fate, event)
      ensures ok <==> id in old(runs) && (!old(runs)[id] || fate.Stored?)
      ensures ok && old(runs)[id] ==>
                && runs == old(runs)[id := false] && openId != Some(id) && id !in next
                && disk.index.items == old(disk).index.items + [Record(id, false)]
                && disk.index.kept == |disk.index.items|
      ensures !ok || !old(runs)[id] ==>
                runs == old(runs) && openId == old(openId) && next == old(next) && disk.streams == old(disk).streams
    {
      if id !in runs {
        return false;
      }
      if !runs[id] {
        return true;
      }
      ok := AppendRecord(Record(id, false), fate);
      if ok {
        Seal(id, event);
      }
    }

    method Enqueue()
      modifies `waiting, `tickets
      ensures State() == old(State()).(queue := EnqueueEvent(old(State()).queue))
    {
      if |waiting| < MAX_QUEUE {
        waiting := waiting + [tickets];
      }
      tickets := tickets + 1;
    }

    method WriterTakes()
      requires writing.None? && waiting != []
      modifies `waiting, `writing
      ensures State() == old(State()).(queue := TakeItem(old(State()).queue))
    {
      writing, waiting := Some(waiting[0]), waiting[1..];
    }

    method WriterPersists(event: EventFate)
      requires writing.Some?
      modifies this
      ensures State() == WriteItem(old(State()), event)
    {
      var item := writing;
      writing := None;
      if openId.Some? {
        var _ := AppendEventLocked(openId.value, false, item, event);
      }
    }

    /** The process ends. */
    method Stop()
      modifies this
      ensures State() == Killed(old(State()))
    {
      phase, runs, openId, next, strays := Down, map[], None, map[], {};
      waiting, writing := [], None;
    }

    /** The first half of `initialize`: the index, last record winning. */
    method ReadIndex()
      requires phase.Down?
      modifies this
      ensures State() == Restart(old(State()))
    {
      var order: seq<Id> := [];
      runs, openId, next, strays := map[], None, map[], {};
      for i := 0 to |disk.index.items|
        invariant disk == old(disk) && openId == None && next == map[]
        invariant State().queue == old(State()).queue && ids == old(ids) && strays == {}
        invariant runs == FoldRuns(disk.index.items[..i]) && order == FoldOrder(disk.index.items[..i])
      {
        var r := disk.index.items[i];
        assert disk.index.items[..i + 1][..i] == disk.index.items[..i];
        if r.id !in runs {
          order := order + [r.id];
        }
        runs := runs[r.id := r.isOpen];
      }
      assert disk.index.items[..|disk.index.items|] == disk.index.items;
      phase := Recovering(order);
    }

    /** One turn of its second half, which gives up when a record is not stored. */
    method RecoverRun(fate: Fate, event: EventFate) returns (ok: bool)
      requires phase.Recovering? && phase.todo != [] && openId.None?
      modifies this
      ensures State() == RecoverNext(old(State()), fate, event)
      ensures ok <==> old(phase.todo[0] !in runs || !runs[phase.todo[0]]) || fate.Stored?
    {
      var id := phase.todo[0];
      phase := Recovering(phase.todo[1..]);
      if id !in runs || !runs[id] {
        return true;
      }
      ok := AppendRecord(Record(id, false), fate);
      if ok {
        Seal(id, event);
      } else {
        Stop();
      }
    }
  }
}

/**
  From a numbered reachability edge to a safe-state re-assert:
  core/control/device_loss_latch.cpp feeding core/control/reissue_worker.cpp.

  Edges are decided in number order and delivered in any order, on any thread.
  A delivery that asks for a re-assert posts the handle afterwards, outside the
  latch's lock; one worker takes handles off the queue. Each lock section is
  one action, and re-arms and shutdown may come at any point.
 */
module ReissuePipeline {
  import opened Lists
  import opened Options
  import opened LossLatch

  /** `post`: a handle already waiting is not queued twice. */
  function Enqueue(queue: seq<string>, handle: string): seq<string> {
    if handle in queue then queue else queue + [handle]
  }

  class ReissueWorker {
    var queue: seq<string>
    var stopping: bool

    constructor ()
      ensures queue == [] && !stopping
    {
      queue, stopping := [], false;
    }

    method Post(handle: string) returns (accepted: bool)
      modifies this
      ensures accepted == !old(stopping) && stopping == old(stopping)
      ensures queue == if accepted then Enqueue(old(queue), handle) else old(queue)
      ensures accepted && handle !in old(queue) ==> queue == old(queue) + [handle]
      ensures accepted && handle in old(queue) ==> queue == old(queue)
      ensures NoDuplicates(old(queue)) ==> NoDuplicates(queue)
    {
      if stopping {
        return false;
      }
      var i := 0;
      while i < |queue| && queue[i] != handle
        invariant 0 <= i <= |queue| && handle !in queue[..i]
      {
        i := i + 1;
      }
      if i == |queue| {
        assert queue[..i] == queue;
        queue := queue + [handle];
      }
      return true;
    }

    /** The worker's lock section: the next handle to run, or none once it is stopping and drained. */
    method Take() returns (next: Option<string>)
      requires queue != [] || stopping
      modifies this
      ensures stopping == old(stopping)
      ensures old(queue) == [] ==> next == None && queue == []
      ensures old(queue) != [] ==> next == Some(old(queue)[0]) && queue == old(queue)[1..]
    {
      if queue == [] {
        return None;
      }
      next, queue := Some(queue[0]), queue[1..];
    }

    /** `stop`, and the worker's loop from there with nothing else posting: everything queued runs, in order. */
    method StopAndDrain() returns (ran: seq<string>)
      modifies this
      ensures stopping && queue == [] && ran == old(queue)
    {
      stopping := true;
      ran := [];
      while queue != []
        invariant stopping && ran + queue == old(queue)
        decreases |queue|
      {
        var next := Take();
        ran := ran + [next.value];
      }
    }
  }

  /** The history: a re-assert asked for, an accepted post, or a run of a handle. */
  datatype WorkerEvent = Asked(handle: string) | Accepted(handle: string) | Started(handle: string)

  /** First come, first re-asserted: a post moves no handle that waits, and is itself last if it is new. */
  lemma PostsKeepOrder(queue: seq<string>, handle: string, i: nat)
    requires i < |queue|
    ensures i < |Enqueue(queue, handle)| && Enqueue(queue, handle)[i] == queue[i]
    ensures handle !in queue ==> |Enqueue(queue, handle)| == |queue| + 1 && Enqueue(queue, handle)[|queue|] == handle
  {
  }

  /** `posting` holds the deliveries between the latch asking for a re-assert and the post. */
  datatype State = State(
    latch: Latch, counter: nat, flying: set<Edge>, posting: multiset<string>,
    queue: seq<string>, running: Option<string>, stopping: bool, exited: bool,
    refused: multiset<string>, log: seq<WorkerEvent>)

  ghost predicate Init(s: State) {
    s == State(Latch({}, map[]), 0, {}, multiset{}, [], None, false, false, multiset{}, [])
  }

  datatype Action =
    | Decide(handle: string, reachable: bool, status: Status)
    | DeliverEdge(e: Edge) | PostHandle(handle: string) | Release
    | TakeNext | Finish | Stop | Exit

  predicate Enabled(s: State, a: Action) {
    match a
    case Decide(_, _, _) => true
    case DeliverEdge(e) => e in s.flying
    case PostHandle(handle) => handle in s.posting
    case Release => true
    case TakeNext => s.running.None? && s.queue != [] && !s.exited
    case Finish => s.running.Some?
    case Stop => true
    case Exit => s.running.None? && s.queue == [] && s.stopping
  }

  function Fire(s: State, a: Action): State
    requires Enabled(s, a)
  {
    match a
    case Decide(handle, reachable, status) =>
      s.(counter := s.counter + 1, flying := s.flying + {Edge(handle, reachable, status, s.counter + 1)})
    case DeliverEdge(e) =>
      var (latch, reissue) := Apply(s.latch, e);
      s.(latch := latch, flying := s.flying - {e},
         posting := if reissue then s.posting + multiset{e.handle} else s.posting,
         log := if reissue then s.log + [Asked(e.handle)] else s.log)
    case PostHandle(handle) =>
      var posted := s.(posting := s.posting - multiset{handle});
      if s.stopping then posted.(refused := s.refused + multiset{handle})
      else posted.(queue := Enqueue(s.queue, handle), log := s.log + [Accepted(handle)])
    case Release => s.(latch := s.latch.(latched := {}))
    case TakeNext =>
      s.(running := Some(s.queue[0]), queue := s.queue[1..], log := s.log + [Started(s.queue[0])])
    case Finish => s.(running := None)
    case Stop => s.(stopping := true)
    case Exit => s.(exited := true)
  }

  ghost predicate Next(s: State, s': State) {
    exists a: Action :: Enabled(s, a) && s' == Fire(s, a)
  }

  ghost predicate StepsTo(run: seq<State>, i: nat)
    requires 0 < i < |run|
  {
    Next(run[i - 1], run[i])
  }

  ghost predicate IsRun(run: seq<State>) {
    run != [] && Init(run[0]) && forall i :: 0 < i < |run| ==> StepsTo(run, i)
  }

  // ---- No returned device is forgotten -------------------------------------------------

  /** A re-assert is about to be posted, is queued, or was refused because the worker was stopping. */
  predicate Pending(s: State, handle: string) {
    handle in s.posting || handle in s.queue || handle in s.refused
  }

  /** The step from `s` starts a re-assert of the handle. */
  predicate Starts(s: State, s': State, handle: string) {
    s.queue != [] && s.queue[0] == handle && s'.queue == s.queue[1..] && s'.running == Some(handle)
  }

  /** The latch asks for a re-assert on every edge that makes a device latched and returned. */
  lemma NewReturnAsks(l: Latch, e: Edge, handle: string)
    requires !l.Returned(handle) && Apply(l, e).0.Returned(handle)
    ensures Apply(l, e).1 && e.handle == handle
  {
  }

  /** A device newly latched and returned is pending. */
  lemma StepNoticesReturn(s: State, s': State, handle: string)
    requires Next(s, s') && !s.latch.Returned(handle) && s'.latch.Returned(handle)
    ensures handle in s'.posting
  {
    var a: Action :| Enabled(s, a) && s' == Fire(s, a);
    assert a.DeliverEdge?;
    NewReturnAsks(s.latch, a.e, handle);
  }

  lemma PostingIsPosted(s: State, a: Action, handle: string)
    requires Enabled(s, a) && handle in s.posting
    ensures Pending(Fire(s, a), handle)
  {
    var s' := Fire(s, a);
    if a == PostHandle(handle) {
      assert handle in s'.queue || handle in s'.refused;
    } else {
      assert s'.posting[handle] >= s.posting[handle];
    }
  }

  lemma QueuedStartsOrWaits(s: State, a: Action, handle: string)
    requires Enabled(s, a) && handle in s.queue
    ensures handle in Fire(s, a).queue || Starts(s, Fire(s, a), handle)
  {
    assert s.queue == [s.queue[0]] + s.queue[1..];
  }

  /** A pending re-assert stays pending until it starts. */
  lemma StepPursuesReturn(s: State, s': State, handle: string)
    requires Next(s, s') && Pending(s, handle)
    ensures Pending(s', handle) || Starts(s, s', handle)
  {
    var a: Action :| Enabled(s, a) && s' == Fire(s, a);
    if handle in s.posting {
      PostingIsPosted(s, a, handle);
    } else if handle in s.queue {
      QueuedStartsOrWaits(s, a, handle);
    }
  }

  /** Step `k` of the run starts a re-assert of the handle. */
  ghost predicate StartsAt(run: seq<State>, k: nat, handle: string) {
    k + 1 < |run| && Starts(run[k], run[k + 1], handle)
  }

  /** Latched and returned from state `k` through state `n`. */
  ghost predicate ReturnedThroughout(run: seq<State>, k: nat, n: nat, handle: string)
    requires n < |run|
  {
    forall j :: k <= j <= n ==> run[j].latch.Returned(handle)
  }

  /** A re-assert started at some step, with the device latched and returned from then to state `n`. */
  ghost predicate StartedSince(run: seq<State>, n: nat, handle: string)
    requires n < |run|
  {
    exists k: nat :: k < n && StartsAt(run, k, handle) && ReturnedThroughout(run, k, n, handle)
  }

  lemma StaysStarted(run: seq<State>, m: nat, handle: string)
    requires m + 1 < |run| && StartedSince(run, m, handle) && run[m + 1].latch.Returned(handle)
    ensures StartedSince(run, m + 1, handle)
  {
    var k: nat :| k < m && StartsAt(run, k, handle) && ReturnedThroughout(run, k, m, handle);
    assert ReturnedThroughout(run, k, m + 1, handle);
  }

  lemma PursuedOn(run: seq<State>, n: nat, handle: string)
    requires 0 < n < |run| && StepsTo(run, n) && Pending(run[n - 1], handle)
    requires run[n - 1].latch.Returned(handle) && run[n].latch.Returned(handle)
    ensures StartedSince(run, n, handle) || Pending(run[n], handle)
  {
    StepPursuesReturn(run[n - 1], run[n], handle);
    if Starts(run[n - 1], run[n], handle) {
      assert StartsAt(run, n - 1, handle) && ReturnedThroughout(run, n - 1, n, handle);
    }
  }

  /**
    End to end: whenever a device is latched and its newest applied edge is a
    return, a re-assert requested since both became true has been started, is
    queued or about to be posted, or came too late for a stopping worker.
   */
  lemma {:induction false} ReturnedDevicesAreReasserted(run: seq<State>, n: nat, handle: string)
    requires IsRun(run) && n < |run|
    requires run[n].latch.Returned(handle)
    ensures StartedSince(run, n, handle) || Pending(run[n], handle)
    decreases n
  {
    if n > 0 {
      var m: nat := n - 1;
      assert StepsTo(run, n);
      if !run[m].latch.Returned(handle) {
        StepNoticesReturn(run[m], run[n], handle);
      } else {
        ReturnedDevicesAreReasserted(run, m, handle);
        if StartedSince(run, m, handle) {
          StaysStarted(run, m, handle);
        } else {
          PursuedOn(run, n, handle);
        }
      }
    }
  }

  /** The refusal is only ever a post that came after the stop. */
  lemma RefusedOnlyAfterStop(s: State, s': State)
    requires Next(s, s') && !s.stopping
    ensures s'.refused == s.refused
  {
  }

  // ---- The worker's queue ----------------------------------------------------------------

  /** The post at position `i` of the history has been followed by a run of its handle. */
  ghost predicate Answered(log: seq<WorkerEvent>, i: nat)
    requires i < |log|
  {
    log[i].Accepted? && exists j :: i < j < |log| && log[j] == Started(log[i].handle)
  }

  ghost predicate QueueInv(s: State) {
    && NoDuplicates(s.queue)
    && (forall i: nat :: i < |s.log| && s.log[i].Accepted? ==> s.log[i].handle in s.queue || Answered(s.log, i))
    && (s.exited ==> s.queue == [] && s.stopping)
  }

  lemma LogGrows(log: seq<WorkerEvent>, event: WorkerEvent)
    ensures forall i: nat :: i < |log| && Answered(log, i) ==> Answered(log + [event], i)
    ensures event.Started? ==>
            forall i: nat :: i < |log| && log[i] == Accepted(event.handle) ==> Answered(log + [event], i)
  {
    var longer := log + [event];
    forall i: nat | i < |log| && Answered(log, i)
      ensures Answered(longer, i)
    {
      var j :| i < j < |log| && log[j] == Started(log[i].handle);
      assert longer[j] == Started(longer[i].handle);
    }
    assert longer[|log|] == event;
  }

  lemma PostKeepsQueue(s: State, handle: string)
    requires QueueInv(s) && handle in s.posting
    ensures QueueInv(Fire(s, PostHandle(handle)))
  {
    LogGrows(s.log, Accepted(handle));
  }

  lemma DeliveryKeepsQueue(s: State, e: Edge)
    requires QueueInv(s) && e in s.flying
    ensures QueueInv(Fire(s, DeliverEdge(e)))
  {
    LogGrows(s.log, Asked(e.handle));
  }

  lemma TakeKeepsQueue(s: State)
    requires QueueInv(s) && Enabled(s, TakeNext)
    ensures QueueInv(Fire(s, TakeNext))
  {
    LogGrows(s.log, Started(s.queue[0]));
    assert s.queue == [s.queue[0]] + s.queue[1..];
  }

  lemma StepKeepsQueue(s: State, s': State)
    requires QueueInv(s) && Next(s, s')
    ensures QueueInv(s')
  {
    var a: Action :| Enabled(s, a) && s' == Fire(s, a);
    match a
    case PostHandle(handle) => PostKeepsQueue(s, handle);
    case DeliverEdge(e) => DeliveryKeepsQueue(s, e);
    case TakeNext => TakeKeepsQueue(s);
    case _ =>
  }

  lemma {:induction false} RunsKeepQueue(run: seq<State>, n: nat)
    requires IsRun(run) && n < |run|
    ensures QueueInv(run[n])
  {
    if n > 0 {
      var m: nat := n - 1;
      RunsKeepQueue(run, m);
      assert StepsTo(run, n);
      StepKeepsQueue(run[m], run[m + 1]);
    }
  }

  /** The queue never holds a handle twice, and once the worker has exited every accepted post was followed by a run. */
  lemma StoppedWorkerOwesNothing(run: seq<State>, n: nat)
    requires IsRun(run) && n < |run|
    ensures NoDuplicates(run[n].queue)
    ensures run[n].exited ==>
            forall i: nat :: i < |run[n].log| && run[n].log[i].Accepted? ==> Answered(run[n].log, i)
  {
    RunsKeepQueue(run, n);
  }

  // ---- Nothing is re-asserted unasked -------------------------------------------------------

  /** The step to state m delivers an edge that asks for a re-assert of its device. */
  ghost predicate AsksAt(run: seq<State>, m: nat, e: Edge) {
    && 0 < m < |run| && e in run[m - 1].flying && run[m].latch == Apply(run[m - 1].latch, e).0
    && run[m].latch.Returned(e.handle)
    && ((e.reachable && e.number > run[m - 1].latch.Last(e.handle).number) || !run[m - 1].latch.Returned(e.handle))
  }

  lemma StepLogs(s: State, s': State)
    requires Next(s, s')
    ensures s.log <= s'.log && |s'.log| <= |s.log| + 1
  {
  }

  lemma StepAsks(s: State, s': State, handle: string) returns (e: Edge)
    requires Next(s, s') && s'.log == s.log + [Asked(handle)]
    ensures e in s.flying && e.handle == handle && s'.latch == Apply(s.latch, e).0 && Apply(s.latch, e).1
  {
    var a: Action :| Enabled(s, a) && s' == Fire(s, a);
    assert s'.log[|s.log|] == Asked(handle);
    assert a.DeliverEdge?;
    e := a.e;
  }

  /** Every re-assert asked for, in every run, was asked for as its device stood latched and returned. */
  lemma {:induction false} AskedWhenReturned(run: seq<State>, n: nat, i: nat) returns (m: nat, e: Edge)
    requires IsRun(run) && n < |run| && i < |run[n].log| && run[n].log[i].Asked?
    ensures m <= n && AsksAt(run, m, e) && e.handle == run[n].log[i].handle && |run[m - 1].log| == i
  {
    assert n != 0;
    assert StepsTo(run, n);
    StepLogs(run[n - 1], run[n]);
    if i < |run[n - 1].log| {
      m, e := AskedWhenReturned(run, n - 1, i);
    } else {
      m := n;
      e := StepAsks(run[n - 1], run[n], run[n].log[i].handle);
      AsksExactlyOnReturn(run[n - 1].latch, e);
    }
  }

  function Count(log: seq<WorkerEvent>, event: WorkerEvent): nat {
    if log == [] then 0 else Count(log[..|log| - 1], event) + if log[|log| - 1] == event then 1 else 0
  }

  lemma CountNext(log: seq<WorkerEvent>, last: WorkerEvent, event: WorkerEvent)
    ensures Count(log + [last], event) == Count(log, event) + if last == event then 1 else 0
  {
    assert (log + [last])[..|log|] == log;
  }

  /** What the history gains, for each kind of event of a handle. */
  lemma CountsNext(log: seq<WorkerEvent>, last: WorkerEvent, handle: string)
    ensures var all := log + [last];
            var asked, accepted, started := Asked(handle), Accepted(handle), Started(handle);
            && Count(all, asked) == Count(log, asked) + (if last == asked then 1 else 0)
            && Count(all, accepted) == Count(log, accepted) + (if last == accepted then 1 else 0)
            && Count(all, started) == Count(log, started) + (if last == started then 1 else 0)
  {
    CountNext(log, last, Asked(handle));
    CountNext(log, last, Accepted(handle));
    CountNext(log, last, Started(handle));
  }

  /**
    Of a handle, as many re-asserts were asked for as were accepted, refused or
    about to be posted, and no more were started or wait than were accepted.
   */
  predicate Conserves(s: State, handle: string) {
    && Count(s.log, Asked(handle)) == Count(s.log, Accepted(handle)) + s.posting[handle] + s.refused[handle]
    && Count(s.log, Started(handle)) + (if handle in s.queue then 1 else 0) <= Count(s.log, Accepted(handle))
  }

  lemma DeliveryConserves(s: State, e: Edge, handle: string)
    requires e in s.flying && Conserves(s, handle)
    ensures Conserves(Fire(s, DeliverEdge(e)), handle)
  {
    CountsNext(s.log, Asked(e.handle), handle);
  }

  lemma PostConserves(s: State, posted: string, handle: string)
    requires posted in s.posting && Conserves(s, handle)
    ensures Conserves(Fire(s, PostHandle(posted)), handle)
  {
    CountsNext(s.log, Accepted(posted), handle);
    assert handle in Enqueue(s.queue, posted) <==> handle in s.queue || handle == posted;
  }

  lemma TakeConserves(s: State, handle: string)
    requires Enabled(s, TakeNext) && NoDuplicates(s.queue) && Conserves(s, handle)
    ensures Conserves(Fire(s, TakeNext), handle)
  {
    CountsNext(s.log, Started(s.queue[0]), handle);
    assert s.queue == [s.queue[0]] + s.queue[1..];
    assert s.queue[0] !in s.queue[1..];
  }

  lemma QuietConserves(s: State, s': State, handle: string)
    requires Conserves(s, handle) && s'.log == s.log && s'.queue == s.queue
    requires s'.posting == s.posting && s'.refused == s.refused
    ensures Conserves(s', handle)
  {
  }

  lemma StepConserves(s: State, s': State, handle: string)
    requires Next(s, s') && NoDuplicates(s.queue) && Conserves(s, handle)
    ensures Conserves(s', handle)
  {
    var a: Action :| Enabled(s, a) && s' == Fire(s, a);
    match a
    case DeliverEdge(e) => DeliveryConserves(s, e, handle);
    case PostHandle(posted) => PostConserves(s, posted, handle);
    case TakeNext => TakeConserves(s, handle);
    case _ => QuietConserves(s, s', handle);
  }

  /** So no handle is posted, queued or started that was not asked for, and none more often. */
  lemma {:induction false} NothingReassertedUnasked(run: seq<State>, n: nat, handle: string)
    requires IsRun(run) && n < |run|
    ensures Conserves(run[n], handle)
  {
    if n > 0 {
      NothingReassertedUnasked(run, n - 1, handle);
      RunsKeepQueue(run, n - 1);
      assert StepsTo(run, n);
      StepConserves(run[n - 1], run[n], handle);
    }
  }
}

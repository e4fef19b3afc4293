/**
  The requested-pulse node of core/automation/bt_nodes.cpp. Times are in
  milliseconds.
 */
module Pulses {
  import opened Options

  datatype Settings = Settings(delay: int, pulse: int, maxQueued: int)

  predicate ValidSettings(c: Settings) { c.delay >= 0 && c.pulse > 0 && c.maxQueued >= 1 }

  datatype Node = Node(last: Option<int>, queued: int, running: bool, start: int)

  const IDLE := Node(None, 0, false, 0)

  datatype Output = Output(ok: bool, active: bool, queued: int)

  /** A pulse that has ended frees its place. */
  function Finished(c: Settings, n: Node, now: int): Node {
    if n.running && now >= n.start + c.pulse * 1000 then n.(running := false) else n
  }

  /** Presses since the last tick, as far as there is room. */
  function Accepted(c: Settings, n: Node, request: int): int {
    if n.last.None? || request <= n.last.value then 0
    else
      var room := c.maxQueued - n.queued - (if n.running then 1 else 0);
      var presses := request - n.last.value;
      var fits := if presses < room then presses else room;
      if fits > 0 then fits else 0
  }

  function Counted(c: Settings, n: Node, request: int): Node {
    n.(last := Some(request), queued := n.queued + Accepted(c, n, request))
  }

  predicate Starts(n: Node) { !n.running && n.queued > 0 }

  function Started(c: Settings, n: Node, now: int): Node {
    if Starts(n) then n.(queued := n.queued - 1, running := true, start := now + c.delay * 1000) else n
  }

  function Ticked(c: Settings, n: Node, request: Option<int>, now: int): Node {
    if request.None? || !ValidSettings(c) then n
    else Started(c, Counted(c, Finished(c, n, now), request.value), now)
  }

  class RequestedPulseWindowNode {
    var initialized: bool
    var lastRequest: int
    var queued: int
    var running: bool
    var start: int

    function State(): Node reads this { Node(if initialized then Some(lastRequest) else None, queued, running, start) }

    constructor ()
      ensures State() == IDLE
    {
      initialized, lastRequest, queued, running, start := false, 0, 0, false, 0;
    }

    method Tick(request: Option<int>, c: Settings, now: int) returns (out: Output)
      modifies this
      ensures State() == Ticked(c, old(State()), request, now)
      ensures out.ok <==> request.Some? && ValidSettings(c)
      ensures out.queued == queued
      ensures out.active <==> out.ok && running && start <= now < start + c.pulse * 1000
    {
      if request.None? || c.delay < 0 || c.pulse <= 0 || c.maxQueued < 1 {
        return Output(false, false, queued);
      }
      var pulseMs := c.pulse * 1000;
      if running && now >= start + pulseMs {
        running := false;
      }
      if !initialized {
        initialized, lastRequest := true, request.value;
      } else if request.value > lastRequest {
        var room := c.maxQueued - queued - (if running then 1 else 0);
        var fits := if request.value - lastRequest < room then request.value - lastRequest else room;
        queued := queued + if fits > 0 then fits else 0;
        lastRequest := request.value;
      } else if request.value < lastRequest {
        lastRequest := request.value;
      }
      if !running && queued > 0 {
        queued, running, start := queued - 1, true, now + c.delay * 1000;
      }
      return Output(true, running && start <= now < start + pulseMs, queued);
    }
  }

  /** One tick's inputs. */
  datatype Tick = Tick(request: Option<int>, now: int)

  /** The node, and its history: pulse starts, presses accepted, and how far the counter rose. */
  datatype History = History(node: Node, starts: seq<int>, accepted: int, risen: int)

  function Rise(n: Node, request: int): int {
    if n.last.Some? && request > n.last.value then request - n.last.value else 0
  }

  function Step(c: Settings, h: History, t: Tick): History {
    if t.request.None? then h
    else
      var finished := Finished(c, h.node, t.now);
      var counted := Counted(c, finished, t.request.value);
      History(Started(c, counted, t.now),
              if Starts(counted) then h.starts + [t.now + c.delay * 1000] else h.starts,
              h.accepted + Accepted(c, finished, t.request.value),
              h.risen + Rise(h.node, t.request.value))
  }

  function After(c: Settings, ticks: seq<Tick>): History {
    if ticks == [] then History(IDLE, [], 0, 0) else Step(c, After(c, ticks[..|ticks| - 1]), ticks[|ticks| - 1])
  }

  predicate InOrder(ticks: seq<Tick>) {
    forall i, j :: 0 <= i < j < |ticks| ==> ticks[i].now <= ticks[j].now
  }

  /** The history's node is the node the ticks leave. */
  lemma {:induction false} HistoryFollowsNode(c: Settings, ticks: seq<Tick>, t: Tick)
    requires ValidSettings(c)
    ensures After(c, ticks + [t]).node == Ticked(c, After(c, ticks).node, t.request, t.now)
  {
    assert (ticks + [t])[..|ticks|] == ticks;
  }

  predicate Inv(c: Settings, h: History) {
    && h.node.queued >= 0
    && h.node.queued + (if h.node.running then 1 else 0) <= c.maxQueued
    && |h.starts| + h.node.queued == h.accepted <= h.risen
    && (forall i :: 0 <= i < |h.starts| - 1 ==> h.starts[i + 1] >= h.starts[i] + c.pulse * 1000)
    && (h.node.running ==> h.starts != [] && h.node.start == h.starts[|h.starts| - 1])
  }

  /** While no pulse is running, the last one's window has passed. */
  predicate Passed(c: Settings, h: History, now: int) {
    !h.node.running && h.starts != [] ==> now >= h.starts[|h.starts| - 1] + c.pulse * 1000
  }

  lemma StepKeepsInv(c: Settings, h: History, t: Tick)
    requires ValidSettings(c) && Inv(c, h) && Passed(c, h, t.now)
    ensures Inv(c, Step(c, h, t)) && Passed(c, Step(c, h, t), t.now)
  {
  }

  /**
    Requested pulses, over every run of ticks in time order: at most `maxQueued`
    outstanding, every accepted press either started or still queued, no more
    accepted than pressed, and no two windows overlapping.
   */
  lemma {:induction false} RequestedPulsesKeepOrder(c: Settings, ticks: seq<Tick>)
    requires ValidSettings(c) && InOrder(ticks)
    ensures Inv(c, After(c, ticks))
    ensures ticks != [] ==> Passed(c, After(c, ticks), ticks[|ticks| - 1].now)
  {
    if ticks != [] {
      var front := ticks[..|ticks| - 1];
      RequestedPulsesKeepOrder(c, front);
      if front != [] {
        assert front[|front| - 1].now <= ticks[|ticks| - 1].now;
      }
      StepKeepsInv(c, After(c, front), ticks[|ticks| - 1]);
    }
  }

  /** No two windows overlap, however far apart in the run. */
  lemma {:induction false} WindowsAreDisjoint(c: Settings, h: History, i: nat, j: nat)
    requires ValidSettings(c) && Inv(c, h) && i < j < |h.starts|
    ensures h.starts[j] >= h.starts[i] + c.pulse * 1000
    decreases j - i
  {
    if i + 1 < j {
      WindowsAreDisjoint(c, h, i, j - 1);
    }
    assert h.starts[j - 1 + 1] >= h.starts[j - 1] + c.pulse * 1000;
  }

  /** Presses are dropped only when no room is left, and every other one is accepted. */
  lemma DroppedOnlyWhenFull(c: Settings, n: Node, request: int)
    requires ValidSettings(c) && n.queued >= 0 && n.queued + (if n.running then 1 else 0) <= c.maxQueued
    ensures 0 <= Accepted(c, n, request) <= Rise(n, request)
    ensures Accepted(c, n, request) < Rise(n, request) ==>
              n.queued + Accepted(c, n, request) + (if n.running then 1 else 0) == c.maxQueued
  {
  }

  /** A pulse runs no longer than its width, and none waits while none runs. */
  predicate Prompt(c: Settings, n: Node, now: int) {
    (n.running ==> now < n.start + c.pulse * 1000) && (!n.running ==> n.queued == 0)
  }

  /**
    What a tick does, over every run: a pulse that is over gives up its place, a
    press is dropped only for want of room, and a waiting press starts a pulse, a
    delay from now, as soon as none runs.
   */
  lemma TickIsPrompt(c: Settings, ticks: seq<Tick>, t: Tick)
    requires ValidSettings(c) && InOrder(ticks) && t.request.Some?
    ensures var before, after := After(c, ticks), After(c, ticks + [t]);
            var over := before.node.running && t.now >= before.node.start + c.pulse * 1000;
            var runs := before.node.running && !over;
            var gained := after.accepted - before.accepted;
            && Prompt(c, after.node, t.now)
            && (gained < Rise(before.node, t.request.value) ==>
                  before.node.queued + gained + (if runs then 1 else 0) == c.maxQueued)
            && after.starts == before.starts +
               (if !runs && before.node.queued + gained > 0 then [t.now + c.delay * 1000] else [])
            && (runs ==> after.node.running && after.node.start == before.node.start)
  {
    assert (ticks + [t])[..|ticks|] == ticks;
    RequestedPulsesKeepOrder(c, ticks);
    DroppedOnlyWhenFull(c, Finished(c, After(c, ticks).node, t.now), t.request.value);
  }
}

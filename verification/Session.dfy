/**
  One provider session: request and response over the framed pipe, with the
  health flag that ends it (core/provider/provider_handle.cpp).

  Requests are numbered by an atomic counter before they take the session's lock,
  so numbers are unique but need not be sent in order.
 */
module Session {
  import opened Framing
  import opened Octets
  import opened Options

  datatype Response = Response(id: nat, code: int)

  datatype Status = Deadline | Unavailable | Internal | Reported(code: int)

  const CODE_OK := 0

  /** How an exchange ended, and with which response. */
  datatype Outcome = NotSent | Unanswered | Answered(response: Response)

  /** One turn of the wait: the time limit, the poll, the process, and the calls a read would make. */
  datatype Wait = Wait(late: bool, data: bool, pollFailed: bool, running: bool, calls: seq<Io>)

  /** What the surroundings do during one request. */
  datatype World = World(locked: bool, running: bool, bytes: Option<seq<Byte>>, calls: seq<Io>, waits: seq<Wait>)

  /** The session as later requests see it: `written` and `answered` are request numbers. */
  datatype View = View(healthy: bool, written: set<nat>, answered: set<nat>)

  /** What one exchange may do to the session. */
  predicate ExchangeStep(s: View, id: nat, how: Outcome, t: View) {
    match how
    case NotSent => t.written == s.written && t.answered == s.answered && (t.healthy ==> s.healthy)
    case Unanswered => s.healthy && t == View(false, s.written + {id}, s.answered)
    case Answered(r) => r.id == id && s.healthy && t == View(true, s.written + {id}, s.answered + {id})
  }

  // ---- When a request is answered -------------------------------------------------------------------

  /** What a wait comes to: the response taken, the status, and what is left in the pipe. */
  datatype Awaited = Awaited(response: Option<Response>, status: Status, left: seq<Byte>)

  function Await(incoming: seq<Byte>, expected: nat, waits: seq<Wait>, parse: seq<Byte> -> Option<Response>): Awaited {
    if waits == [] || waits[0].late then Awaited(None, Deadline, incoming)
    else if waits[0].data then
      var t := FrameTaken(incoming, waits[0].calls);
      var left := incoming[t.moved..];
      if !t.ok then Awaited(None, Unavailable, left)
      else
        var parsed := parse(incoming[4..t.moved]);
        if parsed.Some? && parsed.value.id == expected then Awaited(parsed, Reported(parsed.value.code), left)
        else Awaited(None, Internal, left)
    else if waits[0].pollFailed || !waits[0].running then Awaited(None, Unavailable, incoming)
    else Await(incoming, expected, waits[1..], parse)
  }

  /** In time, nothing to read, and nothing wrong. */
  predicate IsQuiet(w: Wait) { !w.late && !w.data && !w.pollFailed && w.running }

  lemma {:induction false} QuietWaitsPass(incoming: seq<Byte>, expected: nat, waits: seq<Wait>,
                                          parse: seq<Byte> -> Option<Response>, k: nat)
    requires k <= |waits| && forall i :: 0 <= i < k ==> IsQuiet(waits[i])
    ensures Await(incoming, expected, waits, parse) == Await(incoming, expected, waits[k..], parse)
    decreases k
  {
    if k > 0 {
      assert IsQuiet(waits[0]);
      QuietWaitsPass(incoming, expected, waits[1..], parse, k - 1);
      assert waits[1..][k - 1..] == waits[k..];
    } else {
      assert waits[0..] == waits;
    }
  }

  /**
    A reply is taken exactly when, after quiet waits, one in time finds data and a
    whole frame that parses to a response carrying the expected number.
   */
  ghost predicate RepliesAt(incoming: seq<Byte>, expected: nat, waits: seq<Wait>, parse: seq<Byte> -> Option<Response>,
                            k: nat, r: Response)
  {
    && k < |waits| && (forall i :: 0 <= i < k ==> IsQuiet(waits[i])) && !waits[k].late && waits[k].data
    && var t := FrameTaken(incoming, waits[k].calls);
       t.ok && parse(incoming[4..t.moved]) == Some(r) && r.id == expected
  }

  lemma {:induction false} TakenExactlyWhenReplied(incoming: seq<Byte>, expected: nat, waits: seq<Wait>,
                                                   parse: seq<Byte> -> Option<Response>, r: Response)
    ensures Await(incoming, expected, waits, parse).response == Some(r) <==>
              exists k: nat :: RepliesAt(incoming, expected, waits, parse, k, r)
    decreases |waits|
  {
    if waits != [] && IsQuiet(waits[0]) {
      TakenExactlyWhenReplied(incoming, expected, waits[1..], parse, r);
      forall k: nat ensures RepliesAt(incoming, expected, waits[1..], parse, k, r) <==>
                              RepliesAt(incoming, expected, waits, parse, k + 1, r)
      {
        assert forall i :: 0 <= i < |waits| - 1 ==> waits[1..][i] == waits[i + 1];
        if RepliesAt(incoming, expected, waits, parse, k + 1, r) {
          forall i | 0 <= i < k ensures IsQuiet(waits[1..][i]) {
            assert IsQuiet(waits[i + 1]);
          }
        }
      }
      if exists k: nat :: RepliesAt(incoming, expected, waits, parse, k, r) {
        var k: nat :| RepliesAt(incoming, expected, waits, parse, k, r);
        assert RepliesAt(incoming, expected, waits[1..], parse, k - 1, r);
      }
    } else if waits != [] {
      forall k: nat | RepliesAt(incoming, expected, waits, parse, k, r) ensures k == 0 {
      }
      if Await(incoming, expected, waits, parse).response == Some(r) {
        assert RepliesAt(incoming, expected, waits, parse, 0, r);
      }
    }
  }

  /** So a reply that has arrived whole, and is read by calls that do not fail, is taken, and nothing after it. */
  lemma ArrivedReplyIsTaken(payload: seq<Byte>, tail: seq<Byte>, expected: nat, waits: seq<Wait>,
                            parse: seq<Byte> -> Option<Response>, k: nat, r: Response)
    requires |payload| <= MAX_FRAME_SIZE && parse(payload) == Some(r) && r.id == expected
    requires k < |waits| && (forall i :: 0 <= i < k ==> IsQuiet(waits[i])) && !waits[k].late && waits[k].data
    requires Smooth(waits[k].calls) && 4 + |payload| <= Moves(waits[k].calls)
    ensures Await(Frame(payload) + tail, expected, waits, parse) == Awaited(Some(r), Reported(r.code), tail)
  {
    var incoming := Frame(payload) + tail;
    SmoothCallsTake(payload, tail, waits[k].calls);
    QuietWaitsPass(incoming, expected, waits, parse, k);
    assert waits[k..][0] == waits[k];
    assert incoming[4..4 + |payload|] == payload && incoming[4 + |payload|..] == tail;
  }

  class ProviderHandle {
    const client: FramedStdioClient
    var healthy: bool
    var lastStatus: Status
    var written: set<nat>
    var answered: set<nat>

    function State(): View reads this { View(healthy, written, answered) }

    constructor (c: FramedStdioClient)
      ensures client == c && State() == View(false, {}, {})
    {
      client, healthy, lastStatus, written, answered := c, false, Reported(CODE_OK), {}, {};
    }

    /** Only a response carrying the expected number is taken; anything else ends the session. */
    method WaitForResponse(expected: nat, waits: seq<Wait>, parse: seq<Byte> -> Option<Response>)
      returns (response: Option<Response>, status: Status)
      modifies `healthy, client`incoming, client`failed
      ensures response.Some? ==>
                response.value.id == expected && healthy == old(healthy) && status == Reported(response.value.code)
      ensures response.None? ==> !healthy && !status.Reported?
      ensures Awaited(response, status, client.incoming) == Await(old(client.incoming), expected, waits, parse)
    {
      response := None;
      var i := 0;
      while i < |waits| && !waits[i].late
        invariant 0 <= i <= |waits| && healthy == old(healthy) && client.incoming == old(client.incoming)
        invariant Await(client.incoming, expected, waits[i..], parse) == Await(client.incoming, expected, waits, parse)
      {
        var w := waits[i];
        assert waits[i..][0] == w && waits[i..][1..] == waits[i + 1..];
        client.failed := false;
        if w.data {
          var ok, payload, rest := client.ReadFrame(w.calls);
          if ok {
            var parsed := parse(payload);
            if parsed.None? {
              healthy := false;
              return None, Internal;
            }
            if parsed.value.id != expected {
              healthy := false;
              return None, Internal;
            }
            return parsed, Reported(parsed.value.code);
          }
          if client.failed {
            healthy := false;
            status := Unavailable;
          } else {
            status := Deadline;
          }
          return;
        } else if w.pollFailed {
          client.failed := true;
          healthy := false;
          return None, Unavailable;
        }
        if !w.running {
          healthy := false;
          return None, Unavailable;
        }
        i := i + 1;
      }
      assert i < |waits| ==> waits[i..][0] == waits[i];
      healthy := false;
      status := Deadline;
    }

    /** Whatever happens, the session is what `ExchangeStep` says. */
    method SendRequest(id: nat, world: World, parse: seq<Byte> -> Option<Response>)
      returns (ok: bool, status: Status, how: Outcome)
      modifies this, client
      ensures ExchangeStep(old(State()), id, how, State())
      ensures how.Answered? ==> status == Reported(how.response.code) && (ok <==> how.response.code == CODE_OK)
      ensures !how.Answered? ==> !ok && !status.Reported?
      ensures world.locked ==> lastStatus == status
      ensures !world.locked ==> State() == old(State()) && lastStatus == old(lastStatus)
      ensures how.NotSent? <==> !world.locked || !old(healthy) || !world.running || world.bytes.None?
      ensures how.NotSent? && world.running ==> healthy == old(healthy)
      ensures how.Answered? <==>
                && world.locked && old(healthy) && world.running && world.bytes.Some?
                && FrameSent(|world.bytes.value|, world.calls).ok
                && Await(old(client.incoming), id, world.waits, parse).response.Some?
      ensures how.Answered? ==> Some(how.response) == Await(old(client.incoming), id, world.waits, parse).response
    {
      how := NotSent;
      if !world.locked {
        return false, Deadline, how;
      }
      if !healthy {
        lastStatus := Unavailable;
        return false, Unavailable, how;
      }
      if !world.running {
        healthy, lastStatus := false, Unavailable;
        return false, Unavailable, how;
      }
      if world.bytes.None? {
        lastStatus := Internal;
        return false, Internal, how;
      }
      how := Unanswered;
      written := written + {id};
      var sent, rest := client.WriteFrame(world.bytes.value, world.calls);
      if !sent {
        healthy, lastStatus := false, Unavailable;
        return false, Unavailable, how;
      }
      var response;
      response, status := WaitForResponse(id, world.waits, parse);
      lastStatus := status;
      if response.None? {
        return false, status, how;
      }
      how := Answered(response.value);
      answered := answered + {id};
      ok := response.value.code == CODE_OK;
    }

    /** Ends the session; the process is then shut down. */
    method Stop()
      modifies `healthy
      ensures State() == old(State()).(healthy := false)
    {
      healthy := false;
    }
  }

  // ---- The session and its provider, over whole runs ----------------------------------------------

  /**
    `numbered` holds the numbers given out and not yet used, `current` the request
    that holds the lock, `pipe` the numbers on the frames on their way, and `taken`
    each request answered with the number its reply carried. `honest` says that so
    far the provider has only replied to requests it was sent, once each.
   */
  datatype Link = Link(
    healthy: bool, next: nat, numbered: set<nat>, current: Option<nat>, written: set<nat>, answered: set<nat>,
    replied: set<nat>, pipe: seq<nat>, taken: seq<(nat, nat)>, honest: bool)

  datatype Action =
    | GetNumber
    | GiveUpUnsent(id: nat)
    | Begin(id: nat)
    | Arrive(number: nat)
    | Accept
    | Fail(read: nat)
    | End

  /** The provider may send frames with any number at any time. */
  predicate Enabled(l: Link, a: Action) {
    match a
    case GetNumber => true
    case GiveUpUnsent(id) => id in l.numbered
    case Begin(id) => l.current.None? && l.healthy && id in l.numbered
    case Arrive(_) => true
    case Accept => l.current.Some? && l.healthy && l.pipe != [] && l.pipe[0] == l.current.value
    case Fail(read) => l.current.Some? && read <= |l.pipe|
    case End => true
  }

  function Fire(l: Link, a: Action): Link
    requires Enabled(l, a)
  {
    match a
    case GetNumber => l.(next := l.next + 1, numbered := l.numbered + {l.next})
    case GiveUpUnsent(id) => l.(numbered := l.numbered - {id})
    case Begin(id) => l.(current := Some(id), numbered := l.numbered - {id}, written := l.written + {id})
    case Arrive(number) =>
      l.(pipe := l.pipe + [number], replied := l.replied + {number},
         honest := l.honest && number in l.written && number !in l.replied)
    case Accept =>
      l.(current := None, answered := l.answered + {l.current.value}, pipe := l.pipe[1..],
         taken := l.taken + [(l.current.value, l.pipe[0])])
    case Fail(read) => l.(current := None, healthy := false, pipe := l.pipe[read..])
    case End => l.(healthy := false)
  }

  ghost predicate Next(l: Link, m: Link) {
    exists a: Action :: Enabled(l, a) && m == Fire(l, a)
  }

  /** A handle that has just been started. */
  const STARTED := Link(true, 1, {}, None, {}, {}, {}, [], [], true)

  ghost predicate IsRun(run: seq<Link>) {
    && |run| > 0 && run[0] == STARTED
    && forall i :: 0 < i < |run| ==> Next(run[i - 1], run[i])
  }

  /** Whatever the provider sends. */
  predicate SessionInv(l: Link) {
    && (forall id <- l.numbered :: id < l.next && id !in l.written)
    && (forall id <- l.written :: id < l.next)
    && l.answered <= l.written
    && (l.current.Some? ==> l.current.value in l.written && l.current.value !in l.answered)
    && (l.healthy ==> l.written == l.answered + if l.current.Some? then {l.current.value} else {})
  }

  predicate TakenInv(l: Link) {
    && (forall i :: 0 <= i < |l.taken| ==> l.taken[i].0 == l.taken[i].1 && l.taken[i].0 in l.answered)
    && (forall i, j :: 0 <= i < j < |l.taken| ==> l.taken[i].0 != l.taken[j].0)
  }

  /** While the provider is honest and the session healthy, nothing stale is in the pipe. */
  predicate PipeInv(l: Link) {
    l.honest ==>
      && l.replied <= l.written
      && (l.healthy ==>
            && l.answered <= l.replied
            && l.pipe == if l.current.Some? && l.current.value in l.replied then [l.current.value] else [])
  }

  predicate Inv(l: Link) { SessionInv(l) && TakenInv(l) && PipeInv(l) }

  lemma StepKeepsSession(l: Link, a: Action)
    requires SessionInv(l) && Enabled(l, a)
    ensures SessionInv(Fire(l, a))
  {
  }

  lemma StepKeepsTaken(l: Link, a: Action)
    requires SessionInv(l) && TakenInv(l) && Enabled(l, a)
    ensures TakenInv(Fire(l, a))
  {
    if a.Accept? {
      var id, taken := l.current.value, Fire(l, a).taken;
      assert forall i :: 0 <= i < |l.taken| ==> taken[i] == l.taken[i] && l.taken[i].0 != id;
    }
  }

  lemma StepKeepsPipe(l: Link, a: Action)
    requires SessionInv(l) && PipeInv(l) && Enabled(l, a)
    ensures PipeInv(Fire(l, a))
  {
    match a
    case Begin(id) => assert id !in l.written;
    case _ =>
  }

  lemma {:induction false} RunsKeepInv(run: seq<Link>, n: nat)
    requires IsRun(run) && n < |run|
    ensures Inv(run[n])
  {
    if n > 0 {
      RunsKeepInv(run, n - 1);
      var a: Action :| Enabled(run[n - 1], a) && run[n] == Fire(run[n - 1], a);
      StepKeepsSession(run[n - 1], a);
      StepKeepsTaken(run[n - 1], a);
      StepKeepsPipe(run[n - 1], a);
    }
  }

  /**
    Whatever the provider sends: each reply taken carries the number of the
    request it was taken for, and that number is no other request's, so no
    earlier request's reply is ever taken.
   */
  lemma RepliesTakenAreOwn(run: seq<Link>, n: nat, i: nat, j: nat)
    requires IsRun(run) && n < |run| && i < |run[n].taken| && j < |run[n].taken|
    ensures run[n].taken[j].1 == run[n].taken[i].0 <==> i == j
  {
    RunsKeepInv(run, n);
    var taken := run[n].taken;
    if i < j {
      assert taken[i].0 != taken[j].0;
    } else if j < i {
      assert taken[j].0 != taken[i].0;
    }
  }

  /**
    With an honest provider nothing stale even arrives: while the session is
    healthy every request sent has had its own reply consumed, but for the one in
    flight, and the pipe holds at most that one's.
   */
  lemma HealthySessionHasNoStaleReply(run: seq<Link>, n: nat)
    requires IsRun(run) && n < |run| && run[n].healthy
    ensures forall id <- run[n].written :: id in run[n].answered || run[n].current == Some(id)
    ensures run[n].honest ==> |run[n].pipe| <= 1 && forall id <- run[n].pipe :: run[n].current == Some(id)
  {
    RunsKeepInv(run, n);
  }

  /** Unhealthy once, unhealthy for good: nothing more is sent and no reply is taken. */
  lemma {:induction false} UnhealthyForGood(run: seq<Link>, m: nat, n: nat)
    requires IsRun(run) && m <= n < |run| && !run[m].healthy
    ensures !run[n].healthy && run[n].written == run[m].written && run[n].taken == run[m].taken
    decreases n - m
  {
    if m < n {
      UnhealthyForGood(run, m, n - 1);
      var a: Action :| Enabled(run[n - 1], a) && run[n] == Fire(run[n - 1], a);
    }
  }

  /** A request sent, no longer in flight and not answered, has ended the session. */
  lemma UnansweredEndsSession(run: seq<Link>, n: nat, id: nat)
    requires IsRun(run) && n < |run| && id in run[n].written && id !in run[n].answered && run[n].current != Some(id)
    ensures !run[n].healthy
  {
    RunsKeepInv(run, n);
  }

  // ---- The object's exchanges are steps of these runs ------------------------------------------------

  function Seen(l: Link): View { View(l.healthy, l.written, l.answered) }

  ghost predicate Reaches(l: Link, m: Link) {
    exists path: seq<Link> ::
      && |path| > 0 && path[0] == l && path[|path| - 1] == m
      && forall i :: 0 < i < |path| ==> Next(path[i - 1], path[i])
  }

  lemma Takes(l: Link, a: Action)
    requires Enabled(l, a)
    ensures Next(l, Fire(l, a))
  {
  }

  lemma ReachesInTwo(l: Link, a: Action, b: Action)
    requires Enabled(l, a) && Enabled(Fire(l, a), b)
    ensures Reaches(l, Fire(l, a)) && Reaches(l, Fire(Fire(l, a), b))
  {
    Takes(l, a);
    Takes(Fire(l, a), b);
    var m, k := Fire(l, a), Fire(Fire(l, a), b);
    var one, two := [l, m], [l, m, k];
    assert one[|one| - 1] == m && two[|two| - 1] == k;
  }

  lemma ReachesThen(l: Link, m: Link, a: Action)
    requires Reaches(l, m) && Enabled(m, a)
    ensures Reaches(l, Fire(m, a))
  {
    Takes(m, a);
    var path: seq<Link> :|
      && |path| > 0 && path[0] == l && path[|path| - 1] == m
      && forall i :: 0 < i < |path| ==> Next(path[i - 1], path[i]);
    var longer := path + [Fire(m, a)];
    forall i | 0 < i < |longer| ensures Next(longer[i - 1], longer[i]) {
      if i < |path| {
        assert longer[i - 1] == path[i - 1] && longer[i] == path[i];
      }
    }
    assert longer[|longer| - 1] == Fire(m, a);
  }

  /**
    Whatever an exchange of the object does to the session, steps of the runs do.
    A response can only be taken from the front of the pipe.
   */
  lemma EveryExchangeIsSteps(l: Link, id: nat, how: Outcome, t: View)
    requires ExchangeStep(Seen(l), id, how, t) && id in l.numbered && l.current.None?
    requires how.Answered? && l.pipe != [] ==> l.pipe[0] == id
    ensures exists m: Link :: Reaches(l, m) && Seen(m) == t
  {
    match how
    case NotSent =>
      ReachesInTwo(l, GiveUpUnsent(id), End);
      var unsent := Fire(l, GiveUpUnsent(id));
      assert Seen(if t.healthy then unsent else Fire(unsent, End)) == t;
    case Unanswered =>
      ReachesInTwo(l, Begin(id), Fail(0));
      assert Seen(Fire(Fire(l, Begin(id)), Fail(0))) == t;
    case Answered(_) =>
      var sent := Fire(l, Begin(id));
      if l.pipe == [] {
        ReachesInTwo(l, Begin(id), Arrive(id));
        var arrived := Fire(sent, Arrive(id));
        ReachesThen(l, arrived, Accept);
        assert Seen(Fire(arrived, Accept)) == t;
      } else {
        ReachesInTwo(l, Begin(id), Accept);
        assert Seen(Fire(sent, Accept)) == t;
      }
  }
}

/**
  Length-prefixed frames over a byte pipe, as
  core/provider/framed_stdio_client.cpp reads and writes them.

  What the operating system does to each call is a parameter: a list of partial
  transfers, interruptions, failures and expired time limits, taken in turn.
 */
module Framing {
  import opened Octets

  const MAX_FRAME_SIZE := 1024 * 1024

  // ---- The format ----------------------------------------------------------------------------

  function Header(n: nat): seq<Byte> {
    [n % 256, n / 256 % 256, n / 65536 % 256, n / 16777216 % 256]
  }

  function LengthOf(header: seq<Byte>): nat
    requires |header| == 4
  {
    header[0] as int + 256 * header[1] as int + 65536 * header[2] as int + 16777216 * header[3] as int
  }

  function Frame(payload: seq<Byte>): seq<Byte> { Header(|payload|) + payload }

  function Frames(payloads: seq<seq<Byte>>): seq<Byte> {
    if payloads == [] then [] else Frame(payloads[0]) + Frames(payloads[1..])
  }

  predicate Fits(payloads: seq<seq<Byte>>) {
    forall i :: 0 <= i < |payloads| ==> |payloads[i]| <= MAX_FRAME_SIZE
  }

  lemma Quarters(n: nat)
    ensures n / 65536 == n / 256 / 256 && n / 16777216 == n / 256 / 256 / 256
  {
    var a := n / 256;
    var b := a / 256;
    var c := b / 256;
    assert n == 256 * a + n % 256 && a == 256 * b + a % 256 && b == 256 * c + b % 256;
    assert n == 65536 * b + (256 * (a % 256) + n % 256);
    assert n == 16777216 * c + (65536 * (b % 256) + 256 * (a % 256) + n % 256);
  }

  lemma HeaderRoundTrip(n: nat)
    requires n < 0x1_0000_0000
    ensures LengthOf(Header(n)) == n && |Header(n)| == 4
    ensures var h := Header(n);
            n == h[0] as int + 0x100 * h[1] as int + 0x1_0000 * h[2] as int + 0x100_0000 * h[3] as int
  {
    Quarters(n);
    var a := n / 256;
    var b := a / 256;
    assert b / 256 < 256;
  }

  lemma FramesCons(payloads: seq<seq<Byte>>, tail: seq<Byte>)
    requires payloads != []
    ensures Frames(payloads) + tail == Header(|payloads[0]|) + (payloads[0] + (Frames(payloads[1..]) + tail))
  {
  }

  lemma {:induction false} FramesSnoc(payloads: seq<seq<Byte>>, payload: seq<Byte>)
    ensures Frames(payloads + [payload]) == Frames(payloads) + Frame(payload)
  {
    if payloads == [] {
      assert payloads + [payload] == [payload] && [payload][1..] == [];
      assert Frames([payload]) == Frame(payload) + [];
    } else {
      assert (payloads + [payload])[1..] == payloads[1..] + [payload];
      FramesSnoc(payloads[1..], payload);
      var first, rest, last := Frame(payloads[0]), Frames(payloads[1..]), Frame(payload);
      assert first + (rest + last) == first + rest + last;
    }
  }

  /** No stream is that of two lists, nor the front of another's. */
  lemma {:induction false} FramesDetermineList(a: seq<seq<Byte>>, b: seq<seq<Byte>>, tail: seq<Byte>)
    requires Fits(a) && Fits(b) && Frames(a) + tail == Frames(b)
    ensures a <= b && Frames(b[|a|..]) == tail
    decreases |a|
  {
    if a == [] {
      assert Frames(a) + tail == tail && b[0..] == b;
    } else {
      FramesCons(a, tail);
      var stream := Frames(a) + tail;
      assert |stream| > 0;
      FramesCons(b, []);
      assert stream == Frames(b) + [];
      SameHead(a[0], Frames(a[1..]) + tail, b[0], Frames(b[1..]) + []);
      assert Frames(b[1..]) + [] == Frames(b[1..]);
      FramesDetermineList(a[1..], b[1..], tail);
      assert b[1..][|a| - 1..] == b[|a|..];
      assert a == [a[0]] + a[1..] && b == [b[0]] + b[1..];
    }
  }

  lemma SplitsHead(p: seq<Byte>, x: seq<Byte>)
    ensures var s := Header(|p|) + (p + x);
            |s| >= 4 + |p| && s[..4] == Header(|p|) && s[4..4 + |p|] == p && s[4 + |p|..] == x
  {
  }

  lemma SameHead(p: seq<Byte>, x: seq<Byte>, q: seq<Byte>, y: seq<Byte>)
    requires |p| <= MAX_FRAME_SIZE && |q| <= MAX_FRAME_SIZE && Header(|p|) + (p + x) == Header(|q|) + (q + y)
    ensures p == q && x == y
  {
    SplitsHead(p, x);
    SplitsHead(q, y);
    HeaderRoundTrip(|p|);
    HeaderRoundTrip(|q|);
  }

  // ---- What the calls amount to ---------------------------------------------------------------

  /** One system call: it moves up to so many bytes, is interrupted, fails, or the time limit has passed. */
  datatype Io = Moved(upTo: nat) | Interrupted | Failed | TimedOut

  datatype Transferred = Transferred(moved: nat, ok: bool, rest: seq<Io>)

  /** Moving `due` bytes with `ready` of them to be had: how many move, and the calls left over. */
  function Transfer(due: nat, ready: nat, calls: seq<Io>): (t: Transferred)
    ensures t.moved <= due && t.moved <= ready && (t.ok <==> t.moved == due) && |t.rest| <= |calls|
    decreases |calls|
  {
    if due == 0 then Transferred(0, true, calls)
    else if calls == [] || calls[0].TimedOut? || calls[0].Failed? then Transferred(0, false, calls)
    else if calls[0].Interrupted? then Transfer(due, ready, calls[1..])
    else
      var w := Least(Least(calls[0].upTo, due), ready);
      if w == 0 then Transferred(0, false, calls[1..])
      else
        var t := Transfer(due - w, ready - w, calls[1..]);
        t.(moved := w + t.moved)
  }

  /** No call fails, comes too late or moves nothing. */
  predicate Smooth(calls: seq<Io>) {
    forall i :: 0 <= i < |calls| ==> calls[i].Interrupted? || (calls[i].Moved? && calls[i].upTo > 0)
  }

  function Moves(calls: seq<Io>): nat {
    if calls == [] then 0 else (if calls[0].Moved? then 1 else 0) + Moves(calls[1..])
  }

  /** However they cut the bytes, smooth calls move them all, and use no more calls than there are bytes. */
  lemma {:induction false} SmoothCallsTransfer(due: nat, ready: nat, calls: seq<Io>)
    requires Smooth(calls) && due <= ready && due <= Moves(calls)
    ensures var t := Transfer(due, ready, calls);
            t.ok && Smooth(t.rest) && Moves(t.rest) + due >= Moves(calls)
    decreases |calls|
  {
    if due > 0 {
      var rest := calls[1..];
      assert forall i :: 0 <= i < |rest| ==> rest[i] == calls[i + 1];
      if calls[0].Interrupted? {
        SmoothCallsTransfer(due, ready, rest);
      } else {
        var w := Least(Least(calls[0].upTo, due), ready);
        SmoothCallsTransfer(due - w, ready - w, rest);
      }
    }
  }

  /** Bytes that are there stop short only at a call that fails, is late or moves nothing, or for want of calls. */
  lemma {:induction false} ShortTransferHasCause(due: nat, ready: nat, calls: seq<Io>)
    requires due <= ready && !Transfer(due, ready, calls).ok
    ensures var rest := Transfer(due, ready, calls).rest;
            || rest == [] || rest[0].Failed? || rest[0].TimedOut?
            || (|rest| < |calls| && calls[|calls| - |rest| - 1] == Moved(0))
    decreases |calls|
  {
    if calls != [] && !calls[0].TimedOut? && !calls[0].Failed? {
      var more := calls[1..];
      if calls[0].Interrupted? {
        ShortTransferHasCause(due, ready, more);
        var rest := Transfer(due, ready, more).rest;
        assert |rest| < |more| ==> more[|more| - |rest| - 1] == calls[|calls| - |rest| - 1];
      } else {
        var w := Least(Least(calls[0].upTo, due), ready);
        if w > 0 {
          ShortTransferHasCause(due - w, ready - w, more);
          var rest := Transfer(due - w, ready - w, more).rest;
          assert |rest| < |more| ==> more[|more| - |rest| - 1] == calls[|calls| - |rest| - 1];
        }
      }
    }
  }

  /** A header, then that many bytes. */
  function FrameSent(n: nat, calls: seq<Io>): (t: Transferred)
    ensures t.ok ==> t.moved == 4 + n
    ensures !t.ok ==> t.moved < 4 + n
  {
    if n > MAX_FRAME_SIZE then Transferred(0, false, calls)
    else
      var head := Transfer(4, 4, calls);
      if !head.ok then head
      else
        var body := Transfer(n, n, head.rest);
        body.(moved := 4 + body.moved)
  }

  /** A header, then as many bytes as it says, of those that have arrived. */
  function FrameTaken(stream: seq<Byte>, calls: seq<Io>): (t: Transferred)
    ensures t.moved <= |stream|
    ensures t.ok ==> t.moved >= 4 && t.moved == 4 + LengthOf(stream[..4]) <= 4 + MAX_FRAME_SIZE
  {
    var head := Transfer(4, |stream|, calls);
    if !head.ok then head
    else if LengthOf(stream[..4]) > MAX_FRAME_SIZE then head.(ok := false)
    else
      var body := Transfer(LengthOf(stream[..4]), |stream| - 4, head.rest);
      body.(moved := 4 + body.moved)
  }

  lemma SmoothCallsSend(n: nat, calls: seq<Io>)
    requires n <= MAX_FRAME_SIZE && Smooth(calls) && 4 + n <= Moves(calls)
    ensures var t := FrameSent(n, calls);
            t.ok && Smooth(t.rest) && Moves(t.rest) + 4 + n >= Moves(calls)
  {
    SmoothCallsTransfer(4, 4, calls);
    SmoothCallsTransfer(n, n, Transfer(4, 4, calls).rest);
  }

  /** A frame that has arrived is taken whole, and nothing after it. */
  lemma SmoothCallsTake(payload: seq<Byte>, tail: seq<Byte>, calls: seq<Io>)
    requires |payload| <= MAX_FRAME_SIZE && Smooth(calls) && 4 + |payload| <= Moves(calls)
    ensures var t := FrameTaken(Frame(payload) + tail, calls);
            t.ok && t.moved == 4 + |payload| && Smooth(t.rest) && Moves(t.rest) + 4 + |payload| >= Moves(calls)
  {
    var stream := Frame(payload) + tail;
    assert stream[..4] == Header(|payload|);
    HeaderRoundTrip(|payload|);
    SmoothCallsTransfer(4, |stream|, calls);
    SmoothCallsTransfer(|payload|, |stream| - 4, Transfer(4, |stream|, calls).rest);
  }

  /** After some calls: what is still due, through the calls left, is the whole less what has moved. */
  predicate Progress(whole: Transferred, moved: nat, left: Transferred) {
    whole == left.(moved := moved + left.moved)
  }

  lemma TakenNext(stream: seq<Byte>, k: nat, r: nat)
    requires k + r <= |stream|
    ensures stream[..k] + stream[k..][..r] == stream[..k + r] && stream[k..][r..] == stream[k + r..]
  {
  }

  // ---- The client ----------------------------------------------------------------------------

  class FramedStdioClient {
    /** Everything written, and what has arrived and is unread. */
    var sent: seq<Byte>
    var incoming: seq<Byte>
    /** Whether `error_` is not empty. */
    var failed: bool

    constructor ()
      ensures sent == [] && incoming == [] && !failed
    {
      sent, incoming, failed := [], [], false;
    }

    /** Writes as much of the buffer as the calls move, and says so if that is not all. */
    method WriteExact(buf: seq<Byte>, calls: seq<Io>) returns (ok: bool, rest: seq<Io>)
      modifies `sent, `failed
      ensures var t := Transfer(|buf|, |buf|, calls);
              ok == t.ok && rest == t.rest && sent == old(sent) + buf[..t.moved]
      ensures failed == (old(failed) || !ok)
    {
      var total := 0;
      rest := calls;
      ghost var whole := Transfer(|buf|, |buf|, calls);
      while total < |buf|
        invariant 0 <= total <= |buf| && sent == old(sent) + buf[..total] && failed == old(failed)
        invariant Progress(whole, total, Transfer(|buf| - total, |buf| - total, rest))
        decreases |rest|
      {
        if rest == [] || rest[0].TimedOut? || rest[0].Failed? {
          failed := true;
          return false, rest;
        }
        var call := rest[0];
        rest := rest[1..];
        if call.Moved? {
          var w := Least(call.upTo, |buf| - total);
          if w == 0 {
            failed := true;
            return false, rest;
          }
          assert buf[..total + w] == buf[..total] + buf[total..total + w];
          sent := sent + buf[total..total + w];
          total := total + w;
        }
      }
      ok := true;
    }

    /** Takes as much of what has arrived as the calls move, up to n bytes. */
    method ReadExact(n: nat, calls: seq<Io>) returns (ok: bool, got: seq<Byte>, rest: seq<Io>)
      modifies `incoming, `failed
      ensures var t := Transfer(n, |old(incoming)|, calls);
              ok == t.ok && rest == t.rest && got == old(incoming)[..t.moved] && incoming == old(incoming)[t.moved..]
    {
      got, rest := [], calls;
      ghost var stream, whole := incoming, Transfer(n, |incoming|, calls);
      while |got| < n
        invariant |got| <= n && |got| <= |stream| && got == stream[..|got|] && incoming == stream[|got|..]
        invariant Progress(whole, |got|, Transfer(n - |got|, |stream| - |got|, rest))
        decreases |rest|
      {
        failed := false;
        if rest == [] || rest[0].TimedOut? || rest[0].Failed? {
          failed := true;
          return false, got, rest;
        }
        var call := rest[0];
        rest := rest[1..];
        if call.Moved? {
          var r := Least(Least(call.upTo, n - |got|), |incoming|);
          if r == 0 {
            return false, got, rest;
          }
          TakenNext(stream, |got|, r);
          got, incoming := got + incoming[..r], incoming[r..];
        }
      }
      ok := true;
    }

    /** Writes as much of the frame as the calls move; one over the limit is not begun. */
    method WriteFrame(payload: seq<Byte>, calls: seq<Io>) returns (ok: bool, rest: seq<Io>)
      modifies `sent, `failed
      ensures var t := FrameSent(|payload|, calls);
              ok == t.ok && rest == t.rest && sent == old(sent) + Frame(payload)[..t.moved]
      ensures failed == (old(failed) || !ok)
    {
      ghost var frame := Frame(payload);
      if |payload| > MAX_FRAME_SIZE {
        failed := true;
        return false, calls;
      }
      ok, rest := WriteExact(Header(|payload|), calls);
      ghost var m := Transfer(4, 4, calls).moved;
      assert frame[..m] == Header(|payload|)[..m];
      if ok && |payload| > 0 {
        ghost var k := Transfer(|payload|, |payload|, rest).moved;
        assert frame[..4 + k] == Header(|payload|) + payload[..k];
        ok, rest := WriteExact(payload, rest);
      }
    }

    /** Takes the frame that has arrived, if the calls move all of it. A failed read always says why. */
    method ReadFrame(calls: seq<Io>) returns (ok: bool, payload: seq<Byte>, rest: seq<Io>)
      modifies `incoming, `failed
      ensures var t := FrameTaken(old(incoming), calls);
              && ok == t.ok && rest == t.rest && incoming == old(incoming)[t.moved..]
              && (ok ==> payload == old(incoming)[4..t.moved])
      ensures !ok ==> failed
    {
      var header;
      payload := [];
      ok, header, rest := ReadExact(4, calls);
      if !ok {
        failed := true;
        return;
      }
      var n := LengthOf(header);
      if n > MAX_FRAME_SIZE {
        failed := true;
        ok := false;
        return;
      }
      if n > 0 {
        ghost var k := Transfer(n, |incoming|, rest).moved;
        assert old(incoming)[4..][..k] == old(incoming)[4..4 + k] && old(incoming)[4..][k..] == old(incoming)[4 + k..];
        ok, payload, rest := ReadExact(n, rest);
        if !ok {
          failed := true;
        }
      }
    }
  }

  // ---- Whole lists ------------------------------------------------------------------------------

  lemma {:induction false} FramesUpTo(payloads: seq<seq<Byte>>, k: nat)
    requires k <= |payloads|
    ensures Frames(payloads[..k]) <= Frames(payloads)
    decreases |payloads| - k
  {
    if k < |payloads| {
      assert payloads[..k + 1] == payloads[..k] + [payloads[k]];
      FramesSnoc(payloads[..k], payloads[k]);
      FramesUpTo(payloads, k + 1);
    } else {
      assert payloads[..k] == payloads;
    }
  }

  /** Whole frames and the front of the next are a front of the stream. */
  lemma FrontOfFrames(payloads: seq<seq<Byte>>, k: nat, m: nat)
    requires k < |payloads| && m <= |Frame(payloads[k])|
    ensures Frames(payloads[..k]) + Frame(payloads[k])[..m] <= Frames(payloads)
    ensures Frames(payloads[..k + 1]) == Frames(payloads[..k]) + Frame(payloads[k])
  {
    assert payloads[..k + 1] == payloads[..k] + [payloads[k]];
    FramesSnoc(payloads[..k], payloads[k]);
    FramesUpTo(payloads, k + 1);
  }

  /** So many whole frames have gone out, and less than one more. */
  ghost predicate SentUpTo(before: seq<Byte>, payloads: seq<seq<Byte>>, count: nat, sent: seq<Byte>) {
    && count <= |payloads|
    && exists part: seq<Byte> ::
         && sent == before + Frames(payloads[..count]) + part
         && (if count == |payloads| then part == [] else part < Frame(payloads[count]))
  }

  /** The calls are smooth, and enough for the frames still due. */
  predicate Enough(due: seq<seq<Byte>>, calls: seq<Io>) {
    Fits(due) && Smooth(calls) && Moves(calls) >= |Frames(due)|
  }

  lemma EnoughForFirst(due: seq<seq<Byte>>, calls: seq<Io>)
    requires due != [] && Enough(due, calls)
    ensures var t := FrameSent(|due[0]|, calls); t.ok && Enough(due[1..], t.rest)
    ensures forall tail: seq<Byte> ::
              var t := FrameTaken(Frame(due[0]) + tail, calls);
              t.ok && t.moved == |Frame(due[0])| && Enough(due[1..], t.rest)
  {
    SmoothCallsSend(|due[0]|, calls);
    forall tail: seq<Byte>
      ensures var t := FrameTaken(Frame(due[0]) + tail, calls);
              t.ok && t.moved == |Frame(due[0])| && Enough(due[1..], t.rest)
    {
      SmoothCallsTake(due[0], tail, calls);
    }
  }

  lemma WritesNext(before: seq<Byte>, payloads: seq<seq<Byte>>, k: nat, calls: seq<Io>)
    requires k < |payloads|
    ensures var t := FrameSent(|payloads[k]|, calls);
            var sent := before + Frames(payloads[..k]) + Frame(payloads[k])[..t.moved];
            && (t.ok ==> sent == before + Frames(payloads[..k + 1]))
            && (!t.ok ==> SentUpTo(before, payloads, k, sent))
            && (Enough(payloads[k..], calls) ==> t.ok && Enough(payloads[k + 1..], t.rest))
  {
    var due := payloads[k..];
    assert due[1..] == payloads[k + 1..];
    if Enough(due, calls) {
      EnoughForFirst(due, calls);
    }
    var t := FrameSent(|payloads[k]|, calls);
    var part := Frame(payloads[k])[..t.moved];
    FrontOfFrames(payloads, k, 0);
    if t.ok {
      assert part == Frame(payloads[k]);
      assert before + Frames(payloads[..k]) + part == before + (Frames(payloads[..k]) + part);
    }
  }

  /** Frames out, until one fails; with smooth calls, all of them. */
  method WriteAll(client: FramedStdioClient, payloads: seq<seq<Byte>>, calls: seq<Io>) returns (count: nat)
    modifies client`sent, client`failed
    ensures SentUpTo(old(client.sent), payloads, count, client.sent)
    ensures Enough(payloads, calls) ==> count == |payloads|
    ensures client.failed == (old(client.failed) || count < |payloads|)
  {
    var rest := calls;
    ghost var before := client.sent;
    count := 0;
    assert payloads[0..] == payloads;
    while count < |payloads|
      invariant count <= |payloads| && client.sent == before + Frames(payloads[..count])
      invariant Enough(payloads, calls) ==> Enough(payloads[count..], rest)
      invariant client.failed == old(client.failed)
    {
      WritesNext(before, payloads, count, rest);
      var ok;
      ok, rest := client.WriteFrame(payloads[count], rest);
      if !ok {
        return;
      }
      count := count + 1;
    }
    assert client.sent == before + Frames(payloads[..count]) + [];
  }

  lemma TakesFirst(due: seq<seq<Byte>>, tail: seq<Byte>, calls: seq<Io>)
    requires due != [] && Fits(due) && FrameTaken(Frames(due) + tail, calls).ok
    ensures var stream, t := Frames(due) + tail, FrameTaken(Frames(due) + tail, calls);
            stream[4..t.moved] == due[0] && stream[t.moved..] == Frames(due[1..]) + tail
  {
    FramesCons(due, tail);
    HeaderRoundTrip(|due[0]|);
    SplitsHead(due[0], Frames(due[1..]) + tail);
  }

  lemma ReadsNext(written: seq<seq<Byte>>, tail: seq<Byte>, k: nat, count: nat, calls: seq<Io>)
    requires k < count <= |written| && Fits(written)
    ensures var stream := Frames(written[k..]) + tail;
            var t := FrameTaken(stream, calls);
            && (t.ok ==> stream[4..t.moved] == written[k] && stream[t.moved..] == Frames(written[k + 1..]) + tail)
            && (Enough(written[k..count], calls) ==> t.ok && Enough(written[k + 1..count], t.rest))
  {
    var left, due := written[k..], written[k..count];
    assert left[1..] == written[k + 1..] && due[1..] == written[k + 1..count];
    if Enough(due, calls) {
      EnoughForFirst(due, calls);
      assert Frames(left) + tail == Frame(due[0]) + (Frames(left[1..]) + tail);
    }
    if FrameTaken(Frames(left) + tail, calls).ok {
      TakesFirst(left, tail, calls);
    }
  }

  /**
    Frames in: what comes out is the written list as far as it was read, and with
    smooth calls that is all of it.
   */
  method ReadAll(client: FramedStdioClient, ghost written: seq<seq<Byte>>, ghost tail: seq<Byte>, count: nat,
                 calls: seq<Io>) returns (got: seq<seq<Byte>>, ok: bool)
    requires Fits(written) && client.incoming == Frames(written) + tail && count <= |written|
    modifies client`incoming, client`failed
    ensures |got| <= count && got == written[..|got|]
    ensures ok <==> |got| == count
    ensures ok ==> client.incoming == Frames(written[count..]) + tail
    ensures !ok ==> client.failed
    ensures Enough(written[..count], calls) ==> ok
  {
    got, ok := [], true;
    var rest := calls;
    ghost var enough := Enough(written[..count], calls);
    assert written[0..] == written && written[0..count] == written[..count];
    for k := 0 to count
      invariant ok && |got| == k && got == written[..k]
      invariant client.incoming == Frames(written[k..]) + tail
      invariant enough ==> Enough(written[k..count], rest)
    {
      ReadsNext(written, tail, k, count, rest);
      var payload;
      ok, payload, rest := client.ReadFrame(rest);
      if !ok {
        return;
      }
      assert written[..k + 1] == written[..k] + [written[k]];
      got := got + [payload];
    }
  }

  /**
    The round trip: the list written through any calls and read back through any
    others comes back as far as both got, and whole through smooth ones.
   */
  method RoundTrip(payloads: seq<seq<Byte>>, outgoing: seq<Io>, returning: seq<Io>) returns (got: seq<seq<Byte>>)
    requires Fits(payloads)
    ensures |got| <= |payloads| && got == payloads[..|got|]
    ensures Enough(payloads, outgoing) && Enough(payloads, returning) ==> got == payloads
  {
    var sender := new FramedStdioClient();
    var receiver := new FramedStdioClient();
    var count := WriteAll(sender, payloads, outgoing);
    ghost var part: seq<Byte> :| sender.sent == [] + Frames(payloads[..count]) + part;
    receiver.incoming := sender.sent;
    assert receiver.incoming == Frames(payloads[..count]) + part;
    var ok;
    got, ok := ReadAll(receiver, payloads[..count], part, count, returning);
    assert payloads[..|payloads|] == payloads;
    assert payloads[..count][..count] == payloads[..count];
    assert payloads[..count][..|got|] == payloads[..|got|];
  }
}

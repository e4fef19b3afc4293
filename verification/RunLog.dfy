/**
  The append-only run log of core/runs/run_journal.cpp at the level of bytes:
  torn-tail repair, and what a re-read returns after crashes.

  Records are encoded one per line by a codec that is only known to be lawful:
  no newline in its output, decoding undoes encoding, and no proper prefix of
  an encoded record decodes.
 */
module RunLog {
  import opened Octets
  import opened Options

  const NEWLINE: Byte := 10

  datatype Codec<!R> = Codec(encode: R -> seq<Byte>, decode: seq<Byte> -> Option<R>)

  ghost predicate Lawful<R(!new)>(c: Codec<R>) {
    && (forall r: R :: c.encode(r) != [] && NEWLINE !in c.encode(r) && c.decode(c.encode(r)) == Some(r))
    && (forall r: R, n: nat :: n < |c.encode(r)| ==> c.decode(c.encode(r)[..n]) == None)
  }

  // ---- Reading -------------------------------------------------------------------------

  /** A file as its terminated lines and what follows the last newline. */
  datatype Text = Text(lines: seq<seq<Byte>>, tail: seq<Byte>)

  function Push(t: Text, b: Byte): Text {
    if b == NEWLINE then Text(t.lines + [t.tail], []) else t.(tail := t.tail + [b])
  }

  function Feed(t: Text, bytes: seq<Byte>): Text {
    if bytes == [] then t else Push(Feed(t, bytes[..|bytes| - 1]), bytes[|bytes| - 1])
  }

  function Split(file: seq<Byte>): Text { Feed(Text([], []), file) }

  /** One line: skipped when empty or when it does not decode. */
  function ReadLine<R>(c: Codec<R>, line: seq<Byte>): seq<R> {
    if line == [] then []
    else
      match c.decode(line)
      case None => []
      case Some(r) => [r]
  }

  function ReadLines<R>(c: Codec<R>, lines: seq<seq<Byte>>): seq<R> {
    if lines == [] then [] else ReadLines(c, lines[..|lines| - 1]) + ReadLine(c, lines[|lines| - 1])
  }

  function ReadText<R>(c: Codec<R>, t: Text): seq<R> { ReadLines(c, t.lines) + ReadLine(c, t.tail) }

  function Read<R>(c: Codec<R>, file: seq<Byte>): seq<R> { ReadText(c, Split(file)) }

  lemma {:induction false} FeedAppends(t: Text, a: seq<Byte>, b: seq<Byte>)
    ensures Feed(t, a + b) == Feed(Feed(t, a), b)
    decreases |b|
  {
    if b == [] {
      assert a + b == a;
    } else {
      var front := b[..|b| - 1];
      assert (a + b)[..|a + b| - 1] == a + front;
      FeedAppends(t, a, front);
    }
  }

  lemma {:induction false} FeedLine(t: Text, line: seq<Byte>)
    requires NEWLINE !in line
    ensures Feed(t, line) == t.(tail := t.tail + line)
  {
    if line == [] {
      assert t.tail + line == t.tail;
    } else {
      var front := line[..|line| - 1];
      FeedLine(t, front);
      assert t.tail + line == t.tail + front + [line[|line| - 1]];
    }
  }

  lemma ReadLinesSnoc<R>(c: Codec<R>, lines: seq<seq<Byte>>, line: seq<Byte>)
    ensures ReadLines(c, lines + [line]) == ReadLines(c, lines) + ReadLine(c, line)
  {
    assert (lines + [line])[..|lines|] == lines;
  }

  /** Ending a line neither adds nor loses a record. */
  lemma EndingLineKeepsRecords<R>(c: Codec<R>, t: Text)
    ensures ReadText(c, Push(t, NEWLINE)) == ReadText(c, t)
  {
    ReadLinesSnoc(c, t.lines, t.tail);
  }

  // ---- What the log may hold -------------------------------------------------------------

  ghost predicate TornFront<R(!new)>(c: Codec<R>, line: seq<Byte>) {
    line == [] || exists r: R :: line <= c.encode(r)
  }

  /** Every line is an encoded record or the torn front of one. */
  ghost predicate WellFormed<R(!new)>(c: Codec<R>, t: Text) {
    TornFront(c, t.tail) && forall line :: line in t.lines ==> TornFront(c, line)
  }

  predicate EndsLine(file: seq<Byte>) { file == [] || file[|file| - 1] == NEWLINE }

  lemma TailIsTorn(file: seq<Byte>)
    ensures EndsLine(file) <==> Split(file).tail == []
  {
  }

  /** One byte fewer reads as a front of the records. */
  lemma LastByteCut<R(!new)>(c: Codec<R>, t: Text, b: Byte)
    requires Lawful(c) && WellFormed(c, Push(t, b))
    ensures WellFormed(c, t) && ReadText(c, t) <= ReadText(c, Push(t, b))
  {
    if b == NEWLINE {
      EndingLineKeepsRecords(c, t);
      assert t.tail in Push(t, b).lines;
      assert forall line :: line in t.lines ==> line in Push(t, b).lines;
    } else {
      var r: R :| t.tail + [b] <= c.encode(r);
      assert t.tail == c.encode(r)[..|t.tail|];
      assert t.tail <= c.encode(r);
    }
  }

  /** Cutting the file anywhere keeps a front of its records, whole. */
  lemma {:induction false} CutKeepsPrefix<R(!new)>(c: Codec<R>, file: seq<Byte>, k: nat)
    requires Lawful(c) && WellFormed(c, Split(file)) && k <= |file|
    ensures WellFormed(c, Split(file[..k])) && Read(c, file[..k]) <= Read(c, file)
    decreases |file|
  {
    if k == |file| {
      assert file[..k] == file;
    } else {
      var front := file[..|file| - 1];
      LastByteCut(c, Split(front), file[|file| - 1]);
      assert Split(file) == Push(Split(front), file[|file| - 1]);
      assert front[..k] == file[..k];
      CutKeepsPrefix(c, front, k);
    }
  }

  // ---- Writing --------------------------------------------------------------------------

  /** The bytes of an append: a newline first when the last record is torn. */
  function Payload<R>(c: Codec<R>, file: seq<Byte>, r: R): seq<Byte> {
    (if EndsLine(file) then [] else [NEWLINE]) + (c.encode(r) + [NEWLINE])
  }

  /** A record's line, terminated or not, at a line's end, adds the record. */
  lemma WholeRecord<R(!new)>(c: Codec<R>, t: Text, r: R)
    requires Lawful(c) && WellFormed(c, t) && t.tail == []
    ensures var u := t.(tail := c.encode(r));
            && WellFormed(c, u) && ReadText(c, u) == ReadText(c, t) + [r]
            && WellFormed(c, Push(u, NEWLINE)) && ReadText(c, Push(u, NEWLINE)) == ReadText(c, t) + [r]
  {
    var line := c.encode(r);
    assert TornFront(c, line) by { assert line <= line; }
    EndingLineKeepsRecords(c, t.(tail := line));
    assert ReadLine(c, line) == [r];
  }

  lemma TornRecord<R(!new)>(c: Codec<R>, t: Text, r: R, n: nat)
    requires Lawful(c) && WellFormed(c, t) && t.tail == [] && n < |c.encode(r)|
    ensures var u := t.(tail := c.encode(r)[..n]);
            WellFormed(c, u) && ReadText(c, u) == ReadText(c, t)
  {
    assert TornFront(c, c.encode(r)[..n]) by { assert c.encode(r)[..n] <= c.encode(r); }
    assert ReadLine(c, c.encode(r)[..n]) == [];
  }

  /** Any front of a record's bytes, written at a line's end, adds the record or nothing. */
  lemma FrontOfRecord<R(!new)>(c: Codec<R>, t: Text, r: R, n: nat)
    requires Lawful(c) && WellFormed(c, t) && t.tail == [] && n <= |c.encode(r)| + 1
    ensures var u := Feed(t, (c.encode(r) + [NEWLINE])[..n]);
            WellFormed(c, u) && ReadText(c, u) == ReadText(c, t) + (if n < |c.encode(r)| then [] else [r])
  {
    var line := c.encode(r);
    FedFront(t, line, n);
    if n < |line| {
      TornRecord(c, t, r, n);
    } else {
      WholeRecord(c, t, r);
    }
  }

  lemma FedFront(t: Text, line: seq<Byte>, n: nat)
    requires NEWLINE !in line && t.tail == [] && n <= |line| + 1
    ensures Feed(t, (line + [NEWLINE])[..n])
         == if n < |line| then t.(tail := line[..n])
            else if n == |line| then t.(tail := line)
            else Push(t.(tail := line), NEWLINE)
  {
    var front := (line + [NEWLINE])[..n];
    if n <= |line| {
      assert front == line[..n];
      FeedLine(t, front);
      assert t.tail + front == front;
      assert n == |line| ==> front == line;
    } else {
      assert front == line + [NEWLINE];
      assert front[..|front| - 1] == line;
      FeedLine(t, line);
      assert t.tail + line == line;
    }
  }

  /**
    However much of an append reaches the file, a re-read gives what it gave
    before, or that and the record; written in full it gives the record.
   */
  lemma AppendedBytesRead<R(!new)>(c: Codec<R>, file: seq<Byte>, r: R, n: nat)
    requires Lawful(c) && WellFormed(c, Split(file)) && n <= |Payload(c, file, r)|
    ensures var grown := file + Payload(c, file, r)[..n];
            && WellFormed(c, Split(grown))
            && (Read(c, grown) == Read(c, file) || Read(c, grown) == Read(c, file) + [r])
            && (n == |Payload(c, file, r)| ==> Read(c, grown) == Read(c, file) + [r])
  {
    var bytes := c.encode(r) + [NEWLINE];
    TailIsTorn(file);
    FeedAppends(Text([], []), file, Payload(c, file, r)[..n]);
    if EndsLine(file) {
      assert Payload(c, file, r)[..n] == bytes[..n];
      FrontOfRecord(c, Split(file), r, n);
    } else if n > 0 {
      var t := Split(file);
      var mended := Push(t, NEWLINE);
      assert Payload(c, file, r)[..n] == [NEWLINE] + bytes[..n - 1];
      FeedAppends(t, [NEWLINE], bytes[..n - 1]);
      assert Feed(t, [NEWLINE]) == mended by { assert [NEWLINE][..0] == []; }
      EndingLineKeepsRecords(c, t);
      FrontOfRecord(c, mended, r, n - 1);
    }
  }
}

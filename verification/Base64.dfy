/**
  Base64 as core/http/json.cpp computes it: one pass over a 32-bit accumulator
  that wraps, proved against the bit groups of section 4 of RFC 4648.
 */
module Base64 {
  import opened Octets
  import opened Options

  type Sextet = d: int | 0 <= d < 64

  const WORD := 0x1_0000_0000

  // ---- The alphabet ------------------------------------------------------------------------

  function Letter(d: Sextet): char {
    if d < 26 then 'A' + d as char
    else if d < 52 then 'a' + (d - 26) as char
    else if d < 62 then '0' + (d - 52) as char
    else if d == 62 then '+'
    else '/'
  }

  function DigitOf(c: char): (d: Option<Sextet>)
    ensures d.Some? ==> Letter(d.value) == c
  {
    if 'A' <= c <= 'Z' then Some((c - 'A') as int)
    else if 'a' <= c <= 'z' then Some((c - 'a') as int + 26)
    else if '0' <= c <= '9' then Some((c - '0') as int + 52)
    else if c == '+' then Some(62)
    else if c == '/' then Some(63)
    else None
  }

  lemma LetterHasDigit(d: Sextet)
    ensures DigitOf(Letter(d)) == Some(d) && Letter(d) != '='
  {
  }

  /** The letters are those of table 1 of RFC 4648: A to Z, a to z, 0 to 9, and then + and /. */
  lemma LettersAreTheAlphabet(d: Sextet)
    ensures Letter(0) == 'A' && Letter(25) == 'Z' && Letter(26) == 'a' && Letter(51) == 'z'
    ensures Letter(52) == '0' && Letter(61) == '9' && Letter(62) == '+' && Letter(63) == '/'
    ensures d < 61 && d != 25 && d != 51 ==> Letter(d + 1) as int == Letter(d) as int + 1
  {
  }

  function Letters(ds: seq<Sextet>): string { seq(|ds|, i requires 0 <= i < |ds| => Letter(ds[i])) }

  // ---- Group by group --------------------------------------------------------------------------

  /** A sequence taken n at a time, the last group as long as what is left. */
  function Grouped<A, B>(n: nat, f: seq<A> -> seq<B>, s: seq<A>): seq<B>
    requires n > 0
    decreases |s|
  {
    if |s| <= n then f(s) else f(s[..n]) + Grouped(n, f, s[n..])
  }

  lemma GroupedCons<A, B>(n: nat, f: seq<A> -> seq<B>, first: seq<A>, rest: seq<A>)
    requires n > 0 && |first| == n && f([]) == []
    ensures Grouped(n, f, first + rest) == f(first) + Grouped(n, f, rest)
  {
    var all := first + rest;
    if rest == [] {
      assert all == first && f(first) + [] == f(first);
    } else {
      assert all[..n] == first && all[n..] == rest;
    }
  }

  lemma GroupedStep<A, B>(n: nat, f: seq<A> -> seq<B>, first: seq<A>, more: seq<A>, rest: seq<A>)
    requires n > 0 && |first| == n && f([]) == []
    requires Grouped(n, f, more + rest) == Grouped(n, f, more) + Grouped(n, f, rest)
    ensures Grouped(n, f, first + more + rest) == Grouped(n, f, first + more) + Grouped(n, f, rest)
  {
    GroupedCons(n, f, first, more);
    GroupedCons(n, f, first, more + rest);
    assert first + more + rest == first + (more + rest);
  }

  /** Whole groups are grouped alike whatever follows. */
  lemma {:induction false} GroupedSplit<A, B>(n: nat, f: seq<A> -> seq<B>, whole: seq<A>, k: nat, rest: seq<A>)
    requires n > 0 && |whole| == n * k && f([]) == []
    ensures Grouped(n, f, whole + rest) == Grouped(n, f, whole) + Grouped(n, f, rest)
    decreases k
  {
    if k == 0 {
      assert whole == [] && whole + rest == rest;
    } else {
      assert n * k == n * (k - 1) + n;
      GroupedSplit(n, f, whole[n..], k - 1, rest);
      GroupedStep(n, f, whole[..n], whole[n..], rest);
      assert whole[..n] + whole[n..] == whole;
    }
  }

  // ---- The encoding ------------------------------------------------------------

  function D1(a: Byte): Sextet { a / 4 }

  function D2(a: Byte, b: Byte): Sextet { (a % 4) * 16 + b / 16 }

  function D3(b: Byte, c: Byte): Sextet { (b % 16) * 4 + c / 64 }

  function D4(c: Byte): Sextet { c % 64 }

  /** One group of up to three bytes, its bits filled with zeros on the right. */
  function Group(s: seq<Byte>): seq<Sextet> {
    if s == [] then []
    else if |s| == 1 then [D1(s[0]), D2(s[0], 0)]
    else if |s| == 2 then [D1(s[0]), D2(s[0], s[1]), D3(s[1], 0)]
    else [D1(s[0]), D2(s[0], s[1]), D3(s[1], s[2]), D4(s[2])]
  }

  function Sextets(s: seq<Byte>): seq<Sextet> { Grouped(3, Group, s) }

  /** What brings the last group to four characters. */
  function Padding(s: seq<Byte>): string {
    if |s| > 3 then Padding(s[3..]) else if |s| == 1 then "==" else if |s| == 2 then "=" else ""
  }

  function Encode(s: seq<Byte>): string { Letters(Sextets(s)) + Padding(s) }

  // ---- The decoding --------------------------------------------------------------------------

  function B1(d: Sextet, e: Sextet): Byte { d as int * 4 + e as int / 16 }

  function B2(e: Sextet, f: Sextet): Byte { (e as int % 16) * 16 + f as int / 4 }

  function B3(f: Sextet, g: Sextet): Byte { (f as int % 4) * 64 + g as int }

  /** The bytes that up to four digits complete. */
  function Ungroup(ds: seq<Sextet>): seq<Byte> {
    if |ds| <= 1 then []
    else if |ds| == 2 then [B1(ds[0], ds[1])]
    else if |ds| == 3 then [B1(ds[0], ds[1]), B2(ds[1], ds[2])]
    else [B1(ds[0], ds[1]), B2(ds[1], ds[2]), B3(ds[2], ds[3])]
  }

  function Bytes(ds: seq<Sextet>): seq<Byte> { Grouped(4, Ungroup, ds) }

  /** The digits up to the padding, or nothing if one is not in the alphabet. */
  function Digits(text: string): Option<seq<Sextet>> {
    if text == "" || text[0] == '=' then Some([])
    else
      var d, rest := DigitOf(text[0]), Digits(text[1..]);
      if d.None? || rest.None? then None else Some([d.value] + rest.value)
  }

  function Decode(text: string): Option<seq<Byte>> {
    var ds := Digits(text);
    if ds.None? then None else Some(Bytes(ds.value))
  }

  // ---- Decoding undoes encoding -------------------------------------------------------------------

  lemma {:induction false} DigitsOfLetters(ds: seq<Sextet>, padding: string)
    requires padding == "" || padding[0] == '='
    ensures Digits(Letters(ds) + padding) == Some(ds)
  {
    var text := Letters(ds) + padding;
    if ds != [] {
      LetterHasDigit(ds[0]);
      assert text[1..] == Letters(ds[1..]) + padding;
      DigitsOfLetters(ds[1..], padding);
      assert [ds[0]] + ds[1..] == ds;
    } else {
      assert text == padding;
    }
  }

  /** Quotient and remainder are the only ones. */
  lemma Div(x: int, d: nat, q: int, r: int)
    requires d == 4 || d == 16 || d == 64 || d == 256
    requires x == d * q + r && 0 <= r < d
    ensures x / d == q && x % d == r
  {
    if d == 4 {
      assert x == 4 * q + r;
    } else if d == 16 {
      assert x == 16 * q + r;
    } else if d == 64 {
      assert x == 64 * q + r;
    } else {
      assert x == 256 * q + r;
    }
  }

  /** Two neighbouring digits give back the byte they share. */
  lemma FirstByte(a: Byte, b: Byte)
    ensures B1(D1(a), D2(a, b)) == a
  {
    Div(D2(a, b), 16, a % 4, b / 16);
  }

  lemma SecondByte(a: Byte, b: Byte, c: Byte)
    ensures B2(D2(a, b), D3(b, c)) == b
  {
    Div(D2(a, b), 16, a % 4, b / 16);
    Div(D3(b, c), 4, b % 16, c / 64);
  }

  lemma ThirdByte(b: Byte, c: Byte)
    ensures B3(D3(b, c), D4(c)) == c
  {
    Div(D3(b, c), 4, b % 16, c / 64);
  }

  lemma UngroupUndoes(s: seq<Byte>)
    requires |s| <= 3
    ensures |Group(s)| <= 4 && Ungroup(Group(s)) == s
  {
    if |s| > 0 {
      FirstByte(s[0], if |s| > 1 then s[1] else 0);
    }
    if |s| > 1 {
      SecondByte(s[0], s[1], if |s| > 2 then s[2] else 0);
    }
    if |s| > 2 {
      ThirdByte(s[1], s[2]);
    }
  }

  lemma {:induction false} BytesUndoSextets(s: seq<Byte>)
    ensures Bytes(Sextets(s)) == s
  {
    if |s| <= 3 {
      UngroupUndoes(s);
    } else {
      UngroupUndoes(s[..3]);
      BytesUndoSextets(s[3..]);
      GroupedCons(4, Ungroup, Group(s[..3]), Sextets(s[3..]));
      assert s[..3] + s[3..] == s;
    }
  }

  /** Main result. */
  lemma DecodeUndoesEncode(s: seq<Byte>)
    ensures Decode(Encode(s)) == Some(s)
  {
    PaddingShape(s);
    DigitsOfLetters(Sextets(s), Padding(s));
    BytesUndoSextets(s);
  }

  /** Four letters for every three bytes; the padding completes the last group. */
  lemma {:induction false} PaddingShape(s: seq<Byte>)
    ensures |Sextets(s)| + |Padding(s)| == 4 * ((|s| + 2) / 3)
    ensures |Padding(s)| == (3 - |s| % 3) % 3 && forall i :: 0 <= i < |Padding(s)| ==> Padding(s)[i] == '='
  {
    if |s| > 3 {
      PaddingShape(s[3..]);
    }
  }

  /** The layout of section 4 of RFC 4648: alphabet letters, then at most two '='. */
  lemma EncodedShape(s: seq<Byte>, i: nat)
    requires i < |Encode(s)|
    ensures |Encode(s)| == 4 * ((|s| + 2) / 3)
    ensures if i < |Encode(s)| - (3 - |s| % 3) % 3 then DigitOf(Encode(s)[i]).Some? else Encode(s)[i] == '='
  {
    PaddingShape(s);
    if i < |Sextets(s)| {
      LetterHasDigit(Sextets(s)[i]);
    }
  }

  // ---- The encoder's loop -------------------------------------------------------------------------

  function Pow2(bits: nat): nat
    requires bits <= 6
  {
    if bits == 0 then 1 else if bits == 1 then 2 else if bits == 2 then 4 else if bits == 3 then 8
    else if bits == 4 then 16 else if bits == 5 then 32 else 64
  }

  /** `val << 8` plus a byte, in 32 bits. */
  function PushByte(val: nat, c: Byte): (v: nat)
    ensures v < WORD
  {
    (val * 256 + c) % WORD
  }

  /** The wrapped accumulator gives the same groups as an unbounded one would. */
  lemma PushedFirst(val: nat, c: Byte)
    ensures PushByte(val, c) / 4 % 64 == c / 4 && PushByte(val, c) % 4 == c % 4
  {
    var y, q := PushByte(val, c), (val * 256 + c) / WORD;
    var m := val - 16777216 * q;
    assert y == 256 * m + c;
    Div(y, 4, 64 * m + c / 4, c % 4);
    Div(64 * m + c / 4, 64, m, c / 4);
  }

  lemma PushedSecond(val: nat, c: Byte)
    ensures PushByte(val, c) / 16 % 64 == (val % 4) * 16 + c / 16 && PushByte(val, c) % 16 == c % 16
  {
    var y, q := PushByte(val, c), (val * 256 + c) / WORD;
    var m, n := val - 16777216 * q, val / 4 - 4194304 * q;
    assert y == 256 * m + c && m == 4 * n + val % 4;
    Div(y, 16, 16 * m + c / 16, c % 16);
    Div(16 * m + c / 16, 64, n, (val % 4) * 16 + c / 16);
  }

  lemma PushedThird(val: nat, c: Byte)
    ensures PushByte(val, c) / 64 % 64 == (val % 16) * 4 + c / 64 && PushByte(val, c) % 64 == c % 64
  {
    var y, q := PushByte(val, c), (val * 256 + c) / WORD;
    var m, n := val - 16777216 * q, val / 16 - 1048576 * q;
    assert y == 256 * m + c && m == 16 * n + val % 16;
    Div(y, 64, 4 * m + c / 64, c % 64);
    Div(4 * m + c / 64, 64, n, (val % 16) * 4 + c / 64);
  }

  /** The bytes since the last whole group, against the accumulator: `bits` counts from -6. */
  predicate HoldsByte(val: nat, bits: int, group: seq<Byte>) {
    |group| <= 2 && if group == [] then bits == -6
    else if |group| == 1 then bits == -4 && val % 4 == group[0] % 4
    else bits == -2 && val % 16 == group[1] % 16
  }

  /** The digits those bytes complete. */
  function Started(group: seq<Byte>): seq<Sextet>
    requires |group| <= 2
  {
    if group == [] then [] else if |group| == 1 then [D1(group[0])] else [D1(group[0]), D2(group[0], group[1])]
  }

  /** The digits one more byte completes. */
  function Completed(group: seq<Byte>, c: Byte): seq<Sextet>
    requires |group| <= 2
  {
    if group == [] then [D1(c)] else if |group| == 1 then [D2(group[0], c)] else [D3(group[1], c), D4(c)]
  }

  lemma PushedByte(val: nat, bits: int, group: seq<Byte>, c: Byte)
    requires HoldsByte(val, bits, group)
    ensures var v := PushByte(val, c);
            && Completed(group, c) == [v / Pow2(bits + 8) % 64] + (if bits == -2 then [v % 64] else [])
            && HoldsByte(v, if bits == -2 then -6 else bits + 2, if bits == -2 then [] else group + [c])
  {
    if group == [] {
      PushedFirst(val, c);
    } else if |group| == 1 {
      PushedSecond(val, c);
    } else {
      PushedThird(val, c);
    }
  }

  /** The inner loop: every group the accumulator has complete. */
  method Drain(val: nat, complete: nat) returns (out: string, bits: int)
    requires complete == 2 || complete == 4 || complete == 6
    ensures bits == if complete == 6 then -6 else complete - 6
    ensures out == [Letter(val / Pow2(complete) % 64)] + (if complete == 6 then [Letter(val % 64)] else [])
  {
    out, bits := "", complete;
    while bits >= 0
      invariant -6 <= bits <= 6
      invariant || (out == "" && bits == complete)
                || (out == [Letter(val / Pow2(complete) % 64)] && bits == complete - 6)
                || (out == [Letter(val / Pow2(complete) % 64), Letter(val % 64)] && bits == complete - 12)
    {
      out := out + [Letter(val / Pow2(bits) % 64)];
      bits := bits - 6;
    }
  }

  /** One byte through the accumulator. */
  method Put(val: nat, bits: int, ghost group: seq<Byte>, c: Byte) returns (v: nat, b: int, out: string)
    requires HoldsByte(val, bits, group)
    ensures out == Letters(Completed(group, c)) && HoldsByte(v, b, if |group| == 2 then [] else group + [c])
  {
    PushedByte(val, bits, group, c);
    v := PushByte(val, c);
    out, b := Drain(v, bits + 8);
    assert out == Letters(Completed(group, c));
  }

  lemma LettersAppend(a: seq<Sextet>, b: seq<Sextet>)
    ensures Letters(a + b) == Letters(a) + Letters(b)
  {
  }

  lemma GroupFinishes(group: seq<Byte>, c: Byte)
    requires |group| <= 2
    ensures |group| == 2 ==> Group(group + [c]) == Started(group) + Completed(group, c)
    ensures |group| < 2 ==> Started(group + [c]) == Started(group) + Completed(group, c)
  {
  }

  /** The bytes read so far, as whole groups and the start of the next, and the letters they complete. */
  ghost predicate Written(s: seq<Byte>, k: nat, group: seq<Byte>, out: string) {
    && |group| <= 2 && |s| == 3 * k + |group| && s[3 * k..] == group
    && out == Letters(Sextets(s[..3 * k])) + Letters(Started(group))
  }

  lemma WrittenNext(s: seq<Byte>, k: nat, group: seq<Byte>, out: string, c: Byte)
    requires Written(s, k, group, out)
    ensures |group| < 2 ==> Written(s + [c], k, group + [c], out + Letters(Completed(group, c)))
    ensures |group| == 2 ==> Written(s + [c], k + 1, [], out + Letters(Completed(group, c)))
  {
    var whole := s[..3 * k];
    GroupFinishes(group, c);
    LettersAppend(Started(group), Completed(group, c));
    if |group| < 2 {
      assert (s + [c])[..3 * k] == whole && (s + [c])[3 * k..] == group + [c];
    } else {
      assert (s + [c])[..3 * (k + 1)] == whole + (group + [c]);
      GroupedSplit(3, Group, whole, k, group + [c]);
      LettersAppend(Sextets(whole), Group(group + [c]));
    }
  }

  /** The pass over the bytes. */
  method EncodeGroups(bytes: seq<Byte>)
    returns (encoded: string, val: nat, bits: int, ghost k: nat, ghost group: seq<Byte>)
    ensures HoldsByte(val, bits, group) && Written(bytes, k, group, encoded)
  {
    encoded, val, bits := "", 0, -6;
    k, group := 0, [];
    for i := 0 to |bytes|
      invariant HoldsByte(val, bits, group) && Written(bytes[..i], k, group, encoded)
    {
      assert bytes[..i + 1] == bytes[..i] + [bytes[i]];
      WrittenNext(bytes[..i], k, group, encoded, bytes[i]);
      var out;
      val, bits, out := Put(val, bits, group, bytes[i]);
      encoded := encoded + out;
      if |group| == 2 {
        k, group := k + 1, [];
      } else {
        group := group + [bytes[i]];
      }
    }
    assert bytes[..|bytes|] == bytes;
  }

  /** The bits left over, if any. */
  method Flush(val: nat, bits: int, ghost group: seq<Byte>) returns (out: string)
    requires HoldsByte(val, bits, group)
    ensures Letters(Group(group)) == Letters(Started(group)) + out
  {
    PushedSecond(val, 0);
    PushedThird(val, 0);
    out := if bits > -6 then [Letter(val * 256 % WORD / Pow2(bits + 8) % 64)] else "";
  }

  method Pad(body: string, ghost padding: string) returns (padded: string)
    requires |padding| < 4 && (|body| + |padding|) % 4 == 0 && forall i :: 0 <= i < |padding| ==> padding[i] == '='
    ensures padded == body + padding
  {
    padded := body;
    ghost var k := 0;
    while |padded| % 4 != 0
      invariant k <= |padding| && padded == body + padding[..k]
      decreases |padding| - k
    {
      padded, k := padded + "=", k + 1;
    }
    assert k == |padding|;
  }

  lemma WrittenAll(s: seq<Byte>, k: nat, group: seq<Byte>, out: string, rest: string)
    requires Written(s, k, group, out) && Letters(Group(group)) == Letters(Started(group)) + rest
    ensures out + rest == Letters(Sextets(s))
  {
    var whole := s[..3 * k];
    assert s == whole + group;
    GroupedSplit(3, Group, whole, k, group);
    LettersAppend(Sextets(whole), Group(group));
  }

  method EncodeBytes(bytes: seq<Byte>) returns (encoded: string)
    ensures encoded == Encode(bytes)
  {
    var val, bits;
    ghost var k, group;
    encoded, val, bits, k, group := EncodeGroups(bytes);
    var rest := Flush(val, bits, group);
    WrittenAll(bytes, k, group, encoded, rest);
    PaddingShape(bytes);
    encoded := Pad(encoded + rest, Padding(bytes));
  }

  // ---- The decoder's loop -------------------------------------------------------------------------

  function PushSextet(val: nat, d: Sextet): (v: nat)
    ensures v < WORD
  {
    (val * 64 + d) % WORD
  }

  lemma PushedSecondDigit(val: nat, d: Sextet)
    ensures PushSextet(val, d) / 16 % 256 == (val % 64) * 4 + d / 16 && PushSextet(val, d) % 16 == d % 16
  {
    var y, q := PushSextet(val, d), (val * 64 + d) / WORD;
    var m, n := val - 67108864 * q, val / 64 - 1048576 * q;
    assert y == 64 * m + d && m == 64 * n + val % 64;
    Div(y, 16, 4 * m + d / 16, d % 16);
    Div(4 * m + d / 16, 256, n, (val % 64) * 4 + d / 16);
  }

  lemma PushedThirdDigit(val: nat, d: Sextet)
    ensures PushSextet(val, d) / 4 % 256 == (val % 16) * 16 + d / 4 && PushSextet(val, d) % 4 == d % 4
  {
    var y, q := PushSextet(val, d), (val * 64 + d) / WORD;
    var m, n := val - 67108864 * q, val / 16 - 4194304 * q;
    assert y == 64 * m + d && m == 16 * n + val % 16;
    Div(y, 4, 16 * m + d / 4, d % 4);
    Div(16 * m + d / 4, 256, n, (val % 16) * 16 + d / 4);
  }

  lemma PushedOuterDigits(val: nat, d: Sextet)
    ensures PushSextet(val, d) % 256 == (val % 4) * 64 + d && PushSextet(val, d) % 64 == d
  {
    var y, q := PushSextet(val, d), (val * 64 + d) / WORD;
    var m, n := val - 67108864 * q, val / 4 - 16777216 * q;
    assert y == 64 * m + d && m == 4 * n + val % 4;
    Div(y, 256, n, (val % 4) * 64 + d);
    Div(y, 64, m, d);
  }

  /** The digits since the last whole group, against the accumulator: `bits` counts from -8. */
  predicate HoldsDigit(val: nat, bits: int, group: seq<Sextet>) {
    |group| <= 3 && if group == [] then bits == -8
    else if |group| == 1 then bits == -2 && val % 64 == group[0]
    else if |group| == 2 then bits == -4 && val % 16 == group[1] % 16
    else bits == -6 && val % 4 == group[2] % 4
  }

  /** The byte one more digit completes, if it does. */
  function Decoded(group: seq<Sextet>, d: Sextet): seq<Byte>
    requires |group| <= 3
  {
    if group == [] then [] else if |group| == 1 then [B1(group[0], d)]
    else if |group| == 2 then [B2(group[1], d)] else [B3(group[2], d)]
  }

  lemma PushedDigit(val: nat, bits: int, group: seq<Sextet>, d: Sextet)
    requires HoldsDigit(val, bits, group)
    ensures var v := PushSextet(val, d);
            && Decoded(group, d) == (if bits + 6 >= 0 then [v / Pow2(bits + 6) % 256] else [])
            && HoldsDigit(v, if bits + 6 >= 0 then bits - 2 else bits + 6, if |group| == 3 then [] else group + [d])
  {
    if |group| == 1 {
      PushedSecondDigit(val, d);
    } else if |group| == 2 {
      PushedThirdDigit(val, d);
    } else {
      PushedOuterDigits(val, d);
    }
  }

  /** One digit through the accumulator. */
  method Take(val: nat, bits: int, ghost group: seq<Sextet>, d: Sextet) returns (v: nat, b: int, out: seq<Byte>)
    requires HoldsDigit(val, bits, group)
    ensures out == Decoded(group, d) && HoldsDigit(v, b, if |group| == 3 then [] else group + [d])
  {
    PushedDigit(val, bits, group, d);
    v, b, out := PushSextet(val, d), bits + 6, [];
    if b >= 0 {
      out, b := [v / Pow2(b) % 256], b - 8;
    }
  }

  predicate IsTable(table: array<int>)
    reads table
  {
    table.Length == 256 && forall k :: 0 <= k < 256 ==> table[k] == Entry(k as char, 64)
  }

  function Entry(c: char, filled: int): int {
    var d := DigitOf(c);
    if d.Some? && d.value < filled then d.value else -1
  }

  /** The table, built by walking the alphabet. */
  method BuildTable() returns (table: array<int>)
    ensures fresh(table) && IsTable(table)
  {
    table := new int[256](_ => -1);
    for i := 0 to 64
      invariant forall k :: 0 <= k < 256 ==> table[k] == Entry(k as char, i)
    {
      LetterHasDigit(i);
      table[Letter(i) as int] := i;
    }
  }

  method Lookup(table: array<int>, c: char) returns (d: Option<Sextet>)
    requires IsTable(table) && c as int < 256
    ensures d == DigitOf(c)
  {
    var k := c as int;
    assert k as char == c;
    d := if table[k] == -1 then None else Some(table[k]);
  }

  function Behind(ds: seq<Sextet>, rest: Option<seq<Sextet>>): Option<seq<Sextet>> {
    if rest.None? then None else Some(ds + rest.value)
  }

  lemma DigitsStep(text: string, i: nat, ds: seq<Sextet>)
    requires i < |text| && text[i] != '='
    ensures var d := DigitOf(text[i]);
            Behind(ds, Digits(text[i..])) == if d.None? then None else Behind(ds + [d.value], Digits(text[i + 1..]))
  {
    var d, rest := DigitOf(text[i]), Digits(text[i + 1..]);
    assert text[i..][1..] == text[i + 1..];
    if d.Some? && rest.Some? {
      assert ds + ([d.value] + rest.value) == ds + [d.value] + rest.value;
    }
  }

  lemma UngroupFinishes(group: seq<Sextet>, d: Sextet)
    requires |group| <= 3
    ensures Ungroup(group + [d]) == Ungroup(group) + Decoded(group, d)
  {
  }

  /** The digits read so far, as whole groups and the start of the next, and the bytes they complete. */
  ghost predicate Read(ds: seq<Sextet>, k: nat, group: seq<Sextet>, out: seq<Byte>) {
    && |group| <= 3 && |ds| == 4 * k + |group| && ds[4 * k..] == group
    && out == Bytes(ds)
  }

  lemma ReadNext(ds: seq<Sextet>, k: nat, group: seq<Sextet>, out: seq<Byte>, d: Sextet)
    requires Read(ds, k, group, out)
    ensures |group| < 3 ==> Read(ds + [d], k, group + [d], out + Decoded(group, d))
    ensures |group| == 3 ==> Read(ds + [d], k + 1, [], out + Decoded(group, d))
  {
    var whole := ds[..4 * k];
    assert ds == whole + group && ds + [d] == whole + (group + [d]);
    GroupedSplit(4, Ungroup, whole, k, group);
    GroupedSplit(4, Ungroup, whole, k, group + [d]);
    UngroupFinishes(group, d);
  }

  /** Fails exactly on a character outside the alphabet before the padding. */
  method DecodeText(text: string) returns (decoded: Option<seq<Byte>>)
    requires forall i :: 0 <= i < |text| ==> text[i] as int < 256
    ensures decoded == Decode(text)
  {
    var table := BuildTable();
    var val: nat, bits, out: seq<Byte> := 0, -8, [];
    ghost var ds: seq<Sextet>, k: nat, group: seq<Sextet> := [], 0, [];
    var i := 0;
    assert text[0..] == text && (Digits(text).Some? ==> ds + Digits(text).value == Digits(text).value);
    while i < |text| && text[i] != '='
      invariant 0 <= i <= |text|
      invariant HoldsDigit(val, bits, group) && Read(ds, k, group, out)
      invariant Digits(text) == Behind(ds, Digits(text[i..]))
      modifies {}
    {
      DigitsStep(text, i, ds);
      var entry := Lookup(table, text[i]);
      if entry.None? {
        return None;
      }
      ReadNext(ds, k, group, out, entry.value);
      var more: seq<Byte>;
      val, bits, more := Take(val, bits, group, entry.value);
      out, ds, i := out + more, ds + [entry.value], i + 1;
      if |group| == 3 {
        k, group := k + 1, [];
      } else {
        group := group + [entry.value];
      }
    }
    assert Digits(text[i..]) == Some([]);
    assert ds + [] == ds;
    return Some(out);
  }
}

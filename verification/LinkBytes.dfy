/**
 The bytes on the links, position by position: what a frame, a header line and an envelope look
 like to a program that knows only the format.
 */
module LinkBytes {
  import opened Common
  import opened Wire
  import opened Frames
  import opened InnerLink
  import opened NodeLink

  // ---- Numbers ----

  /** Four bytes, the highest first. */
  predicate IsWord(b: Bytes, n: int) {
    |b| == 4 && n == ((b[0] as int * 256 + b[1]) * 256 + b[2]) * 256 + b[3]
  }

  predicate IsShort(b: Bytes, n: int) {
    |b| == 2 && n == b[0] as int * 256 + b[1]
  }

  lemma NumberIsWord(b: Bytes)
    requires |b| == 4
    ensures IsWord(b, Number(b))
  {
    assert b[..3][..2] == b[..2] && b[..2][..1] == b[..1];
    assert Number(b) == 256 * Number(b[..3]) + b[3];
    assert Number(b[..3]) == 256 * Number(b[..2]) + b[2];
    assert Number(b[..2]) == 256 * Number(b[..1]) + b[1];
    assert Number(b[..1]) == b[0];
  }

  lemma BigEndianIsWord(n: nat)
    requires n < 0x1_0000_0000
    ensures IsWord(BigEndian(n, 4), n)
  {
    WordBytes(n);
    NumberIsWord(BigEndian(n, 4));
  }

  lemma BigEndianIsShort(n: nat)
    requires n < 0x1_0000
    ensures IsShort(BigEndian(n, 2), n)
  {
    ShortBytes(n);
    var b := BigEndian(n, 2);
    assert Number(b) == 256 * Number(b[..1]) + b[1];
    assert Number(b[..1]) == b[0];
  }

  // ---- Frames ----

  /**
   A frame on the wire: the length of what follows, the version, the message id, the flag, the
   sequence number; with the flag's top bit set the route behind its length; the body.
   */
  lemma FrameOnTheWire(f: Frame)
    requires WellFormed(f) && |Payload(f)| < 0x1_0000_0000
    ensures var b := Layout(f);
            && |b| >= 14 && IsWord(b[..4], |b| - 4)
            && b[4] == f.ver && IsWord(b[5..9], f.msgId) && b[9] == f.flag && IsWord(b[10..14], f.seqNo)
            && (f.flag < 128 ==> b[14..] == f.body)
            && (f.flag >= 128 ==> |b| >= 16 + |f.route| && IsShort(b[14..16], |f.route|) &&
                                  b[16..16 + |f.route|] == f.route && b[16 + |f.route|..] == f.body)
  {
    hide BigEndian, Header, RoutePart, IsWord, IsShort;
    var p, tail := Payload(f), RoutePart(f) + f.body;
    assert p == Header(f) + tail;
    HeaderSplits(f, tail);
    BigEndianIsWord(|p|);
    BigEndianIsWord(f.msgId);
    BigEndianIsWord(f.seqNo);
    RouteSplits(f);
    if f.flag >= 128 {
      BigEndianIsShort(|f.route|);
    }
    BehindTheLength(BigEndian(|p|, 4), p, |f.route|);
  }

  /** The parts of `p` behind four more bytes. */
  lemma BehindTheLength(length: Bytes, p: Bytes, n: nat)
    requires |length| == 4 && |p| >= 10
    ensures var b := length + p;
            && b[..4] == length && b[4] == p[0] && b[5..9] == p[1..5] && b[9] == p[5] && b[10..14] == p[6..10] && b[14..] == p[10..]
            && (|p| >= 12 + n ==>
                  b[14..16] == p[10..][..2] && b[16..16 + n] == p[10..][2..2 + n] && b[16 + n..] == p[10..][2 + n..])
  {
    var b := length + p;
    assert b[14..] == p[10..];
    if |p| >= 12 + n {
      assert b[14..][..2] == b[14..16] && b[14..][2..2 + n] == b[16..16 + n] && b[14..][2 + n..] == b[16 + n..];
    }
  }

  lemma RouteSplits(f: Frame)
    ensures f.flag < 128 ==> RoutePart(f) + f.body == f.body
    ensures f.flag >= 128 ==>
            var tail := RoutePart(f) + f.body;
            |tail| >= 2 + |f.route| && tail[..2] == BigEndian(|f.route|, 2) && tail[2..2 + |f.route|] == f.route && tail[2 + |f.route|..] == f.body
  {
    hide BigEndian;
  }

  /** The encoder changes nothing but the flag's top bit, which says whether there is a route. */
  lemma RouteBit(f: Frame)
    ensures var g := Normal(f);
            && g.ver == f.ver && g.msgId == f.msgId && g.seqNo == f.seqNo && g.route == f.route && g.body == f.body
            && g.flag % 128 == f.flag % 128 && (g.flag >= 128 <==> f.route != [])
  {
  }

  /** What the reader decides from the length alone: at least a header, at most the limit, 65536 unless a positive one is given. */
  lemma LengthDecides(b: Bytes, n: nat, max: int)
    requires |b| >= 4 && IsWord(b[..4], n)
    ensures n < 10 ==> ParseFrame(b, max) == Fail(BadFrame)
    ensures n >= 10 && n > (if max > 0 then max else 65536) ==> ParseFrame(b, max) == Fail(TooLarge)
    ensures 10 <= n <= (if max > 0 then max else 65536) && |b| < 4 + n ==> ParseFrame(b, max) == Fail(ShortRead)
  {
    hide Number;
    NumberIsWord(b[..4]);
  }

  // ---- Header lines ----

  /** ASCII digits. */
  predicate Digits(b: Bytes) {
    forall i | 0 <= i < |b| :: 48 <= b[i] <= 57
  }

  function Value(b: Bytes): int {
    if b == [] then 0 else 10 * Value(b[..|b| - 1]) + (b[|b| - 1] as int - 48)
  }

  /** `b` is `n` in decimal, without leading zeros. */
  predicate Numeral(b: Bytes, n: nat) {
    |b| >= 1 && Digits(b) && Value(b) == n && (b[0] == 48 ==> |b| == 1)
  }

  lemma {:induction false} SameValue(b: Bytes)
    requires Digits(b)
    ensures IsDigits(b) && DigitsValue(b) == Value(b) && Value(b) >= 0
  {
    if b != [] {
      SameValue(b[..|b| - 1]);
    }
  }

  lemma {:induction false} DecimalIsNumeral(n: nat)
    ensures Numeral(Decimal(n), n) && (n > 0 ==> Decimal(n)[0] != 48)
  {
    if n >= 10 {
      DecimalIsNumeral(n / 10);
      assert Decimal(n)[..|Decimal(n)| - 1] == Decimal(n / 10);
    } else {
      assert Decimal(n)[..0] == [];
    }
  }

  /** The header line: uid, session and gateway as they are, type and sequence number in decimal, bars between them. */
  lemma LineOnTheWire(h: InnerHeader) returns (t: Bytes, q: Bytes)
    ensures Numeral(t, h.msgType) && Numeral(q, h.forwardSeq)
    ensures HeaderLine(h) == h.uid + [124] + h.session + [124] + h.gateway + [124] + t + [124] + q
  {
    hide Decimal, Numeral;
    t, q := Decimal(h.msgType), Decimal(h.forwardSeq);
    DecimalIsNumeral(h.msgType);
    DecimalIsNumeral(h.forwardSeq);
  }

  /** A newline ends the header line, and the frame follows if it can be encoded. */
  lemma InnerOnTheWire(m: Message)
    ensures |m.frame.route| <= 65535 && |Payload(Normal(m.frame))| < 0x1_0000_0000 ==>
              InnerBytes(m) == HeaderLine(m.header) + [10] + Layout(Normal(m.frame))
    ensures |m.frame.route| > 65535 || |Payload(Normal(m.frame))| >= 0x1_0000_0000 ==>
              InnerBytes(m) == HeaderLine(m.header) + [10]
  {
    hide HeaderLine, Layout, Payload, Normal;
  }

  /** `b` is a number with an optional sign. */
  predicate SignedNumeral(b: Bytes, digits: Bytes, n: int) {
    && digits != [] && Digits(digits)
    && ((b == digits && n == Value(digits)) || (b == [43] + digits && n == Value(digits)) || (b == [45] + digits && n == -Value(digits)))
  }

  /** The numbers of a header line are signed decimals that fit 64 bits; anything else is refused. */
  lemma AtoiIff(b: Bytes, n: int)
    ensures Atoi(b) == Ok(n) <==> -0x8000_0000_0000_0000 <= n < 0x8000_0000_0000_0000 && exists digits :: SignedNumeral(b, digits, n)
  {
    hide Value, DigitsValue;
    if Atoi(b) == Ok(n) {
      var digits := if b[0] == 45 || b[0] == 43 then b[1..] else b;
      assert IsDigits(digits) && Digits(digits);
      SameValue(digits);
      assert b == [b[0]] + b[1..];
      assert SignedNumeral(b, digits, n);
    }
    forall digits | SignedNumeral(b, digits, n) && -0x8000_0000_0000_0000 <= n < 0x8000_0000_0000_0000 ensures Atoi(b) == Ok(n) {
      SameValue(digits);
      if b != digits {
        assert b[1..] == digits;
      }
    }
  }

  /** Each number is cut to its field: one byte for the type, four for the sequence number. */
  lemma LineReads(h: InnerHeader, t: Bytes, q: Bytes, dt: Bytes, dq: Bytes, kind: int, seqNo: int)
    requires CleanHeader(h) && SignedNumeral(t, dt, kind) && SignedNumeral(q, dq, seqNo)
    requires -0x8000_0000_0000_0000 <= kind < 0x8000_0000_0000_0000 && -0x8000_0000_0000_0000 <= seqNo < 0x8000_0000_0000_0000
    ensures ParseLine(h.uid + [124] + (h.session + [124] + (h.gateway + [124] + (t + [124] + q)))) ==
            Ok(InnerHeader(h.uid, h.session, h.gateway, kind % 256, seqNo % 0x1_0000_0000))
  {
    hide IndexOf, SplitN, Atoi, Digits, Value;
    AtoiIff(t, kind);
    AtoiIff(q, seqNo);
    assert 124 !in t by { DigitsHoldNoBar(t, dt, kind); }
    SplitFirst(h.uid, h.session + [124] + (h.gateway + [124] + (t + [124] + q)), 5);
    SplitFirst(h.session, h.gateway + [124] + (t + [124] + q), 4);
    SplitFirst(h.gateway, t + [124] + q, 3);
    SplitFirst(t, q, 2);
    SplitLast(q);
  }

  lemma DigitsHoldNoBar(b: Bytes, digits: Bytes, n: int)
    requires SignedNumeral(b, digits, n)
    ensures 124 !in b
  {
  }

  // ---- Envelopes ----

  /** An envelope: the length of the data, then the data. */
  lemma EnvelopeOnTheWire(data: Bytes)
    requires |data| < 0x1_0000_0000
    ensures var b := Envelope(data); |b| == 4 + |data| && IsWord(b[..4], |data|) && b[4..] == data
  {
    hide BigEndian;
    BigEndianIsWord(|data|);
    assert |data| % WORD == |data|;
  }

  /** What the receiver makes of the next envelope, by its length. */
  lemma EnvelopeReads(b: Bytes, n: nat)
    requires |b| >= 4 && IsWord(b[..4], n)
    ensures n == 0 ==> ReadEnvelope(b) == Fail(BadFrame)
    ensures n > 0 && |b| < 4 + n ==> ReadEnvelope(b) == Fail(ShortRead)
    ensures n > 0 && |b| >= 4 + n ==>
              ReadEnvelope(b) == match ParseInner(b[4..4 + n]) case Err => Fail(BadFrame) case Ok(m) => Got(m, b[4 + n..])
  {
    hide Number, ParseInner;
    NumberIsWord(b[..4]);
  }

  /** Messages of type 3 keep the link alive and are handed to nobody; all others are handed on. */
  lemma KeepalivesStopHere(m: Message, rest: Bytes)
    requires Linkable(m)
    ensures Received(Envelope(InnerBytes(m)) + rest) == (if m.header.msgType == 3 then [] else [Delivered(m)]) + Received(rest)
  {
    hide ReadEnvelope, Envelope, InnerBytes, ParseInner, Sendable;
    OneEnvelope(m, rest);
    SendableArrives(m);
    DeliveredType(m);
  }
}

/**
 The client frame: a 4-byte length, a fixed header, an optional route and the body.
 `Layout` is the format; the encoder writes it and the decoder accepts exactly it.
 */
module Frames {
  import opened Common
  import opened Wire

  const HEADER := 10
  const DEFAULT_MAX := 65536
  const MAX_ROUTE := 65535

  datatype FrameError = ShortRead | BadFrame | TooLarge

  /** What a reader gets from the front of a stream, and the stream that is left. */
  datatype Read<+T> = Got(value: T, rest: Bytes) | Fail(error: FrameError)

  type Word = n: int | 0 <= n < 0x1_0000_0000

  datatype Frame = Frame(ver: Byte, msgId: Word, flag: Byte, seqNo: Word, route: Bytes, body: Bytes)

  // ---- Big-endian numbers ----

  function Power256(k: nat): (p: nat)
    ensures p >= 1
  {
    if k == 0 then 1 else 256 * Power256(k - 1)
  }

  function BigEndian(n: nat, k: nat): (b: Bytes)
    ensures |b| == k
  {
    if k == 0 then [] else BigEndian(n / 256, k - 1) + [n % 256]
  }

  function Number(b: Bytes): (n: nat) {
    if b == [] then 0 else 256 * Number(b[..|b| - 1]) + b[|b| - 1]
  }

  lemma {:induction false} NumberOfBytes(n: nat, k: nat)
    requires n < Power256(k)
    ensures Number(BigEndian(n, k)) == n
  {
    if k > 0 {
      NumberOfBytes(n / 256, k - 1);
      assert BigEndian(n, k)[..k - 1] == BigEndian(n / 256, k - 1);
    }
  }

  lemma {:induction false} BytesOfNumber(b: Bytes)
    ensures Number(b) < Power256(|b|) && BigEndian(Number(b), |b|) == b
  {
    if b != [] {
      BytesOfNumber(b[..|b| - 1]);
      assert Number(b) / 256 == Number(b[..|b| - 1]) && Number(b) % 256 == b[|b| - 1];
      assert b == b[..|b| - 1] + [b[|b| - 1]];
    }
  }

  lemma WordBytes(n: nat)
    requires n < WORD
    ensures Number(BigEndian(n, 4)) == n
  {
    assert Power256(4) == WORD;
    NumberOfBytes(n, 4);
  }

  lemma WordNumber(b: Bytes)
    requires |b| == 4
    ensures Number(b) < WORD && BigEndian(Number(b), 4) == b
  {
    assert Power256(4) == WORD;
    BytesOfNumber(b);
  }

  lemma ShortBytes(n: nat)
    requires n <= MAX_ROUTE
    ensures Number(BigEndian(n, 2)) == n
  {
    assert Power256(2) == MAX_ROUTE + 1;
    NumberOfBytes(n, 2);
  }

  lemma ShortNumber(b: Bytes)
    requires |b| == 2
    ensures Number(b) <= MAX_ROUTE && BigEndian(Number(b), 2) == b
  {
    assert Power256(2) == MAX_ROUTE + 1;
    BytesOfNumber(b);
  }

  // ---- The format ----

  function RoutePart(f: Frame): Bytes {
    if f.flag >= 128 then BigEndian(|f.route|, 2) + f.route else []
  }

  function Header(f: Frame): (b: Bytes)
    ensures |b| == HEADER
  {
    [f.ver] + BigEndian(f.msgId, 4) + [f.flag] + BigEndian(f.seqNo, 4)
  }

  function Payload(f: Frame): Bytes {
    Header(f) + RoutePart(f) + f.body
  }

  function Layout(f: Frame): Bytes {
    BigEndian(|Payload(f)|, 4) + Payload(f)
  }

  /** Only a flagged frame carries a route, and its length fits two bytes. */
  predicate WellFormed(f: Frame) {
    |f.route| <= MAX_ROUTE && (f.flag < 128 ==> f.route == [])
  }

  /** The flag's top bit says whether there is a route. */
  function Normal(f: Frame): (g: Frame)
    ensures |f.route| <= MAX_ROUTE ==> WellFormed(g)
  {
    if f.route != [] then f.(flag := if f.flag >= 128 then f.flag else f.flag + 128)
    else f.(flag := if f.flag >= 128 then f.flag - 128 else f.flag)
  }

  predicate Encodable(f: Frame) {
    |f.route| <= MAX_ROUTE && |Payload(Normal(f))| < WORD
  }

  // ---- Encoding into a fixed buffer ----

  method Put(a: array<Byte>, pos: nat, b: Bytes)
    requires pos + |b| <= a.Length
    modifies a
    ensures a[..pos + |b|] == old(a[..pos]) + b
  {
    var i := 0;
    while i < |b|
      invariant i <= |b|
      invariant a[..pos + i] == old(a[..pos]) + b[..i]
    {
      a[pos + i] := b[i];
      assert b[..i + 1] == b[..i] + [b[i]];
      assert a[..pos + (i + 1)] == a[..pos + i] + [b[i]];
      i := i + 1;
    }
    assert b[..|b|] == b;
  }

  method EncodeFrame(f: Frame) returns (g: Frame, r: Result<Bytes>)
    ensures r == if Encodable(f) then Ok(Layout(Normal(f))) else Err
    ensures |f.route| <= MAX_ROUTE ==> g == Normal(f)
  {
    hide BigEndian, Header, Payload;
    g := f;
    if |f.route| > MAX_ROUTE {
      return g, Err;
    }
    var payloadLen := HEADER + |f.body|;
    if f.route != [] {
      g := f.(flag := if f.flag >= 128 then f.flag else f.flag + 128);
      payloadLen := payloadLen + 2 + |f.route|;
    } else {
      g := f.(flag := if f.flag >= 128 then f.flag - 128 else f.flag);
    }
    PayloadLength(g);
    if payloadLen >= WORD {
      return g, Err;
    }
    r := Write(g, payloadLen);
  }

  lemma PayloadLength(f: Frame)
    ensures |Payload(f)| == HEADER + |RoutePart(f)| + |f.body|
  {
  }

  /** Fills the buffer of the announced length, part by part. */
  method Write(f: Frame, payloadLen: nat) returns (r: Result<Bytes>)
    requires |f.route| <= MAX_ROUTE && (f.flag >= 128 <==> f.route != []) && payloadLen == |Payload(f)| < WORD
    ensures r == Ok(Layout(f))
  {
    hide BigEndian, Header;
    PayloadLength(f);
    var out := new Byte[4 + payloadLen];
    Put(out, 0, BigEndian(payloadLen, 4));
    Put(out, 4, Header(f));
    var pos := 4 + HEADER;
    if f.route != [] {
      Put(out, pos, BigEndian(|f.route|, 2) + f.route);
      pos := pos + 2 + |f.route|;
    }
    assert out[..pos] == BigEndian(payloadLen, 4) + Header(f) + RoutePart(f);
    Put(out, pos, f.body);
    assert out[..] == BigEndian(payloadLen, 4) + (Header(f) + RoutePart(f) + f.body);
    r := Ok(out[..]);
  }

  // ---- Decoding ----

  function Limit(max: int): int {
    if max <= 0 then DEFAULT_MAX else max
  }

  /** The payload's length can be written and is within the reader's limit. */
  predicate Fits(f: Frame, max: int) {
    |Payload(f)| < WORD && |Payload(f)| <= Limit(max)
  }

  /** The frame in a payload of at least a header. */
  function ParsePayload(p: Bytes): Result<Frame>
    requires |p| >= HEADER
  {
    WordNumber(p[1..5]);
    WordNumber(p[6..10]);
    var f := Frame(p[0], Number(p[1..5]), p[5], Number(p[6..10]), [], p[HEADER..]);
    if f.flag < 128 then Ok(f)
    else if |f.body| < 2 || Number(f.body[..2]) > |f.body| - 2 then Err
    else
      var n := Number(f.body[..2]);
      Ok(f.(route := f.body[2..2 + n], body := f.body[2 + n..]))
  }

  function ParseFrame(b: Bytes, max: int): Read<Frame> {
    if |b| < 4 then Fail(ShortRead)
    else
      var n := Number(b[..4]);
      if n < HEADER then Fail(BadFrame)
      else if n > Limit(max) then Fail(TooLarge)
      else if |b| < 4 + n then Fail(ShortRead)
      else
        match ParsePayload(b[4..4 + n])
        case Err => Fail(BadFrame)
        case Ok(f) => Got(f, b[4 + n..])
  }

  lemma HeaderSplits(f: Frame, tail: Bytes)
    ensures var p := Header(f) + tail;
            p[0] == f.ver && p[1..5] == BigEndian(f.msgId, 4) && p[5] == f.flag && p[6..10] == BigEndian(f.seqNo, 4) && p[HEADER..] == tail
  {
    hide BigEndian;
  }

  lemma ParsesWhatIsLaidOut(f: Frame)
    requires WellFormed(f)
    ensures ParsePayload(Payload(f)) == Ok(f)
  {
    hide BigEndian, Number, Header;
    var tail := RoutePart(f) + f.body;
    assert Payload(f) == Header(f) + tail;
    HeaderSplits(f, tail);
    WordBytes(f.msgId);
    WordBytes(f.seqNo);
    if f.flag >= 128 {
      ShortBytes(|f.route|);
      assert tail[..2] == BigEndian(|f.route|, 2);
      assert tail[2..2 + |f.route|] == f.route && tail[2 + |f.route|..] == f.body;
    } else {
      assert tail == f.body;
    }
  }

  lemma ParsedHeader(p: Bytes)
    requires |p| >= HEADER && ParsePayload(p).Ok?
    ensures Header(ParsePayload(p).value) == p[..HEADER]
  {
    hide BigEndian, Number;
    WordNumber(p[1..5]);
    WordNumber(p[6..10]);
  }

  lemma ParsedIsLaidOut(p: Bytes)
    requires |p| >= HEADER && ParsePayload(p).Ok?
    ensures WellFormed(ParsePayload(p).value) && Payload(ParsePayload(p).value) == p
  {
    hide BigEndian, Number, Header;
    var f := ParsePayload(p).value;
    ParsedHeader(p);
    var tail := p[HEADER..];
    if f.flag >= 128 {
      ShortNumber(tail[..2]);
      assert RoutePart(f) + f.body == tail;
    } else {
      assert RoutePart(f) + f.body == tail;
    }
    assert p == p[..HEADER] + tail;
  }

  /** The decoder accepts exactly the layouts of well-formed frames within the limit, and leaves the rest of the stream. */
  lemma ParseFrameIff(b: Bytes, max: int, f: Frame, rest: Bytes)
    ensures ParseFrame(b, max) == Got(f, rest) <==> WellFormed(f) && Fits(f, max) && b == Layout(f) + rest
  {
    hide BigEndian, Number, ParsePayload, Payload;
    if WellFormed(f) && Fits(f, max) && b == Layout(f) + rest {
      var p := Payload(f);
      assert |p| >= HEADER by { PayloadHoldsHeader(f); }
      assert b[..4] == BigEndian(|p|, 4);
      WordBytes(|p|);
      assert b[4..4 + |p|] == p && b[4 + |p|..] == rest;
      ParsesWhatIsLaidOut(f);
    }
    if ParseFrame(b, max) == Got(f, rest) {
      var n := Number(b[..4]);
      WordNumber(b[..4]);
      ParsedIsLaidOut(b[4..4 + n]);
      assert b == b[..4] + b[4..4 + n] + b[4 + n..];
    }
  }

  lemma PayloadHoldsHeader(f: Frame)
    ensures |Payload(f)| >= HEADER
  {
  }

  /** A stream cut inside a frame is reported as a short read. */
  lemma CutFrameIsShort(f: Frame, max: int, k: nat)
    requires Fits(f, max) && k < |Layout(f)|
    ensures ParseFrame(Layout(f)[..k], max) == Fail(ShortRead)
  {
    hide BigEndian, Number, ParsePayload, Payload;
    if k >= 4 {
      assert Layout(f)[..k][..4] == BigEndian(|Payload(f)|, 4);
      WordBytes(|Payload(f)|);
      PayloadHoldsHeader(f);
    }
  }

  /** Encoding and decoding a frame gives it back with the route bit set right, whatever follows in the stream. */
  lemma FrameRoundTrip(f: Frame, max: int, rest: Bytes)
    requires |f.route| <= MAX_ROUTE && Fits(Normal(f), max)
    ensures Encodable(f) && ParseFrame(Layout(Normal(f)) + rest, max) == Got(Normal(f), rest)
  {
    ParseFrameIff(Layout(Normal(f)) + rest, max, Normal(f), rest);
  }

  method DecodeFrame(b: Bytes, max: int) returns (r: Read<Frame>)
    ensures r == ParseFrame(b, max)
  {
    hide BigEndian, Number;
    var limit := if max <= 0 then DEFAULT_MAX else max;
    if |b| < 4 {
      return Fail(ShortRead);
    }
    var payloadLen := Number(b[..4]);
    if payloadLen < HEADER {
      return Fail(BadFrame);
    }
    if payloadLen > limit {
      return Fail(TooLarge);
    }
    if |b| < 4 + payloadLen {
      return Fail(ShortRead);
    }
    var payload, rest := b[4..4 + payloadLen], b[4 + payloadLen..];
    WordNumber(payload[1..5]);
    WordNumber(payload[6..10]);
    var pos := HEADER;
    var f := Frame(payload[0], Number(payload[1..5]), payload[5], Number(payload[6..10]), [], []);
    if payloadLen - pos > 0 {
      if f.flag >= 128 {
        var left := payloadLen - pos;
        if left < 2 {
          return Fail(BadFrame);
        }
        var routeLen := Number(payload[pos..pos + 2]);
        assert payload[pos..pos + 2] == payload[HEADER..][..2];
        pos := pos + 2;
        if routeLen > left - 2 {
          return Fail(BadFrame);
        }
        f := f.(route := payload[pos..pos + routeLen]);
        assert f.route == payload[HEADER..][2..2 + routeLen];
        pos := pos + routeLen;
        assert payload[pos..] == payload[HEADER..][2 + routeLen..];
      }
      f := f.(body := payload[pos..]);
    } else if f.flag >= 128 {
      return Fail(BadFrame);
    }
    assert f.body == if f.flag >= 128 then payload[HEADER..][2 + |f.route|..] else payload[HEADER..];
    assert ParsePayload(payload) == Ok(f);
    r := Got(f, rest);
  }
}

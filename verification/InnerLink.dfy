/**
 The header a gateway puts before a client frame on the link to a logic node: three ids and
 two decimal numbers separated by bars, ended by a newline.
 */
module InnerLink {
  import opened Common
  import opened Wire
  import opened Frames

  const BAR: Byte := 124
  const NEWLINE: Byte := 10
  const MINUS: Byte := 45
  const PLUS: Byte := 43
  const ZERO: Byte := 48

  datatype InnerHeader = InnerHeader(uid: Bytes, session: Bytes, gateway: Bytes, msgType: Byte, forwardSeq: Word)

  datatype Message = Message(header: InnerHeader, frame: Frame)

  // ---- Decimal numbers ----

  function Decimal(n: nat): (b: Bytes)
    ensures |b| >= 1
  {
    if n < 10 then [ZERO + n] else Decimal(n / 10) + [ZERO + n % 10]
  }

  predicate IsDigits(b: Bytes) {
    forall i | 0 <= i < |b| :: ZERO <= b[i] < ZERO + 10
  }

  function DigitsValue(b: Bytes): int
    requires IsDigits(b)
  {
    if b == [] then 0 else 10 * DigitsValue(b[..|b| - 1]) + (b[|b| - 1] - ZERO)
  }

  /** A signed decimal number of 64 bits, as the standard library reads it. */
  function Atoi(b: Bytes): Result<int> {
    var digits := if b != [] && (b[0] == MINUS || b[0] == PLUS) then b[1..] else b;
    if digits == [] || !IsDigits(digits) then Err
    else
      var n := if b[0] == MINUS then -DigitsValue(digits) else DigitsValue(digits);
      if -TWO63 <= n < TWO63 then Ok(n) else Err
  }

  lemma {:induction false} DecimalIsDigits(n: nat)
    ensures IsDigits(Decimal(n)) && DigitsValue(Decimal(n)) == n
  {
    if n >= 10 {
      DecimalIsDigits(n / 10);
      assert Decimal(n)[..|Decimal(n)| - 1] == Decimal(n / 10);
    }
  }

  lemma AtoiOfDecimal(n: nat)
    requires n < TWO63
    ensures Atoi(Decimal(n)) == Ok(n)
  {
    DecimalIsDigits(n);
    assert ZERO <= Decimal(n)[0];
  }

  // ---- Splitting at bars ----

  function IndexOf(b: Bytes, c: Byte): (i: nat)
    ensures i <= |b| && (i < |b| ==> b[i] == c) && c !in b[..i]
  {
    if b == [] || b[0] == c then 0 else
      assert forall i | 1 <= i <= |b| :: b[..i] == [b[0]] + b[1..][..i - 1];
      1 + IndexOf(b[1..], c)
  }

  /** Splits at the first `n - 1` bars. */
  function SplitN(b: Bytes, n: nat): (parts: seq<Bytes>)
    requires n >= 1
    ensures 1 <= |parts| <= n
    decreases n
  {
    var i := IndexOf(b, BAR);
    if n == 1 || i == |b| then [b] else [b[..i]] + SplitN(b[i + 1..], n - 1)
  }

  lemma {:induction false} IndexOfFirst(a: Bytes, c: Byte, rest: Bytes)
    requires c !in a
    ensures IndexOf(a + [c] + rest, c) == |a|
  {
    if a != [] {
      assert (a + [c] + rest)[1..] == a[1..] + [c] + rest;
      IndexOfFirst(a[1..], c, rest);
    }
  }

  lemma SplitFirst(a: Bytes, rest: Bytes, n: nat)
    requires n >= 2 && BAR !in a
    ensures SplitN(a + [BAR] + rest, n) == [a] + SplitN(rest, n - 1)
  {
    hide IndexOf;
    IndexOfFirst(a, BAR, rest);
    var b := a + [BAR] + rest;
    assert b[..|a|] == a && b[|a| + 1..] == rest;
  }

  /** Every part but the last is free of bars, and parts hold only bytes of the whole. */
  lemma {:induction false} PartIsClean(b: Bytes, n: nat, k: nat)
    requires n >= 1 && k < |SplitN(b, n)|
    ensures k < n - 1 ==> BAR !in SplitN(b, n)[k]
    ensures NEWLINE !in b ==> NEWLINE !in SplitN(b, n)[k]
    decreases n
  {
    hide IndexOf;
    var i := IndexOf(b, BAR);
    if n > 1 && i < |b| {
      if k > 0 {
        assert NEWLINE !in b ==> NEWLINE !in b[i + 1..];
        PartIsClean(b[i + 1..], n - 1, k - 1);
      }
    } else {
      assert b[..|b|] == b;
    }
  }

  /** No bar is lost: the ones not split at are in the last part. */
  lemma {:induction false} SplitKeepsBars(b: Bytes, n: nat)
    requires n >= 1
    ensures var parts := SplitN(b, n);
            multiset(b)[BAR] == |parts| - 1 + multiset(parts[|parts| - 1])[BAR]
    decreases n
  {
    hide IndexOf;
    var i := IndexOf(b, BAR);
    if n > 1 && i < |b| {
      SplitKeepsBars(b[i + 1..], n - 1);
      assert b == b[..i] + [BAR] + b[i + 1..];
      assert multiset(b[..i])[BAR] == 0;
    }
  }

  // ---- The header line ----

  function HeaderLine(h: InnerHeader): Bytes {
    h.uid + [BAR] + (h.session + [BAR] + (h.gateway + [BAR] + (Decimal(h.msgType) + [BAR] + Decimal(h.forwardSeq))))
  }

  function ParseLine(line: Bytes): Result<InnerHeader> {
    var parts := SplitN(line, 5);
    if |parts| != 5 || Atoi(parts[3]).Err? || Atoi(parts[4]).Err? then Err
    else Ok(InnerHeader(parts[0], parts[1], parts[2], Atoi(parts[3]).value % 256, Atoi(parts[4]).value % WORD))
  }

  predicate Clean(b: Bytes) {
    BAR !in b && NEWLINE !in b
  }

  predicate CleanHeader(h: InnerHeader) {
    Clean(h.uid) && Clean(h.session) && Clean(h.gateway)
  }

  lemma NumbersAreClean(n: nat)
    ensures Clean(Decimal(n))
  {
    DecimalIsDigits(n);
  }

  lemma LineSplits(h: InnerHeader)
    requires CleanHeader(h)
    ensures SplitN(HeaderLine(h), 5) == [h.uid, h.session, h.gateway, Decimal(h.msgType), Decimal(h.forwardSeq)]
  {
    hide IndexOf, Decimal, SplitN;
    NumbersAreClean(h.msgType);
    NumbersAreClean(h.forwardSeq);
    var d := Decimal(h.forwardSeq);
    SplitFirst(h.uid, h.session + [BAR] + (h.gateway + [BAR] + (Decimal(h.msgType) + [BAR] + d)), 5);
    SplitFirst(h.session, h.gateway + [BAR] + (Decimal(h.msgType) + [BAR] + d), 4);
    SplitFirst(h.gateway, Decimal(h.msgType) + [BAR] + d, 3);
    SplitFirst(Decimal(h.msgType), d, 2);
    SplitLast(d);
  }

  lemma SplitLast(b: Bytes)
    ensures SplitN(b, 1) == [b]
  {
  }

  lemma LineRoundTrip(h: InnerHeader)
    requires CleanHeader(h)
    ensures ParseLine(HeaderLine(h)) == Ok(h) && NEWLINE !in HeaderLine(h)
  {
    hide SplitN, Atoi, Decimal;
    LineSplits(h);
    AtoiOfDecimal(h.msgType);
    AtoiOfDecimal(h.forwardSeq);
    NumbersAreClean(h.msgType);
    NumbersAreClean(h.forwardSeq);
  }

  // ---- Header and frame ----

  /** A frame that cannot be encoded leaves only the header. */
  function InnerBytes(m: Message): Bytes {
    HeaderLine(m.header) + [NEWLINE] + FrameBytes(m.frame)
  }

  function FrameBytes(f: Frame): Bytes {
    if Encodable(f) then Layout(Normal(f)) else []
  }

  function ParseInner(data: Bytes): Result<Message> {
    var i := IndexOf(data, NEWLINE);
    if i == |data| || ParseLine(data[..i]).Err? then Err
    else
      match ParseFrame(data[i + 1..], 0)
      case Fail(_) => Err
      case Got(f, _) => Ok(Message(ParseLine(data[..i]).value, f))
  }

  function Delivered(m: Message): Message {
    Message(m.header, Normal(m.frame))
  }

  predicate Sendable(m: Message) {
    CleanHeader(m.header) && |m.frame.route| <= MAX_ROUTE && Fits(Normal(m.frame), 0)
  }

  lemma SendableArrives(m: Message)
    requires Sendable(m)
    ensures ParseInner(InnerBytes(m)) == Ok(Delivered(m))
  {
    hide IndexOf, HeaderLine, ParseLine, Layout, ParseFrame, Normal, Payload;
    LineRoundTrip(m.header);
    var line, f := HeaderLine(m.header), Normal(m.frame);
    FrameRoundTrip(m.frame, 0, []);
    IndexOfFirst(line, NEWLINE, Layout(f));
    var data := line + [NEWLINE] + Layout(f);
    assert data[..|line|] == line && data[|line| + 1..] == Layout(f) + [];
  }

  /** What a parsed header holds is always clean. */
  lemma ParsedHeaderIsClean(line: Bytes)
    requires ParseLine(line).Ok? && NEWLINE !in line
    ensures CleanHeader(ParseLine(line).value)
  {
    hide SplitN, Atoi;
    PartIsClean(line, 5, 0);
    PartIsClean(line, 5, 1);
    PartIsClean(line, 5, 2);
  }

  lemma EncodedFrameArrives(m: Message)
    requires CleanHeader(m.header) && ParseInner(InnerBytes(m)) == Ok(Delivered(m))
    ensures Sendable(m)
  {
    hide IndexOf, HeaderLine, ParseLine, Layout, Payload;
    LineRoundTrip(m.header);
    var line := HeaderLine(m.header);
    var raw := if Encodable(m.frame) then Layout(Normal(m.frame)) else [];
    IndexOfFirst(line, NEWLINE, raw);
    var data := line + [NEWLINE] + raw;
    assert data[..|line|] == line && data[|line| + 1..] == raw;
    var read := ParseFrame(raw, 0);
    ParseFrameIff(raw, 0, read.value, read.rest);
    assert read.value == Normal(m.frame);
  }

  /**
   A message crosses the link unchanged, up to the route bit, exactly when its ids are free
   of bars and newlines and its frame can be encoded within the default limit.
   */
  lemma InnerRoundTripIff(m: Message)
    ensures ParseInner(InnerBytes(m)) == Ok(Delivered(m)) <==> Sendable(m)
  {
    hide HeaderLine, ParseLine, Layout, ParseFrame, Normal, Payload, InnerBytes, Sendable;
    if Sendable(m) {
      SendableArrives(m);
    }
    if ParseInner(InnerBytes(m)) == Ok(Delivered(m)) {
      ParsedHeaderIsClean(InnerBytes(m)[..IndexOf(InnerBytes(m), NEWLINE)]);
      EncodedFrameArrives(m);
    }
  }

  lemma NumberHasNoBar(b: Bytes)
    requires BAR in b
    ensures Atoi(b).Err?
  {
    var k :| 0 <= k < |b| && b[k] == BAR;
    assert k > 0 ==> b[1..][k - 1] == BAR;
  }

  /** A header line with a bar in an id cannot be split back. */
  lemma BarBreaksTheLine(h: InnerHeader)
    requires BAR in h.uid || BAR in h.session || BAR in h.gateway
    ensures ParseLine(HeaderLine(h)).Err?
  {
    hide SplitN, Atoi, Decimal;
    var parts := SplitN(HeaderLine(h), 5);
    SplitKeepsBars(HeaderLine(h), 5);
    if |parts| == 5 {
      assert multiset(HeaderLine(h))[BAR] ==
             multiset(h.uid)[BAR] + multiset(h.session)[BAR] + multiset(h.gateway)[BAR] +
             multiset(Decimal(h.msgType))[BAR] + multiset(Decimal(h.forwardSeq))[BAR] + 4;
      assert multiset(parts[4])[BAR] >= 1;
      NumberHasNoBar(parts[4]);
    }
  }

  predicate OneLine(h: InnerHeader) {
    NEWLINE !in h.uid && NEWLINE !in h.session && NEWLINE !in h.gateway
  }

  lemma LineHasNewlineIff(h: InnerHeader)
    ensures NEWLINE in HeaderLine(h) <==> !OneLine(h)
  {
    hide Decimal;
    NumbersAreClean(h.msgType);
    NumbersAreClean(h.forwardSeq);
  }

  /** The decoder cuts at the first newline, which an id may hold. */
  lemma CutAtFirstNewline(m: Message)
    ensures var line, data := HeaderLine(m.header), InnerBytes(m);
            var i := IndexOf(line, NEWLINE);
            && IndexOf(data, NEWLINE) == i && i < |data|
            && data[..i] == line[..i]
            && data[i + 1..] == if i < |line| then line[i + 1..] + [NEWLINE] + FrameBytes(m.frame) else FrameBytes(m.frame)
  {
    hide HeaderLine, Layout, Normal, Encodable, IndexOf;
    var line := HeaderLine(m.header);
    var i := IndexOf(line, NEWLINE);
    if i < |line| {
      var rest := line[i + 1..] + [NEWLINE] + FrameBytes(m.frame);
      assert line == line[..i] + [NEWLINE] + line[i + 1..];
      IndexOfFirst(line[..i], NEWLINE, rest);
      assert InnerBytes(m) == line[..i] + [NEWLINE] + rest;
    } else {
      assert line[..i] == line;
      IndexOfFirst(line, NEWLINE, FrameBytes(m.frame));
      assert InnerBytes(m) == line + [NEWLINE] + FrameBytes(m.frame);
    }
  }

  /** With no newline in any id the message arrives as it was sent or not at all. */
  lemma OneLineIsNeverMisread(m: Message)
    requires OneLine(m.header)
    ensures var r := ParseInner(InnerBytes(m)); r == Err || r == Ok(Delivered(m))
  {
    hide HeaderLine, ParseLine, Layout, ParseFrame, Normal, Encodable, Payload;
    LineHasNewlineIff(m.header);
    CutAtFirstNewline(m);
    var line := HeaderLine(m.header);
    assert line[..|line|] == line;
    if !CleanHeader(m.header) {
      BarBreaksTheLine(m.header);
    } else {
      LineRoundTrip(m.header);
      FrameArrivesOrNot(m.frame);
    }
  }

  lemma FrameArrivesOrNot(f: Frame)
    ensures var r := ParseFrame(FrameBytes(f), 0); r.Fail? || r.value == Normal(f)
  {
    hide Layout, Payload, Normal;
    var r := ParseFrame(FrameBytes(f), 0);
    if r.Got? && Encodable(f) {
      ParseFrameIff(FrameBytes(f), 0, r.value, r.rest);
      SameStartSameFrame(r.value, r.rest, Normal(f));
    }
  }

  /** No frame's layout begins with another's. */
  lemma SameStartSameFrame(f: Frame, rest: Bytes, g: Frame)
    requires WellFormed(f) && WellFormed(g) && |Payload(f)| < WORD && |Payload(g)| < WORD && Layout(f) + rest == Layout(g)
    ensures f == g && rest == []
  {
    hide BigEndian, Number, ParsePayload, Payload;
    assert (Layout(f) + rest)[..4] == BigEndian(|Payload(f)|, 4) && Layout(g)[..4] == BigEndian(|Payload(g)|, 4);
    WordBytes(|Payload(f)|);
    WordBytes(|Payload(g)|);
    assert |rest| == 0;
    assert Payload(f) == (Layout(f) + rest)[4..] && Payload(g) == Layout(g)[4..];
    ParsesWhatIsLaidOut(f);
    ParsesWhatIsLaidOut(g);
  }

  /** A bar in an id without a newline is always refused. */
  lemma BarInAnIdIsRefused(m: Message)
    requires OneLine(m.header) && !CleanHeader(m.header)
    ensures ParseInner(InnerBytes(m)) == Err
  {
    hide HeaderLine, ParseLine, Layout, ParseFrame, Normal, Encodable, Payload;
    LineHasNewlineIff(m.header);
    CutAtFirstNewline(m);
    var line := HeaderLine(m.header);
    assert line[..|line|] == line;
    BarBreaksTheLine(m.header);
  }

  /** The ids hold a newline with a complete header line before it and a frame right after it. */
  ghost predicate HoldsAnother(m: Message) {
    var line := HeaderLine(m.header);
    var i := IndexOf(line, NEWLINE);
    && i < |line|
    && ParseLine(line[..i]).Ok?
    && exists f, rest :: WellFormed(f) && Fits(f, 0) && line[i + 1..] + [NEWLINE] + FrameBytes(m.frame) == Layout(f) + rest
  }

  /** A message is taken for a different one exactly when its ids hold another message. */
  lemma MisreadIff(m: Message)
    ensures (exists other :: ParseInner(InnerBytes(m)) == Ok(other) && other != Delivered(m)) <==> HoldsAnother(m)
  {
    hide HeaderLine, ParseLine, Layout, ParseFrame, Normal, Encodable, Payload, IndexOf, Fits, WellFormed;
    var line := HeaderLine(m.header);
    var i := IndexOf(line, NEWLINE);
    LineHasNewlineIff(m.header);
    CutAtFirstNewline(m);
    if OneLine(m.header) {
      OneLineIsNeverMisread(m);
    } else {
      FirstNewline(line);
      var tail := line[i + 1..] + [NEWLINE] + FrameBytes(m.frame);
      if ParseLine(line[..i]).Ok? {
        ParsedHeaderIsClean(line[..i]);
        forall f, rest ensures ParseFrame(tail, 0) == Got(f, rest) <==> WellFormed(f) && Fits(f, 0) && tail == Layout(f) + rest {
          ParseFrameIff(tail, 0, f, rest);
        }
        if ParseFrame(tail, 0).Got? {
          var r := ParseFrame(tail, 0);
          assert ParseInner(InnerBytes(m)) == Ok(Message(ParseLine(line[..i]).value, r.value));
          assert WellFormed(r.value) && Fits(r.value, 0) && tail == Layout(r.value) + r.rest;
        }
      }
    }
  }

  lemma FirstNewline(line: Bytes)
    requires NEWLINE in line
    ensures IndexOf(line, NEWLINE) < |line|
  {
    assert line[..|line|] == line;
  }

  /** A uid that is itself a header line, a newline and a frame: that frame arrives under that header. */
  lemma EmbeddedMessageIsMisread(m: Message, h: InnerHeader, f: Frame)
    requires CleanHeader(h) && |f.route| <= MAX_ROUTE && Fits(Normal(f), 0)
    requires m.header.uid == HeaderLine(h) + [NEWLINE] + Layout(Normal(f))
    ensures ParseInner(InnerBytes(m)) == Ok(Message(h, Normal(f))) && HoldsAnother(m)
  {
    hide HeaderLine, ParseLine, Layout, ParseFrame, Normal, Payload, IndexOf, FrameBytes, LineTail;
    LineRoundTrip(h);
    var line, inner, tail, raw := HeaderLine(h), Layout(Normal(f)), LineTail(m.header), FrameBytes(m.frame);
    LineBeginsWithUid(m.header);
    Around(line, inner, tail, raw);
    IndexOfFirst(line, NEWLINE, inner + tail);
    CutAtFirstNewline(m);
    FrameRoundTrip(f, 0, tail + [NEWLINE] + raw);
  }

  lemma Around(a: Bytes, b: Bytes, t: Bytes, e: Bytes)
    ensures var line := a + [NEWLINE] + b + t;
            && line == a + [NEWLINE] + (b + t) && |a| < |line| && line[..|a|] == a
            && line[|a| + 1..] + [NEWLINE] + e == b + (t + [NEWLINE] + e)
  {
  }

  /** The header line behind the uid. */
  function LineTail(h: InnerHeader): Bytes {
    [BAR] + (h.session + [BAR] + (h.gateway + [BAR] + (Decimal(h.msgType) + [BAR] + Decimal(h.forwardSeq))))
  }

  lemma LineBeginsWithUid(h: InnerHeader)
    ensures HeaderLine(h) == h.uid + LineTail(h)
  {
    hide Decimal;
  }

  method EncodeInner(m: Message) returns (out: Bytes)
    ensures out == InnerBytes(m)
  {
    hide HeaderLine, Layout;
    var g, raw := EncodeFrame(m.frame);
    out := HeaderLine(m.header) + [NEWLINE] + if raw.Ok? then raw.value else [];
  }

  method DecodeInner(data: Bytes) returns (r: Result<Message>)
    ensures r == ParseInner(data)
  {
    hide IndexOf, ParseLine, ParseFrame;
    var i := 0;
    while i < |data| && data[i] != NEWLINE
      invariant i <= |data| && NEWLINE !in data[..i]
    {
      i := i + 1;
    }
    if i < |data| {
      IndexOfFirst(data[..i], NEWLINE, data[i + 1..]);
      assert data == data[..i] + [NEWLINE] + data[i + 1..];
    } else {
      assert data[..i] == data;
    }
    assert i == IndexOf(data, NEWLINE);
    if i == |data| {
      return Err;
    }
    var header := ParseLine(data[..i]);
    if header.Err? {
      return Err;
    }
    var read := DecodeFrame(data[i + 1..], 0);
    if read.Fail? {
      return Err;
    }
    r := Ok(Message(header.value, read.value));
  }
}

/**
 The byte stream between two nodes: length-prefixed envelopes, gathered into batches by the
 writer and read one by one by the receiver.
 */
module NodeLink {
  import opened Common
  import opened Wire
  import opened Frames
  import opened InnerLink

  const BATCH := 4096
  const KEEPALIVE: Byte := 3

  // ---- Envelopes ----

  function Envelope(data: Bytes): (b: Bytes)
    ensures |b| >= 4
  {
    BigEndian(|data| % WORD, 4) + data
  }

  function ReadEnvelope(b: Bytes): (r: Read<Message>)
    ensures r.Got? ==> |r.rest| < |b|
  {
    if |b| < 4 then Fail(ShortRead)
    else
      var n := Number(b[..4]);
      if n == 0 then Fail(BadFrame)
      else if |b| < 4 + n then Fail(ShortRead)
      else
        match ParseInner(b[4..4 + n])
        case Err => Fail(BadFrame)
        case Ok(m) => Got(m, b[4 + n..])
  }

  /** A message whose length the prefix can hold. */
  predicate Short(m: Message) {
    |InnerBytes(m)| < WORD
  }

  /** A short message that survives the link. */
  predicate Linkable(m: Message) {
    Sendable(m) && Short(m)
  }

  /** One envelope is read as its inner message is, and one that is refused ends the stream. */
  lemma OneEnvelope(m: Message, rest: Bytes)
    requires Short(m)
    ensures ReadEnvelope(Envelope(InnerBytes(m)) + rest) ==
            match ParseInner(InnerBytes(m)) case Err => Fail(BadFrame) case Ok(x) => Got(x, rest)
  {
    hide BigEndian, Number, ParseInner, InnerBytes;
    var data := InnerBytes(m);
    InnerIsNotEmpty(m);
    WordBytes(|data|);
    var b := Envelope(data) + rest;
    assert |data| % WORD == |data|;
    assert b[..4] == BigEndian(|data|, 4) && b[4..4 + |data|] == data && b[4 + |data|..] == rest;
  }

  lemma InnerIsNotEmpty(m: Message)
    ensures |InnerBytes(m)| > 0
  {
  }

  lemma CutEnvelopeIsShort(m: Message, k: nat)
    requires Short(m) && k < |Envelope(InnerBytes(m))|
    ensures ReadEnvelope(Envelope(InnerBytes(m))[..k]) == Fail(ShortRead)
  {
    hide BigEndian, Number, ParseInner, InnerBytes;
    var data := InnerBytes(m);
    InnerIsNotEmpty(m);
    WordBytes(|data|);
    assert |data| % WORD == |data|;
    if k >= 4 {
      assert Envelope(data)[..k][..4] == BigEndian(|data|, 4);
    }
  }

  // ---- The receiver ----

  /** Messages handed on from a stream, up to its end or the first fault; keepalives stop here. */
  function Received(b: Bytes): seq<Message>
    decreases |b|
  {
    match ReadEnvelope(b)
    case Fail(_) => []
    case Got(m, rest) => (if m.header.msgType == KEEPALIVE then [] else [m]) + Received(rest)
  }

  method ReadAll(b: Bytes) returns (got: seq<Message>)
    ensures got == Received(b)
  {
    hide ReadEnvelope;
    var left := b;
    got := [];
    while true
      invariant got + Received(left) == Received(b)
      decreases |left|
    {
      var r := ReadEnvelope(left);
      if r.Fail? {
        return;
      }
      left := r.rest;
      if r.value.header.msgType != KEEPALIVE {
        got := got + [r.value];
      }
    }
  }

  // ---- Streams of messages ----

  function Envelopes(ms: seq<Message>): (parts: seq<Bytes>)
    ensures |parts| == |ms|
  {
    seq(|ms|, i requires 0 <= i < |ms| => Envelope(InnerBytes(ms[i])))
  }

  /** The messages as their handler sees them. */
  function Business(ms: seq<Message>): seq<Message> {
    if ms == [] then []
    else (if ms[0].header.msgType == KEEPALIVE then [] else [Delivered(ms[0])]) + Business(ms[1..])
  }

  /** What the receiver hands on: messages as they are read, up to the first that is refused. */
  function Arrivals(ms: seq<Message>): seq<Message> {
    if ms == [] then []
    else
      match ParseInner(InnerBytes(ms[0]))
      case Err => []
      case Ok(m) => (if m.header.msgType == KEEPALIVE then [] else [m]) + Arrivals(ms[1..])
  }

  predicate AllShort(ms: seq<Message>) {
    forall i | 0 <= i < |ms| :: Short(ms[i])
  }

  predicate AllLinkable(ms: seq<Message>) {
    forall i | 0 <= i < |ms| :: Linkable(ms[i])
  }

  /** Linkable messages all arrive as they were sent, and the first refused one ends the link. */
  lemma {:induction false} ArrivalsAre(ms: seq<Message>, n: nat)
    requires n <= |ms| && AllLinkable(ms[..n])
    requires n < |ms| ==> ParseInner(InnerBytes(ms[n])) == Err
    ensures Arrivals(ms) == Business(ms[..n])
  {
    hide ParseInner, InnerBytes, Sendable, Delivered;
    if n > 0 {
      assert Linkable(ms[..n][0]);
      SendableArrives(ms[0]);
      DeliveredType(ms[0]);
      assert ms[1..][..n - 1] == ms[..n][1..];
      ArrivalsAre(ms[1..], n - 1);
    }
  }

  lemma DeliveredType(m: Message)
    ensures Delivered(m).header == m.header
  {
  }

  /**
   Wherever the stream of a list of messages is cut, the receiver hands on exactly what the
   messages with complete envelopes give, in order.
   */
  lemma {:induction false} CutStreamGivesPrefix(ms: seq<Message>, k: nat) returns (whole: nat)
    requires AllShort(ms) && k <= |Concat(Envelopes(ms))|
    ensures whole <= |ms| && Received(Concat(Envelopes(ms))[..k]) == Arrivals(ms[..whole])
    ensures |Concat(Envelopes(ms[..whole]))| <= k
    ensures whole < |ms| ==> k < |Concat(Envelopes(ms[..whole + 1]))|
  {
    hide Envelope, ReadEnvelope, Short, InnerBytes, ParseInner;
    if ms == [] {
      ShortStream();
      return 0;
    }
    var first := Envelope(InnerBytes(ms[0]));
    assert Envelopes(ms)[1..] == Envelopes(ms[1..]);
    var stream := first + Concat(Envelopes(ms[1..]));
    assert Concat(Envelopes(ms)) == stream;
    if k < |first| {
      whole := 0;
      assert stream[..k] == first[..k];
      CutEnvelopeIsShort(ms[0], k);
      assert Envelopes(ms[..1]) == [first];
      assert Concat([first]) == first + Concat([]);
    } else {
      var more := CutStreamGivesPrefix(ms[1..], k - |first|);
      whole := more + 1;
      var cut := Concat(Envelopes(ms[1..]))[..k - |first|];
      assert stream[..k] == first + cut;
      OneEnvelope(ms[0], cut);
      assert ms[..whole][1..] == ms[1..][..more];
      JoinOfFirst(ms, whole);
      if whole < |ms| {
        JoinOfFirst(ms, whole + 1);
      }
    }
  }

  lemma ShortStream()
    ensures Received([]) == []
  {
  }

  lemma JoinOfFirst(ms: seq<Message>, n: nat)
    requires 1 <= n <= |ms|
    ensures Concat(Envelopes(ms[..n])) == Envelope(InnerBytes(ms[0])) + Concat(Envelopes(ms[1..][..n - 1]))
  {
    hide Envelope, InnerBytes;
    assert Envelopes(ms[..n])[1..] == Envelopes(ms[1..][..n - 1]);
  }

  // ---- The write loop ----

  /** How a write to the socket ends: all of it, or an error after some bytes. */
  datatype Outcome = Wrote | Broke(sent: nat)

  /** What the loop's select finds ready. */
  datatype Choice = Take(take: Outcome) | Timer(tick: Outcome) | Stop

  /** How many envelopes the loop asks its queue for before it is stopped. */
  function Takes(choices: seq<Choice>): nat {
    if choices == [] then 0
    else
      var n := |choices| - 1;
      Takes(choices[..n]) + if Stop !in choices && choices[n].Take? then 1 else 0
  }

  method Flush(wire: Bytes, buf: Bytes, broken: bool, outcome: Outcome) returns (wire': Bytes, broken': bool)
    ensures broken ==> wire' == wire && broken'
    ensures !broken && (buf == [] || outcome.Wrote?) ==> wire' == wire + buf && !broken'
    ensures !broken && buf != [] && outcome.Broke? ==> wire <= wire' <= wire + buf && broken'
  {
    wire', broken' := wire, broken;
    if buf == [] || broken {
      return;
    }
    match outcome {
      case Wrote => wire' := wire + buf;
      case Broke(sent) =>
        broken' := true;
        wire' := wire + if sent < |buf| then buf[..sent] else buf;
    }
  }

  /**
   Gathers queued envelopes into batches under any schedule of arrivals, timer and shutdown.
   The bytes written are the envelopes of a prefix of the queue; only a failed write can
   leave part of a batch behind, and nothing is written after it.
   */
  method WriteLoop(queue: seq<Bytes>, choices: seq<Choice>) returns (wire: Bytes, taken: nat, flushed: nat, broken: bool, stopped: bool)
    ensures flushed <= taken <= |queue|
    ensures !broken ==> wire == Concat(queue[..flushed])
    ensures broken ==> Concat(queue[..flushed]) <= wire <= Concat(queue[..taken])
    ensures taken == (if Takes(choices) <= |queue| then Takes(choices) else |queue|) && (stopped <==> Stop in choices)
    ensures !broken && taken - flushed >= 2 ==> |Concat(queue[flushed..taken])| < 4096
    ensures !broken && flushed > 0 ==> |wire| >= 4096 || exists c | c in choices :: c.Timer?
    ensures !broken && !stopped && choices != [] && choices[|choices| - 1] == Timer(Wrote) ==> flushed == taken
  {
    hide Concat, Takes;
    var buf: Bytes, collecting := [], false;
    wire, taken, flushed, broken, stopped := [], 0, 0, false, false;
    ghost var timed := false;
    ConcatNone(queue, 0);
    NoTakes();
    for i := 0 to |choices|
      invariant flushed <= taken <= |queue| && !stopped && Stop !in choices[..i]
      invariant choices[..0] == [] && taken == if Takes(choices[..i]) <= |queue| then Takes(choices[..i]) else |queue|
      invariant timed ==> exists c | c in choices :: c.Timer?
      invariant !broken && flushed > 0 ==> timed || |wire| >= 4096
      invariant !collecting ==> buf == [] && (!broken ==> flushed == taken)
      invariant !broken ==> wire == Concat(queue[..flushed]) && buf == Concat(queue[flushed..taken])
      invariant broken ==> Concat(queue[..flushed]) <= wire <= Concat(queue[..taken])
      invariant !broken && taken - flushed >= 2 ==> |buf| < BATCH
      invariant !broken && i > 0 && choices[i - 1] == Timer(Wrote) ==> flushed == taken
    {
      TakesOneMore(choices, i);
      match choices[i] {
        case Stop =>
          TakesStop(choices, i);
          stopped := true;
          return;
        case Take(outcome) =>
          if taken < |queue| {
            ConcatOneMore(queue, flushed, taken);
            buf := buf + queue[taken];
            taken := taken + 1;
            if collecting && |buf| >= BATCH {
              ConcatSplits(queue, flushed, taken);
              wire, broken := Flush(wire, buf, broken, outcome);
              if !broken {
                flushed := taken;
              }
              ConcatNone(queue, taken);
              buf, collecting := [], false;
            } else {
              collecting := true;
            }
          }
        case Timer(outcome) =>
          timed := true;
          assert choices[i].Timer? && choices[i] in choices;
          if collecting {
            ConcatSplits(queue, flushed, taken);
            wire, broken := Flush(wire, buf, broken, outcome);
            if !broken {
              flushed := taken;
            }
            ConcatNone(queue, taken);
            buf, collecting := [], false;
          }
      }
    }
    assert choices[..|choices|] == choices;
  }

  lemma NoTakes()
    ensures Takes([]) == 0
  {
  }

  lemma TakesOneMore(choices: seq<Choice>, i: nat)
    requires i < |choices| && Stop !in choices[..i]
    ensures Takes(choices[..i + 1]) == Takes(choices[..i]) + if choices[i].Take? then 1 else 0
    ensures choices[i] != Stop ==> Stop !in choices[..i + 1]
  {
    assert choices[..i + 1][..i] == choices[..i];
    assert choices[..i + 1] == choices[..i] + [choices[i]];
  }

  lemma {:induction false} TakesStop(choices: seq<Choice>, i: nat)
    requires i < |choices| && choices[i] == Stop && Stop !in choices[..i]
    ensures Takes(choices) == Takes(choices[..i])
  {
    var n := |choices| - 1;
    if i < n {
      assert choices[..n][..i] == choices[..i] && choices[..n][i] == Stop;
      TakesStop(choices[..n], i);
    }
  }

  lemma ConcatNone(queue: seq<Bytes>, i: nat)
    requires i <= |queue|
    ensures Concat(queue[i..i]) == []
  {
  }

  lemma SliceMore<T>(s: seq<T>, from: nat, i: nat)
    requires from <= i < |s|
    ensures s[from..i + 1] == s[from..i] + [s[i]]
  {
  }

  lemma ConcatOneMore(queue: seq<Bytes>, from: nat, i: nat)
    requires from <= i < |queue|
    ensures Concat(queue[from..i + 1]) == Concat(queue[from..i]) + queue[i]
    ensures Concat(queue[..i]) <= Concat(queue[..i + 1])
  {
    SliceMore(queue, from, i);
    SliceMore(queue, 0, i);
    assert queue[0..i] == queue[..i] && queue[0..i + 1] == queue[..i + 1];
    ConcatAppend(queue[from..i], [queue[i]]);
    ConcatAppend(queue[..i], [queue[i]]);
    assert Concat([queue[i]]) == queue[i] + Concat([]);
  }

  lemma ConcatSplits(queue: seq<Bytes>, i: nat, j: nat)
    requires i <= j <= |queue|
    ensures Concat(queue[..j]) == Concat(queue[..i]) + Concat(queue[i..j])
  {
    assert queue[..j] == queue[..i] + queue[i..j];
    ConcatAppend(queue[..i], queue[i..j]);
  }

  // ---- End to end ----

  /**
   Whatever the batching, the receiver gets what the sent messages give, in order, up to the
   first it refuses: of all that were flushed, and after a failed write possibly of some more.
   Messages that survive the link arrive as they were sent, up to the route bit.
   */
  method Transfer(ms: seq<Message>, choices: seq<Choice>)
    returns (got: seq<Message>, taken: nat, flushed: nat, broken: bool, ghost arrived: nat)
    requires AllShort(ms)
    ensures flushed <= taken <= |ms| && flushed <= arrived <= taken && (!broken ==> arrived == flushed)
    ensures got == Arrivals(ms[..arrived])
    ensures AllLinkable(ms) ==> got == Business(ms[..arrived])
  {
    hide Concat, Business, Received, Envelope, Linkable, Short, Arrivals;
    var queue: seq<Bytes> := [];
    for i := 0 to |ms|
      invariant queue == Envelopes(ms[..i])
    {
      var data := EncodeInner(ms[i]);
      queue := queue + [Envelope(data)];
      assert Envelopes(ms[..i + 1]) == queue;
    }
    assert ms[..|ms|] == ms;
    var wire, stopped;
    wire, taken, flushed, broken, stopped := WriteLoop(queue, choices);
    got := ReadAll(wire);
    arrived := WireIsPrefix(ms, wire, taken, flushed, broken);
    if AllLinkable(ms) {
      AllArrive(ms[..arrived]);
    }
  }

  lemma AllArrive(ms: seq<Message>)
    requires AllLinkable(ms)
    ensures Arrivals(ms) == Business(ms)
  {
    hide Linkable;
    assert ms[..|ms|] == ms;
    ArrivalsAre(ms, |ms|);
  }

  lemma {:induction false} LongerPrefix(queue: seq<Bytes>, i: nat, j: nat)
    requires i < j <= |queue| && forall x | 0 <= x < |queue| :: queue[x] != []
    ensures |Concat(queue[..i])| < |Concat(queue[..j])|
  {
    ConcatSplits(queue, i, j);
    assert queue[i..j][0] == queue[i];
    assert |Concat(queue[i..j])| > 0;
  }

  lemma EnvelopesAreNotEmpty(ms: seq<Message>)
    ensures forall x | 0 <= x < |ms| :: Envelopes(ms)[x] != []
  {
  }

  lemma WireIsPrefix(ms: seq<Message>, wire: Bytes, taken: nat, flushed: nat, broken: bool) returns (k: nat)
    requires AllShort(ms) && flushed <= taken <= |ms|
    requires var queue := Envelopes(ms);
             if broken then Concat(queue[..flushed]) <= wire <= Concat(queue[..taken]) else wire == Concat(queue[..flushed])
    ensures flushed <= k <= taken && Received(wire) == Arrivals(ms[..k])
    ensures !broken ==> k == flushed
  {
    hide Concat, Arrivals, Received, Short, Envelope;
    var queue := Envelopes(ms);
    var sent := if broken then taken else flushed;
    assert queue[..sent] == Envelopes(ms[..sent]) && queue[..flushed] == Envelopes(ms[..flushed]);
    assert wire == Concat(queue[..sent])[..|wire|];
    k := CutStreamGivesPrefix(ms[..sent], |wire|);
    assert ms[..sent][..k] == ms[..k];
    EnvelopesAreNotEmpty(ms);
    if k < flushed {
      assert ms[..sent][..k + 1] == ms[..k + 1];
      assert queue[..k + 1] == Envelopes(ms[..k + 1]);
      if k + 1 < flushed {
        LongerPrefix(queue, k + 1, flushed);
      }
      assert false;
    }
  }
}

/**
 The downlink of a session: reliable frames get consecutive 32-bit numbers and the newest of
 them stay in a ring buffer, from which a reconnecting client is sent what it missed.
 */
module Replay {
  import opened Common

  type MsgId = nat

  datatype Frame = Frame(msgId: MsgId, number: nat, body: seq<int>)

  /** A count as a 32-bit word. */
  function Word(n: nat): nat {
    n % WORD
  }

  lemma WordFacts(n: nat)
    ensures n < WORD ==> Word(n) == n
    ensures Word(WORD) == 0 && Word(Word(n) + 1) == Word(n + 1)
  {
  }

  /** The slot of a buffer of `n` slots that lies `x` places after the first. */
  function Slot(x: nat, n: nat): (k: nat)
    requires n > 0
    ensures k < n
  {
    x % n
  }

  lemma SlotIs(x: nat, n: nat)
    requires 0 < n && x < 2 * n
    ensures Slot(x, n) == if x < n then x else x - n
  {
    if x >= n {
      assert x == 1 * n + (x - n);
    }
  }

  /** The stored frames, oldest first. */
  function Unrolled(items: seq<Frame>, start: nat, size: nat): (s: seq<Frame>)
    requires start < |items| && size <= |items|
    ensures |s| == size
  {
    seq(size, i requires 0 <= i < size => items[Slot(start + i, |items|)])
  }

  lemma AppendToRoom(items: seq<Frame>, start: nat, size: nat, f: Frame)
    requires start < |items| && size < |items|
    ensures Unrolled(items[Slot(start + size, |items|) := f], start, size + 1) == Unrolled(items, start, size) + [f]
  {
    hide Slot;
    var items', slot := items[Slot(start + size, |items|) := f], Slot(start + size, |items|);
    SlotIs(start + size, |items|);
    forall i: nat | i < size ensures Unrolled(items', start, size + 1)[i] == Unrolled(items, start, size)[i] {
      SlotIs(start + i, |items|);
    }
    assert Unrolled(items', start, size + 1)[size] == items'[slot];
  }

  lemma AppendToFull(items: seq<Frame>, start: nat, f: Frame)
    requires start < |items|
    ensures Unrolled(items[start := f], Slot(start + 1, |items|), |items|) == Unrolled(items, start, |items|)[1..] + [f]
  {
    hide Slot;
    var n := |items|;
    SlotIs(start + 1, n);
    var next := Slot(start + 1, n);
    forall i: nat | i < n
      ensures Unrolled(items[start := f], next, n)[i] == (Unrolled(items, start, n)[1..] + [f])[i]
    {
      SlotIs(next + i, n);
      if i + 1 < n {
        SlotIs(start + (i + 1), n);
      }
    }
  }

  /** The last `n` elements, or all of them. */
  function Newest(s: seq<Frame>, n: nat): seq<Frame> {
    if |s| <= n then s else s[|s| - n..]
  }

  /** The frames numbered above `last`, in order. */
  function NumberedAbove(s: seq<Frame>, last: nat): seq<Frame> {
    if s == [] then []
    else NumberedAbove(s[..|s| - 1], last) + if s[|s| - 1].number > last then [s[|s| - 1]] else []
  }

  /** Frames are numbered 1, 2, 3, ... modulo the word size. */
  ghost predicate Numbered(history: seq<Frame>) {
    forall i | 0 <= i < |history| :: history[i].number == Word(i + 1)
  }

  class RingBuffer {
    const items: array<Frame>
    var start: nat
    var size: nat

    ghost predicate Valid()
      reads this
    {
      start < items.Length && size <= items.Length
    }

    ghost function Contents(): (s: seq<Frame>)
      requires Valid()
      reads this, items
      ensures |s| == size
    {
      Unrolled(items[..], start, size)
    }

    constructor (capacity: nat)
      requires capacity > 0
      ensures Valid() && fresh(items) && items.Length == capacity && Contents() == []
    {
      items := new Frame[capacity];
      start, size := 0, 0;
    }

    /** Appends a frame; a full buffer forgets its oldest. */
    method Push(f: Frame)
      requires Valid()
      modifies this, items
      ensures Valid() && Contents() == Newest(old(Contents()) + [f], items.Length)
    {
      hide Slot, Unrolled;
      if size < items.Length {
        AppendToRoom(items[..], start, size, f);
        items[Slot(start + size, items.Length)] := f;
        size := size + 1;
      } else {
        AppendToFull(items[..], start, f);
        items[start] := f;
        start := Slot(start + 1, items.Length);
      }
    }

    /** The number of the oldest frame, 0 when there is none. */
    method OldestSeq() returns (n: nat)
      requires Valid()
      ensures n == if Contents() == [] then 0 else Contents()[0].number
    {
      hide Slot;
      if size == 0 {
        return 0;
      }
      SlotIs(start, items.Length);
      n := items[start].number;
    }

    /** What a client that has everything up to `last` is missing; an overflow means it is no longer there. */
    method Since(last: nat) returns (frames: seq<Frame>, overflow: bool)
      requires Valid() && last < WORD
      ensures overflow <==> Contents() != [] && Contents()[0].number > Word(last + 1)
      ensures frames == if overflow then [] else NumberedAbove(Contents(), last)
    {
      hide Slot, Word;
      frames := [];
      if size == 0 {
        return [], false;
      }
      var oldest := OldestSeq();
      if oldest > Word(last + 1) {
        return [], true;
      }
      for i := 0 to size
        invariant frames == NumberedAbove(Contents()[..i], last)
      {
        assert Contents()[..i + 1][..i] == Contents()[..i];
        var f := items[Slot(start + i, items.Length)];
        if f.number > last {
          frames := frames + [f];
        }
      }
      assert Contents()[..size] == Contents();
      overflow := false;
    }
  }

  lemma {:induction false} AboveInOrder(history: seq<Frame>, from: nat, to: nat, last: nat)
    requires Numbered(history) && |history| < WORD && from <= to <= |history|
    ensures NumberedAbove(history[from..to], last) ==
            if last <= from then history[from..to] else if last <= to then history[last..to] else []
  {
    hide Word;
    if from < to {
      AboveInOrder(history, from, to - 1, last);
      assert history[from..to][..to - from - 1] == history[from..to - 1];
      WordFacts(to);
      assert history[from..to][to - from - 1].number == to;
    }
  }

  /**
   Before the numbers wrap, for any claim `last` of the client: the buffer overflows exactly
   when a frame after `last` has been forgotten, or when `last` is the largest word, whose
   successor wraps to 0; otherwise the replay is exactly the frames after `last`.
   */
  lemma ReplayIsExact(history: seq<Frame>, capacity: nat, last: nat)
    requires Numbered(history) && |history| < WORD && 0 < capacity && last < WORD
    ensures var held := Newest(history, capacity);
            && (held != [] && held[0].number > Word(last + 1) <==>
                |history| > last + capacity || (last == WORD - 1 && history != []))
            && NumberedAbove(held, last) == if last <= |history| - capacity then held else if last <= |history| then history[last..] else []
  {
    hide Word, NumberedAbove;
    WordFacts(last + 1);
    var from := if |history| <= capacity then 0 else |history| - capacity;
    assert Newest(history, capacity) == history[from..|history|];
    WordFacts(from + 1);
    AboveInOrder(history, from, |history|, last);
  }

  /** The newest snapshot of a message id. */
  function Latest(history: seq<Frame>, id: MsgId): seq<Frame> {
    if history == [] then []
    else if history[|history| - 1].msgId == id then [history[|history| - 1]]
    else Latest(history[..|history| - 1], id)
  }

  /** There is none exactly if no frame has that id. */
  lemma {:induction false} LatestNone(history: seq<Frame>, id: MsgId)
    ensures Latest(history, id) == [] <==> forall f | f in history :: f.msgId != id
  {
    if history != [] {
      var n := |history| - 1;
      LatestNone(history[..n], id);
      assert history == history[..n] + [history[n]];
    }
  }

  /** It is the one after which no other of that id came. */
  lemma {:induction false} LatestIs(history: seq<Frame>, i: nat)
    requires i < |history| && forall j | i < j < |history| :: history[j].msgId != history[i].msgId
    ensures Latest(history, history[i].msgId) == [history[i]]
  {
    if i < |history| - 1 {
      LatestIs(history[..|history| - 1], i);
    }
  }

  lemma {:induction false} LatestIsOfId(history: seq<Frame>, id: MsgId)
    ensures Latest(history, id) != [] ==> Latest(history, id)[0].msgId == id
  {
    if history != [] && history[|history| - 1].msgId != id {
      LatestIsOfId(history[..|history| - 1], id);
    }
  }

  function LatestOfAll(history: seq<Frame>, ids: seq<MsgId>): seq<Frame> {
    if ids == [] then [] else LatestOfAll(history, ids[..|ids| - 1]) + Latest(history, ids[|ids| - 1])
  }

  lemma LatestOfOne(history: seq<Frame>, id: MsgId)
    ensures LatestOfAll(history, [id]) == Latest(history, id)
  {
    hide Latest;
    assert [id][..0] == [];
    assert LatestOfAll(history, []) == [];
  }

  /** One after the other, in the order the ids are named. */
  lemma {:induction false} LatestInTurn(history: seq<Frame>, a: seq<MsgId>, b: seq<MsgId>)
    ensures LatestOfAll(history, a + b) == LatestOfAll(history, a) + LatestOfAll(history, b)
    decreases |b|
  {
    hide Latest;
    if b == [] {
      assert a + b == a;
      assert LatestOfAll(history, b) == [];
    } else {
      var n, c := |b| - 1, a + b;
      assert c[..|a| + n] == a + b[..n] && c[|a| + n] == b[n];
      LatestInTurn(history, a, b[..n]);
      assert LatestOfAll(history, c) == LatestOfAll(history, c[..|a| + n]) + Latest(history, b[n]);
      assert LatestOfAll(history, b) == LatestOfAll(history, b[..n]) + Latest(history, b[n]);
    }
  }

  ghost predicate Caches(snaps: map<MsgId, Frame>, snapshots: seq<Frame>) {
    forall id :: (id in snaps <==> Latest(snapshots, id) != []) && (id in snaps ==> Latest(snapshots, id) == [snaps[id]])
  }

  lemma NumberNext(history: seq<Frame>, f: Frame)
    requires Numbered(history) && f.number == Word(|history| + 1)
    ensures Numbered(history + [f])
  {
    hide Word;
  }

  class Downlink {
    const ring: RingBuffer
    var nextSeq: nat
    var snaps: map<MsgId, Frame>
    ghost var history: seq<Frame>      // every reliable push
    ghost var snapshots: seq<Frame>    // every snapshot push

    ghost predicate Valid()
      reads this, ring, ring.items
    {
      && ring.Valid()
      && Numbered(history)
      && nextSeq == Word(|history|)
      && ring.Contents() == Newest(history, ring.items.Length)
      && Caches(snaps, snapshots)
    }

    constructor (capacity: nat)
      requires capacity > 0
      ensures Valid() && fresh(ring) && fresh(ring.items) && history == [] && snapshots == [] && ring.items.Length == capacity
    {
      ring := new RingBuffer(capacity);
      nextSeq, snaps, history, snapshots := 0, map[], [], [];
    }

    method PushReliable(id: MsgId, body: seq<int>)
      requires Valid()
      modifies `nextSeq, `history, ring, ring.items
      ensures Valid() && history == old(history) + [Frame(id, Word(|old(history)| + 1), body)]
    {
      hide Word, Caches, Newest, Unrolled, Numbered;
      WordFacts(|history|);
      NumberNext(history, Frame(id, Word(nextSeq + 1), body));
      NewestOfNewest(history, Frame(id, Word(nextSeq + 1), body), ring.items.Length);
      nextSeq := Word(nextSeq + 1);
      var f := Frame(id, nextSeq, body);
      ring.Push(f);
      history := history + [f];
    }

    method PushSnapshot(id: MsgId, body: seq<int>)
      requires Valid()
      modifies `snaps, `snapshots
      ensures Valid() && snapshots == old(snapshots) + [Frame(id, 0, body)]
    {
      var f := Frame(id, 0, body);
      assert (snapshots + [f])[..|snapshots|] == snapshots;
      snaps := snaps[id := f];
      snapshots := snapshots + [f];
    }

    /**
     For fewer than 2^32 - 1 pushes and a client that has not seen the future: exactly the
     frames it misses, in order, unless more than a buffer's worth was pushed since.
     */
    method Replay(last: nat) returns (frames: seq<Frame>, overflow: bool)
      requires Valid() && last < WORD
      ensures |history| < WORD - 1 && last <= |history| ==>
                && (overflow <==> |history| - last > ring.items.Length)
                && frames == if overflow then [] else history[last..]
    {
      frames, overflow := ring.Since(last);
      if |history| < WORD - 1 && last <= |history| {
        ReplayIsExact(history, ring.items.Length, last);
      }
    }

    method All() returns (frames: seq<Frame>, ghost named: seq<MsgId>)
      requires Valid()
      ensures frames == LatestOfAll(snapshots, named) && |frames| == |named|
      ensures NoRepeats(named) && forall id :: id in named <==> Latest(snapshots, id) != []
      ensures forall f :: f in frames <==> Latest(snapshots, f.msgId) == [f]
    {
      frames, named := [], [];
      var left := snaps.Keys;
      while left != {}
        invariant left <= snaps.Keys && NoRepeats(named)
        invariant forall id :: id in named <==> id in snaps && id !in left
        invariant frames == LatestOfAll(snapshots, named) && |frames| == |named|
        invariant forall f :: f in frames <==> f.msgId in named && Latest(snapshots, f.msgId) == [f]
        decreases left
      {
        var id := Pick(left);
        LatestIsOfId(snapshots, id);
        assert (named + [id])[..|named|] == named;
        left := left - {id};
        frames, named := frames + [snaps[id]], named + [id];
      }
    }

    /**
     The newest snapshot of each of the named messages that has one.  Naming none asks for all:
     then `named` is every message that has a snapshot, once, in the order the map hands them out.
     */
    method Snapshots(ids: seq<MsgId>) returns (frames: seq<Frame>, ghost named: seq<MsgId>)
      requires Valid()
      ensures frames == LatestOfAll(snapshots, named)
      ensures ids != [] ==> named == ids && frames == LatestOfAll(snapshots, ids)
      ensures ids == [] ==> forall f :: f in frames <==> Latest(snapshots, f.msgId) == [f]
      ensures ids == [] ==> NoRepeats(named) && |frames| == |named| && forall id :: id in named <==> Latest(snapshots, id) != []
    {
      named := ids;
      if ids == [] {
        frames, named := All();
        return;
      }
      frames := [];
      for i := 0 to |ids|
        invariant frames == LatestOfAll(snapshots, ids[..i])
      {
        assert ids[..i + 1][..i] == ids[..i];
        if ids[i] in snaps {
          frames := frames + [snaps[ids[i]]];
        }
      }
      assert ids[..|ids|] == ids;
    }
  }

  lemma NewestOfNewest(s: seq<Frame>, f: Frame, n: nat)
    requires n > 0
    ensures Newest(Newest(s, n) + [f], n) == Newest(s + [f], n)
  {
  }
}

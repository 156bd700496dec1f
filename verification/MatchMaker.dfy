/**
 The match maker as it runs: queues are slices of shared backing arrays, appended to and cut
 in place, while the tables taken from them are still being settled.
 */
module MatchMaker {
  import opened Common
  import opened MatchQueue
  import opened MatchProofs

  /** Elements `off` up to `off + len` of an array, which may have room behind them. */
  datatype Slice = Slice(a: array<Entry>, off: nat, len: nat)

  // ---- What the arrays hold ----

  type Memory = map<array<Entry>, seq<Entry>>

  ghost function Held(arrays: set<array<Entry>>): Memory
    reads arrays
  {
    map a | a in arrays :: a[..]
  }

  ghost predicate Fits(m: Memory, s: Slice) {
    s.a in m && s.off + s.len <= |m[s.a]|
  }

  ghost function View(m: Memory, s: Slice): seq<Entry>
    requires Fits(m, s)
  {
    m[s.a][s.off..s.off + s.len]
  }

  /** The queues' slices hold the lines, and no two of them share an array. */
  ghost predicate QueuesOk(m: Memory, queues: map<Key, Slice>, lines: map<Key, seq<Entry>>) {
    && queues.Keys == lines.Keys
    && (forall k | k in queues :: Fits(m, queues[k]) && View(m, queues[k]) == lines[k])
    && (forall j, k | j in queues && k in queues && j != k :: queues[j].a != queues[k].a)
  }

  /** The tables' slices still hold the players they were formed with. */
  ghost predicate TablesOk(m: Memory, tables: seq<Slice>, formed: seq<seq<Entry>>) {
    && |tables| == |formed|
    && (forall i | 0 <= i < |tables| :: Fits(m, tables[i]) && View(m, tables[i]) == formed[i])
  }

  /** A table lies before the queue it was taken from. */
  ghost predicate Apart(queues: map<Key, Slice>, tables: seq<Slice>) {
    forall i, k | 0 <= i < |tables| && k in queues && tables[i].a == queues[k].a ::
      tables[i].off + tables[i].len <= queues[k].off
  }

  ghost predicate Mirrors(m: Memory, queues: map<Key, Slice>, tables: seq<Slice>, lines: map<Key, seq<Entry>>, formed: seq<seq<Entry>>) {
    QueuesOk(m, queues, lines) && TablesOk(m, tables, formed) && Apart(queues, tables)
  }

  /** An array changes only from `from` on, so tables before that place do not. */
  lemma TablesKeep(m: Memory, tables: seq<Slice>, formed: seq<seq<Entry>>, a: array<Entry>, now: seq<Entry>, from: nat)
    requires TablesOk(m, tables, formed)
    requires a in m ==> from <= |now| && from <= |m[a]| && now[..from] == m[a][..from]
    requires forall i | 0 <= i < |tables| && tables[i].a == a :: tables[i].off + tables[i].len <= from
    ensures TablesOk(m[a := now], tables, formed)
  {
    var m' := m[a := now];
    forall i | 0 <= i < |tables| ensures Fits(m', tables[i]) && View(m', tables[i]) == formed[i] {
      var s := tables[i];
      if s.a == a {
        assert View(m', s) == now[..from][s.off..s.off + s.len];
        assert View(m, s) == m[a][..from][s.off..s.off + s.len];
      }
    }
  }

  lemma QueuesKeep(m: Memory, queues: map<Key, Slice>, lines: map<Key, seq<Entry>>, key: Key, r: Slice, now: seq<Entry>)
    requires QueuesOk(m, queues, lines) && r.off + r.len <= |now|
    requires if key in queues && r.a == queues[key].a then true else r.a !in m
    ensures QueuesOk(m[r.a := now], queues[key := r], lines[key := now[r.off..r.off + r.len]])
  {
  }

  /** Writing a queue's new contents, in place from its own offset on or in a new array, disturbs no other slice. */
  lemma Written(m: Memory, queues: map<Key, Slice>, tables: seq<Slice>, lines: map<Key, seq<Entry>>, formed: seq<seq<Entry>>,
                key: Key, r: Slice, now: seq<Entry>)
    requires Mirrors(m, queues, tables, lines, formed) && r.off + r.len <= |now|
    requires if key in queues && r.a == queues[key].a
             then r.off == queues[key].off && now[..r.off] == m[r.a][..r.off]
             else r.a !in m
    ensures Mirrors(m[r.a := now], queues[key := r], tables, lines[key := now[r.off..r.off + r.len]], formed)
  {
    hide QueuesOk;
    SliceFits(m, queues, tables, lines, formed, key);
    QueuesKeep(m, queues, lines, key, r, now);
    TablesKeep(m, tables, formed, r.a, now, if r.a in m then r.off else 0);
  }

  lemma QueueIsCut(m: Memory, queues: map<Key, Slice>, lines: map<Key, seq<Entry>>, key: Key, n: nat)
    requires QueuesOk(m, queues, lines) && key in queues && n <= queues[key].len
    ensures |lines[key]| == queues[key].len
    ensures var q := queues[key]; QueuesOk(m, queues[key := Slice(q.a, q.off + n, q.len - n)], lines[key := lines[key][n..]])
  {
    hide View;
    CutView(m, queues[key], n);
  }

  lemma CutView(m: Memory, q: Slice, n: nat)
    requires Fits(m, q) && n <= q.len
    ensures |View(m, q)| == q.len && View(m, Slice(q.a, q.off + n, q.len - n)) == View(m, q)[n..]
  {
  }

  lemma TableIsKept(m: Memory, q: Slice, tables: seq<Slice>, formed: seq<seq<Entry>>, n: nat)
    requires TablesOk(m, tables, formed) && Fits(m, q) && n <= q.len
    ensures TablesOk(m, tables + [Slice(q.a, q.off, n)], formed + [View(m, q)[..n]])
  {
    assert View(m, q)[..n] == View(m, Slice(q.a, q.off, n));
  }

  /** The front of a queue becomes a table, and the queue begins behind it. */
  lemma TableTaken(m: Memory, queues: map<Key, Slice>, tables: seq<Slice>, lines: map<Key, seq<Entry>>, formed: seq<seq<Entry>>,
                   key: Key, n: nat)
    requires Mirrors(m, queues, tables, lines, formed) && key in queues && n <= queues[key].len
    ensures Fits(m, queues[key]) && View(m, queues[key]) == lines[key]
    ensures var q := queues[key];
            Mirrors(m, queues[key := Slice(q.a, q.off + n, q.len - n)], tables + [Slice(q.a, q.off, n)],
                    lines[key := lines[key][n..]], formed + [lines[key][..n]])
  {
    hide QueuesOk, TablesOk, Apart, View;
    SliceFits(m, queues, tables, lines, formed, key);
    QueueIsCut(m, queues, lines, key, n);
    TableIsKept(m, queues[key], tables, formed, n);
    CutStaysApart(m, queues, tables, lines, key, n);
  }

  lemma CutStaysApart(m: Memory, queues: map<Key, Slice>, tables: seq<Slice>, lines: map<Key, seq<Entry>>, key: Key, n: nat)
    requires QueuesOk(m, queues, lines) && Apart(queues, tables) && key in queues && n <= queues[key].len
    ensures var q := queues[key]; Apart(queues[key := Slice(q.a, q.off + n, q.len - n)], tables + [Slice(q.a, q.off, n)])
  {
  }

  lemma UidsMore(q: seq<Entry>, i: nat)
    requires i < |q|
    ensures Uids(q[..i + 1]) == Uids(q[..i]) + {q[i].uid}
  {
    var more, less := q[..i + 1], q[..i];
    forall u | u in Uids(more) ensures u in Uids(less) + {q[i].uid} {
      var j :| 0 <= j < |more| && more[j].uid == u;
      assert j < i ==> less[j] == more[j];
    }
    forall u | u in Uids(less) ensures u in Uids(more) {
      var j :| 0 <= j < |less| && less[j].uid == u;
      assert more[j] == less[j];
    }
    assert more[i] == q[i];
  }

  /** Takes the matched players out of the index. */
  method WithoutUids(byUid: map<Uid, Key>, s: Slice) returns (r: map<Uid, Key>)
    requires s.off + s.len <= s.a.Length
    ensures r == byUid - Uids(s.a[s.off..s.off + s.len])
  {
    hide Uids;
    ghost var t := s.a[s.off..s.off + s.len];
    NoUids(t);
    r := byUid;
    for i := 0 to s.len
      invariant r == byUid - Uids(t[..i])
    {
      UidsMore(t, i);
      r := r - {s.a[s.off + i].uid};
    }
    assert t[..s.len] == t;
  }

  // ---- Slice operations ----

  /** A larger copy of a slice, with one more element and room for `spare` others. */
  method Grown(s: Slice, e: Entry, spare: nat) returns (a: array<Entry>)
    requires s.off + s.len <= s.a.Length
    ensures fresh(a) && a.Length == s.len + 1 + spare
    ensures a[..][..s.len + 1] == s.a[s.off..s.off + s.len] + [e]
  {
    a := new Entry[s.len + 1 + spare](i => e);
    for i := 0 to s.len
      invariant a[..i] == s.a[s.off..s.off + i]
      invariant a[s.len] == e
    {
      a[i] := s.a[s.off + i];
    }
    assert a[..][..s.len + 1] == a[..s.len] + [a[s.len]];
  }

  /** Cuts one element out by moving the later ones down. */
  method CutOut(s: Slice, i: nat)
    requires s.off + s.len <= s.a.Length && i < s.len
    modifies s.a
    ensures s.a[..][..s.off] == old(s.a[..])[..s.off]
    ensures s.a[..][s.off..s.off + s.len - 1] == Without(old(s.a[..])[s.off..s.off + s.len], i)
  {
    ghost var before := s.a[..];
    for j := i to s.len - 1
      invariant forall x | 0 <= x < s.off + i || s.off + j <= x < s.a.Length :: s.a[x] == before[x]
      invariant forall x | s.off + i <= x < s.off + j :: s.a[x] == before[x + 1]
    {
      s.a[s.off + j] := s.a[s.off + j + 1];
    }
    ghost var after := s.a[..];
    assert after[..s.off] == before[..s.off];
    CutIs(before, after, s.off, s.len, i);
  }

  lemma CutIs(before: seq<Entry>, after: seq<Entry>, off: nat, len: nat, i: nat)
    requires |before| == |after| && off + len <= |before| && i < len
    requires forall x | 0 <= x < off + i :: after[x] == before[x]
    requires forall x | off + i <= x < off + len - 1 :: after[x] == before[x + 1]
    ensures after[off..off + len - 1] == Without(before[off..off + len], i)
  {
    var r, w := after[off..off + len - 1], Without(before[off..off + len], i);
    forall x | 0 <= x < len - 1 ensures r[x] == w[x] {
      assert r[x] == after[off + x];
      assert w[x] == if x < i then before[off + x] else before[off + x + 1];
    }
  }

  /** The loop that looks a uid up in a line. */
  method FindUid(q: Slice, uid: Uid) returns (i: nat)
    requires q.off + q.len <= q.a.Length
    ensures i == PlaceOf(q.a[..][q.off..q.off + q.len], uid)
  {
    ghost var line := q.a[..][q.off..q.off + q.len];
    i := 0;
    while i < q.len && q.a[q.off + i].uid != uid
      invariant i <= q.len
      invariant forall j | 0 <= j < i :: line[j].uid != uid
    {
      i := i + 1;
    }
    assert i < q.len ==> line[i].uid == uid;
  }

  // ---- The match maker ----

  /** A join first lengthens the line, then either waits or takes a table off it. */
  lemma EnqueueInSteps(b: Board, uid: Uid, rule: Rule, seqNo: nat)
    ensures Answered(b, uid, rule) != Accepted ==> Enqueue(b, uid, rule, seqNo) == b
    ensures var k, e := KeyOf(rule), Entry(uid, seqNo, rule, |b.accepted|);
            var q := Line(b.queues, k) + [e];
            var grown := b.(queues := b.queues[k := q], accepted := b.accepted + [e]);
            Answered(b, uid, rule) == Accepted ==>
              Enqueue(b, uid, rule, seqNo) ==
                if |q| < rule.players then grown.(byUid := b.byUid[uid := k])
                else grown.(queues := grown.queues[k := q[rule.players..]], tables := b.tables + [q[..rule.players]],
                            byUid := b.byUid - Uids(q[..rule.players]))
  {
    hide KeyOf, Uids;
  }

  class Maker {
    var queues: map<Key, Slice>
    var byUid: map<Uid, Key>
    var count: nat                             // requests accepted so far
    ghost var tables: seq<Slice>               // matched slices, settled outside the lock
    ghost var arrays: set<array<Entry>>        // every backing array
    ghost var board: Board                     // the same queue as a value

    ghost predicate Valid()
      reads this, arrays
    {
      && Mirrors(Held(arrays), queues, tables, board.queues, board.tables)
      && count == |board.accepted| && board.byUid == byUid
    }

    constructor ()
      ensures Valid() && board == Empty() && arrays == {} && tables == []
    {
      queues, byUid, count, tables, arrays, board := map[], map[], 0, [], {}, Empty();
    }

    /** Puts an entry at the end of a line whose array has room. */
    method PushInPlace(key: Key, e: Entry)
      requires Valid() && key in queues && queues[key].off + queues[key].len < queues[key].a.Length && queues[key].a in arrays
      modifies `queues, `board, arrays
      ensures Mirrors(Held(arrays), queues, tables, board.queues, board.tables)
      ensures board == old(board).(queues := old(board.queues)[key := Line(old(board.queues), key) + [e]])
    {
      hide Mirrors;
      ghost var before, line := Held(arrays), Line(board.queues, key) + [e];
      SliceFits(before, queues, tables, board.queues, board.tables, key);
      var s := queues[key];
      var r := Slice(s.a, s.off, s.len + 1);
      s.a[s.off + s.len] := e;
      ghost var now := s.a[..];
      assert now == before[s.a][s.off + s.len := e];
      assert now[..s.off] == before[s.a][..s.off];
      assert now[r.off..r.off + r.len] == line;
      assert Held(arrays) == before[s.a := now];
      Written(before, queues, tables, board.queues, board.tables, key, r, now);
      queues := queues[key := r];
      board := board.(queues := board.queues[key := line]);
    }

    /** Puts an entry at the end of a line by moving it to a new array. */
    method PushMoved(key: Key, e: Entry, spare: nat)
      requires Valid()
      modifies `queues, `arrays, `board
      ensures Mirrors(Held(arrays), queues, tables, board.queues, board.tables) && fresh(arrays - old(arrays))
      ensures board == old(board).(queues := old(board.queues)[key := Line(old(board.queues), key) + [e]])
    {
      hide Mirrors;
      ghost var before, line := Held(arrays), Line(board.queues, key) + [e];
      SliceFits(before, queues, tables, board.queues, board.tables, key);
      var a;
      if key in queues {
        a := Grown(queues[key], e, spare);
      } else {
        a := new Entry[1 + spare](i => e);
      }
      var r := Slice(a, 0, if key in queues then queues[key].len + 1 else 1);
      assert a[..][0..r.len] == line;
      arrays := arrays + {a};
      assert Held(arrays) == before[a := a[..]];
      Written(before, queues, tables, board.queues, board.tables, key, r, a[..]);
      queues := queues[key := r];
      board := board.(queues := board.queues[key := line]);
    }

    /** Puts an entry at the end of a line and tells how long the line is. */
    method Push(key: Key, e: Entry, spare: nat) returns (n: nat)
      requires Valid()
      modifies `queues, `arrays, `board, arrays
      ensures Mirrors(Held(arrays), queues, tables, board.queues, board.tables) && fresh(arrays - old(arrays))
      ensures board == old(board).(queues := old(board.queues)[key := Line(old(board.queues), key) + [e]])
      ensures key in queues && n == queues[key].len == |board.queues[key]|
    {
      hide Mirrors;
      SliceFits(Held(arrays), queues, tables, board.queues, board.tables, key);
      if key in queues && queues[key].off + queues[key].len < queues[key].a.Length {
        PushInPlace(key, e);
      } else {
        PushMoved(key, e, spare);
      }
      SliceFits(Held(arrays), queues, tables, board.queues, board.tables, key);
      n := queues[key].len;
    }

    /** Splits the first `n` off a line and takes them out of the index. */
    method TakeTable(key: Key, n: nat) returns (matched: Slice)
      requires Mirrors(Held(arrays), queues, tables, board.queues, board.tables)
      requires key in queues && key in board.queues && n <= queues[key].len == |board.queues[key]|
      modifies `queues, `byUid, `tables, `board
      ensures Mirrors(Held(arrays), queues, tables, board.queues, board.tables) && tables == old(tables) + [matched]
      ensures byUid == old(byUid) - Uids(old(board).queues[key][..n])
      ensures var q := old(board).queues[key];
              board == old(board).(queues := old(board).queues[key := q[n..]], tables := old(board).tables + [q[..n]])
    {
      hide Mirrors, Uids;
      TableTaken(Held(arrays), queues, tables, board.queues, board.tables, key, n);
      var q := queues[key];
      ghost var line := board.queues[key];
      matched := Slice(q.a, q.off, n);
      byUid := WithoutUids(byUid, matched);
      assert line[..n] == matched.a[matched.off..matched.off + n];
      queues := queues[key := Slice(q.a, q.off + n, q.len - n)];
      tables := tables + [matched];
      board := board.(queues := board.queues[key := line[n..]], tables := board.tables + [line[..n]]);
    }

    /** A join request; a full line becomes a table, given back for settling outside the lock. */
    method Enqueue(uid: Uid, rule: Rule, seqNo: nat, spare: nat) returns (answer: Answer, table: Option<Slice>)
      requires Valid()
      modifies this, arrays
      ensures Valid() && fresh(arrays - old(arrays))
      ensures answer == Answered(old(board), uid, rule) && board == MatchQueue.Enqueue(old(board), uid, rule, seqNo)
      ensures tables == old(tables) + if table.Some? then [table.value] else []
    {
      hide KeyOf, Mirrors, Uids, MatchQueue.Enqueue;
      table := None;
      EnqueueInSteps(board, uid, rule, seqNo);
      if rule.game == "" || rule.players <= 0 {
        return BadRule, None;
      }
      if uid in byUid {
        return AlreadyQueued, None;
      }
      answer := Accepted;
      var key, e := KeyOf(rule), Entry(uid, seqNo, rule, count);
      var n := Push(key, e, spare);
      count := count + 1;
      board := board.(accepted := board.accepted + [e]);
      if n < rule.players {
        byUid := byUid[uid := key];
      } else {
        var matched := TakeTable(key, rule.players);
        table := Some(matched);
      }
      board := board.(byUid := byUid);
    }

    method RemoveFrom(key: Key, i: nat)
      requires Mirrors(Held(arrays), queues, tables, board.queues, board.tables)
      requires key in queues && key in board.queues && i < queues[key].len == |board.queues[key]|
      requires queues[key].a in arrays && queues[key].off + queues[key].len <= queues[key].a.Length
      requires queues[key].a[..][queues[key].off..queues[key].off + queues[key].len] == board.queues[key]
      modifies `queues, `board, arrays
      ensures Mirrors(Held(arrays), queues, tables, board.queues, board.tables)
      ensures var q := old(board).queues[key];
              board == old(board).(queues := old(board).queues[key := Without(q, i)], cancelled := old(board).cancelled + [q[i]])
    {
      hide Mirrors, Without;
      ghost var before, line := Held(arrays), board.queues[key];
      var s := queues[key];
      CutOut(s, i);
      var r := Slice(s.a, s.off, s.len - 1);
      ghost var now := s.a[..];
      assert Held(arrays) == before[s.a := now];
      Written(before, queues, tables, board.queues, board.tables, key, r, now);
      queues := queues[key := r];
      board := board.(queues := board.queues[key := Without(line, i)], cancelled := board.cancelled + [line[i]]);
    }

    method Cancel(uid: Uid) returns (ok: bool)
      requires Valid()
      modifies `queues, `byUid, `board, arrays
      ensures Valid()
      ensures ok == (uid in old(byUid)) && board == MatchQueue.Cancel(old(board), uid)
    {
      hide Mirrors, PlaceOf, Without;
      if uid !in byUid {
        return false;
      }
      ok := true;
      var key := byUid[uid];
      byUid := byUid - {uid};
      SliceFits(Held(arrays), queues, tables, board.queues, board.tables, key);
      if key in queues {
        var i := FindUid(queues[key], uid);
        assert queues[key].a[..][queues[key].off..queues[key].off + queues[key].len] == board.queues[key];
        if i < queues[key].len {
          RemoveFrom(key, i);
        }
      }
      board := board.(byUid := byUid);
    }

    /**
     Settles a table at any later time.  Whatever joined, left or was settled meanwhile, the
     players told are those the table was formed with, each once, and all the same outcome.
     */
    method Settle(ghost i: nat, matched: Slice, created: bool, joins: nat -> bool) returns (notes: seq<Note>, inside: set<Uid>)
      requires Valid() && i < |tables| && tables[i] == matched
      ensures i < |board.tables|
      ensures var t := board.tables[i];
              var ok := created && forall j | 0 <= j < |t| :: joins(j);
              && |notes| == |t|
              && (forall j | 0 <= j < |t| :: notes[j] == Note(t[j].uid, t[j].seqNo, ok))
              && (ok ==> inside == Uids(t))
              && (!ok && Distinct(t) ==> inside == {})
    {
      hide Mirrors;
      TableFits(Held(arrays), queues, tables, board.queues, board.tables, i);
      var t := matched.a[matched.off..matched.off + matched.len];
      assert t == board.tables[i];
      notes, inside := SettleSeats(t, created, joins);
    }
  }

  /** What a player is told: the room is ready, or the match failed. */
  datatype Note = Note(uid: Uid, seqNo: nat, ok: bool)

  method NotifyAll(t: seq<Entry>, ok: bool) returns (notes: seq<Note>)
    ensures |notes| == |t| && forall j | 0 <= j < |t| :: notes[j] == Note(t[j].uid, t[j].seqNo, ok)
  {
    notes := [];
    for i := 0 to |t|
      invariant |notes| == i && forall j | 0 <= j < i :: notes[j] == Note(t[j].uid, t[j].seqNo, ok)
    {
      notes := notes + [Note(t[i].uid, t[i].seqNo, ok)];
    }
  }

  /** Everybody enters the room in turn; when one cannot, those before it leave again. */
  method SettleSeats(t: seq<Entry>, created: bool, joins: nat -> bool) returns (notes: seq<Note>, inside: set<Uid>)
    ensures var ok := created && forall j | 0 <= j < |t| :: joins(j);
            && |notes| == |t|
            && (forall j | 0 <= j < |t| :: notes[j] == Note(t[j].uid, t[j].seqNo, ok))
            && (ok ==> inside == Uids(t))
            && (!ok && Distinct(t) ==> inside == {})
  {
    hide Uids;
    inside := {};
    if !created {
      notes := NotifyAll(t, false);
      return;
    }
    NoUids(t);
    for i := 0 to |t|
      invariant inside == Uids(t[..i]) && forall j | 0 <= j < i :: joins(j)
    {
      if !joins(i) {
        inside := RollBack(t, i, inside);
        if Distinct(t) {
          DistinctSeat(t, i);
        }
        notes := NotifyAll(t, false);
        return;
      }
      UidsMore(t, i);
      inside := inside + {t[i].uid};
    }
    assert t[..|t|] == t;
    notes := NotifyAll(t, true);
  }

  lemma NoUids(t: seq<Entry>)
    ensures Uids(t[..0]) == {}
  {
  }

  /** The players before seat `i` leave the room, up to the first with that seat's uid. */
  method RollBack(t: seq<Entry>, i: nat, entered: set<Uid>) returns (inside: set<Uid>)
    requires i < |t| && entered == Uids(t[..i])
    ensures inside == {} <==> t[i].uid !in Uids(t[..i])
  {
    hide Uids;
    inside := entered;
    NoUids(t);
    var j := 0;
    while j < |t| && t[j].uid != t[i].uid
      invariant j <= i && forall k | 0 <= k < j :: t[k].uid != t[i].uid
      invariant inside == Uids(t[..i]) - Uids(t[..j])
    {
      UidsMore(t, j);
      inside := inside - {t[j].uid};
      j := j + 1;
    }
    FirstSeatOf(t, i, j);
  }

  /** The players before seat `i` are those before the first seat of its player exactly when that is seat `i`. */
  lemma FirstSeatOf(t: seq<Entry>, i: nat, j: nat)
    requires j <= i < |t| && t[j].uid == t[i].uid && forall k | 0 <= k < j :: t[k].uid != t[i].uid
    ensures Uids(t[..i]) - Uids(t[..j]) == {} <==> t[i].uid !in Uids(t[..i])
  {
    if j < i {
      assert t[..i][j].uid == t[i].uid;
      assert t[i].uid in Uids(t[..i]) && t[i].uid !in Uids(t[..j]);
      assert t[i].uid in Uids(t[..i]) - Uids(t[..j]);
    } else {
      assert t[i].uid !in Uids(t[..i]);
    }
  }

  lemma DistinctSeat(t: seq<Entry>, i: nat)
    requires Distinct(t) && i < |t|
    ensures t[i].uid !in Uids(t[..i])
  {
  }

  lemma TableFits(m: Memory, queues: map<Key, Slice>, tables: seq<Slice>, lines: map<Key, seq<Entry>>, formed: seq<seq<Entry>>, i: nat)
    requires Mirrors(m, queues, tables, lines, formed) && i < |tables|
    ensures i < |formed| && Fits(m, tables[i]) && View(m, tables[i]) == formed[i]
  {
  }

  lemma SliceFits(m: Memory, queues: map<Key, Slice>, tables: seq<Slice>, lines: map<Key, seq<Entry>>, formed: seq<seq<Entry>>, key: Key)
    requires Mirrors(m, queues, tables, lines, formed)
    ensures key in queues <==> key in lines
    ensures key in queues ==> Fits(m, queues[key]) && View(m, queues[key]) == lines[key]
  {
  }

  /**
   A whole run: requests and cancellations in any order, and the tables settled afterwards.
   With one table size per key, each table's players are told the same, and a table that
   fails leaves nobody in its room.
   */
  method RunMatches(events: seq<Event>, ghost size: Key -> int, spare: nat, created: nat -> bool, joins: (nat, nat) -> bool)
    returns (notes: seq<seq<Note>>, rooms: seq<set<Uid>>)
    requires Uniform(events, size)
    ensures var tables := Run(Empty(), events).tables;
            && |notes| == |rooms| == |tables|
            && forall i | 0 <= i < |tables| :: SettledTable(tables[i], AllJoin(tables[i], i, created, joins), notes[i], rooms[i])
  {
    hide Run, Mirrors, Uniform, Agrees, SizeInv, Uids, Distinct;
    var maker, tables := SeatAll(events, spare);
    QueueIsConsistent(events, size);
    ghost var formed := maker.board.tables;
    notes, rooms := [], [];
    var i: nat := 0;
    while i < |tables|
      invariant maker.Valid() && maker.tables == tables && maker.board.tables == formed && |notes| == |rooms| == i <= |tables|
      invariant forall k | 0 <= k < i :: SettledTable(formed[k], AllJoin(formed[k], k, created, joins), notes[k], rooms[k])
    {
      var mine := (j: nat) => joins(i, j);
      var n, inside := maker.Settle(i, tables[i], created(i), mine);
      assert formed[i] in formed;
      JoinsOf(formed[i], i, created, joins, mine);
      notes, rooms := notes + [n], rooms + [inside];
      i := i + 1;
    }
  }

  /** The room of the `i`-th table is created and lets everybody in. */
  ghost predicate AllJoin(t: seq<Entry>, i: nat, created: nat -> bool, joins: (nat, nat) -> bool) {
    created(i) && forall j | 0 <= j < |t| :: joins(i, j)
  }

  lemma JoinsOf(t: seq<Entry>, i: nat, created: nat -> bool, joins: (nat, nat) -> bool, mine: nat -> bool)
    requires forall j: nat :: mine(j) == joins(i, j)
    ensures AllJoin(t, i, created, joins) <==> created(i) && forall j | 0 <= j < |t| :: mine(j)
  {
  }

  /** Everybody at the table is told the outcome; the room holds all of them or nobody. */
  ghost predicate SettledTable(t: seq<Entry>, ok: bool, notes: seq<Note>, inside: set<Uid>) {
    && |notes| == |t| && (forall j | 0 <= j < |t| :: notes[j] == Note(t[j].uid, t[j].seqNo, ok))
    && inside == if ok then Uids(t) else {}
  }

  /** Takes all the requests and cancellations and collects the tables' slices. */
  method SeatAll(events: seq<Event>, spare: nat) returns (maker: Maker, tables: seq<Slice>)
    ensures fresh(maker) && fresh(maker.arrays) && maker.Valid() && maker.tables == tables && maker.board == Run(Empty(), events)
    ensures |tables| == |maker.board.tables|
  {
    hide Mirrors, MatchQueue.Enqueue, MatchQueue.Cancel;
    maker := new Maker();
    tables := [];
    for i := 0 to |events|
      invariant fresh(maker) && fresh(maker.arrays) && maker.Valid() && maker.tables == tables
      invariant maker.board == Run(Empty(), events[..i])
    {
      RunOneMore(events, i);
      match events[i] {
        case Join(uid, rule, seqNo) =>
          var answer, table := maker.Enqueue(uid, rule, seqNo, spare);
          if table.Some? {
            tables := tables + [table.value];
          }
        case Leave(uid) =>
          var ok := maker.Cancel(uid);
      }
    }
    assert events[..|events|] == events;
    TablesFit(Held(maker.arrays), maker.queues, maker.tables, maker.board.queues, maker.board.tables);
  }

  lemma TablesFit(m: Memory, queues: map<Key, Slice>, tables: seq<Slice>, lines: map<Key, seq<Entry>>, formed: seq<seq<Entry>>)
    requires Mirrors(m, queues, tables, lines, formed)
    ensures |tables| == |formed|
  {
  }

  lemma RunOneMore(events: seq<Event>, i: nat)
    requires i < |events|
    ensures Run(Empty(), events[..i + 1]) == Next(Run(Empty(), events[..i]), events[i])
  {
    hide Next;
    assert events[..i + 1] == events[..i] + [events[i]];
    RunMore(Empty(), events[..i], events[i]);
  }
}

/** What every run of the match queue keeps. */
module MatchProofs {
  import opened MatchQueue

  // ---- Nobody is lost ----

  function Flat(tables: seq<seq<Entry>>): seq<Entry> {
    if tables == [] then [] else Flat(tables[..|tables| - 1]) + tables[|tables| - 1]
  }

  lemma FlatMore(tables: seq<seq<Entry>>, t: seq<Entry>)
    ensures Flat(tables + [t]) == Flat(tables) + t
  {
    assert (tables + [t])[..|tables|] == tables;
  }

  function Times(q: seq<Entry>, e: Entry): nat {
    multiset(q)[e]
  }

  lemma TimesAppend(a: seq<Entry>, b: seq<Entry>, e: Entry)
    ensures Times(a + b, e) == Times(a, e) + Times(b, e)
  {
  }

  lemma TimesAround(q: seq<Entry>, i: nat, e: Entry)
    requires i < |q|
    ensures Times(q, e) == Times(Without(q, i), e) + Times([q[i]], e)
  {
    assert q == q[..i] + [q[i]] + q[i + 1..];
  }

  lemma TimesNone(q: seq<Entry>, e: Entry)
    requires e !in q
    ensures Times(q, e) == 0
  {
  }

  ghost predicate Ticketed(accepted: seq<Entry>) {
    forall i | 0 <= i < |accepted| :: accepted[i].ticket == i
  }

  ghost predicate InPlace(queues: map<Key, seq<Entry>>) {
    forall k, i | k in queues && 0 <= i < |queues[k]| :: KeyOf(queues[k][i].rule) == k
  }

  ghost predicate Balanced(queues: map<Key, seq<Entry>>, tables: seq<seq<Entry>>, accepted: seq<Entry>, cancelled: seq<Entry>, e: Entry) {
    Times(accepted, e) == Times(Line(queues, KeyOf(e.rule)), e) + Times(cancelled, e) + Times(Flat(tables), e)
  }

  /** A request waits in line, was cancelled, or sits at a table, in as many places as it was accepted. */
  ghost predicate Accounted(queues: map<Key, seq<Entry>>, tables: seq<seq<Entry>>, accepted: seq<Entry>, cancelled: seq<Entry>) {
    forall e :: Balanced(queues, tables, accepted, cancelled, e)
  }

  ghost predicate BooksInv(b: Board) {
    Ticketed(b.accepted) && InPlace(b.queues) && Accounted(b.queues, b.tables, b.accepted, b.cancelled)
  }

  lemma LineGrows(queues: map<Key, seq<Entry>>, tables: seq<seq<Entry>>, accepted: seq<Entry>, cancelled: seq<Entry>, x: Entry)
    requires InPlace(queues) && Accounted(queues, tables, accepted, cancelled)
    ensures var queues' := queues[KeyOf(x.rule) := Line(queues, KeyOf(x.rule)) + [x]];
            InPlace(queues') && Accounted(queues', tables, accepted + [x], cancelled)
  {
    hide KeyOf, Times, Flat;
    var q := Line(queues, KeyOf(x.rule));
    var queues' := queues[KeyOf(x.rule) := q + [x]];
    forall e ensures Balanced(queues', tables, accepted + [x], cancelled, e) {
      assert Balanced(queues, tables, accepted, cancelled, e);
      TimesAppend(accepted, [x], e);
      if KeyOf(e.rule) == KeyOf(x.rule) {
        TimesAppend(q, [x], e);
      } else {
        TimesNone([x], e);
      }
    }
  }

  lemma LineIsServed(queues: map<Key, seq<Entry>>, tables: seq<seq<Entry>>, accepted: seq<Entry>, cancelled: seq<Entry>, k: Key, n: nat)
    requires InPlace(queues) && Accounted(queues, tables, accepted, cancelled) && k in queues && n <= |queues[k]|
    ensures var q := queues[k];
            InPlace(queues[k := q[n..]]) && Accounted(queues[k := q[n..]], tables + [q[..n]], accepted, cancelled)
  {
    hide KeyOf, Times, Flat;
    var q := queues[k];
    var queues', tables' := queues[k := q[n..]], tables + [q[..n]];
    FlatMore(tables, q[..n]);
    forall e ensures Balanced(queues', tables', accepted, cancelled, e) {
      assert Balanced(queues, tables, accepted, cancelled, e);
      TimesAppend(Flat(tables), q[..n], e);
      if KeyOf(e.rule) == k {
        assert q == q[..n] + q[n..];
        TimesAppend(q[..n], q[n..], e);
      } else {
        TimesNone(q[..n], e);
      }
    }
  }

  lemma LineIsLeft(queues: map<Key, seq<Entry>>, tables: seq<seq<Entry>>, accepted: seq<Entry>, cancelled: seq<Entry>, k: Key, i: nat)
    requires InPlace(queues) && Accounted(queues, tables, accepted, cancelled) && k in queues && i < |queues[k]|
    ensures var q := queues[k];
            InPlace(queues[k := Without(q, i)]) && Accounted(queues[k := Without(q, i)], tables, accepted, cancelled + [q[i]])
  {
    hide KeyOf, Times, Flat;
    var q := queues[k];
    var queues' := queues[k := Without(q, i)];
    forall e ensures Balanced(queues', tables, accepted, cancelled + [q[i]], e) {
      assert Balanced(queues, tables, accepted, cancelled, e);
      TimesAppend(cancelled, [q[i]], e);
      if KeyOf(e.rule) == k {
        TimesAround(q, i, e);
      } else {
        TimesNone([q[i]], e);
      }
    }
  }

  lemma EventKeepsBooks(b: Board, e: Event)
    requires BooksInv(b)
    ensures BooksInv(Next(b, e))
  {
    hide Accounted, InPlace, Uids, KeyOf;
    match e
    case Join(uid, rule, seqNo) =>
      if Answered(b, uid, rule) == Accepted {
        var k, x := KeyOf(rule), Entry(uid, seqNo, rule, |b.accepted|);
        var q := Line(b.queues, k) + [x];
        LineGrows(b.queues, b.tables, b.accepted, b.cancelled, x);
        if |q| >= rule.players {
          LineIsServed(b.queues[k := q], b.tables, b.accepted + [x], b.cancelled, k, rule.players);
          assert b.queues[k := q][k := q[rule.players..]] == b.queues[k := q[rule.players..]];
        }
      }
    case Leave(uid) =>
      if uid in b.byUid {
        var k := b.byUid[uid];
        var i := PlaceOf(Line(b.queues, k), uid);
        if i < |Line(b.queues, k)| {
          LineIsLeft(b.queues, b.tables, b.accepted, b.cancelled, k, i);
        }
      }
  }

  // ---- First come, first served ----

  /** The players of a key who got a table, in the order of tables and seats. */
  function Served(tables: seq<seq<Entry>>, k: Key): seq<Entry> {
    if tables == [] then []
    else
      var t := tables[|tables| - 1];
      Served(tables[..|tables| - 1], k) + if t != [] && KeyOf(t[0].rule) == k then t else []
  }

  ghost predicate InOrder(q: seq<Entry>) {
    forall i, j | 0 <= i < j < |q| :: q[i].ticket < q[j].ticket
  }

  ghost predicate Before(q: seq<Entry>, n: nat) {
    forall i | 0 <= i < |q| :: q[i].ticket < n
  }

  ghost predicate OrderInv(b: Board) {
    forall k :: InOrder(Served(b.tables, k) + Line(b.queues, k)) && Before(Served(b.tables, k) + Line(b.queues, k), |b.accepted|)
  }

  lemma EventKeepsOrder(b: Board, e: Event)
    requires BooksInv(b) && OrderInv(b)
    ensures OrderInv(Next(b, e))
  {
    hide Accounted, Uids;
    forall k
      ensures var b' := Next(b, e);
              InOrder(Served(b'.tables, k) + Line(b'.queues, k)) && Before(Served(b'.tables, k) + Line(b'.queues, k), |b'.accepted|)
    {
      match e
      case Join(uid, rule, seqNo) =>
        if Answered(b, uid, rule) == Accepted {
          JoinKeepsOrder(b, uid, rule, seqNo, k);
        }
      case Leave(uid) => LeaveKeepsOrder(b, uid, k);
    }
  }

  lemma OrderedAppend(q: seq<Entry>, x: Entry)
    requires InOrder(q) && Before(q, x.ticket)
    ensures InOrder(q + [x]) && Before(q + [x], x.ticket + 1)
  {
  }

  lemma OrderedWithout(q: seq<Entry>, i: nat, n: nat)
    requires InOrder(q) && Before(q, n) && i < |q|
    ensures InOrder(Without(q, i)) && Before(Without(q, i), n)
  {
    var r := Without(q, i);
    forall x | 0 <= x < |r| ensures r[x] == q[if x < i then x else x + 1] {
    }
  }

  lemma ServedMore(tables: seq<seq<Entry>>, t: seq<Entry>, k: Key)
    ensures Served(tables + [t], k) == Served(tables, k) + if t != [] && KeyOf(t[0].rule) == k then t else []
  {
    assert (tables + [t])[..|tables|] == tables;
  }

  lemma JoinKeepsOrder(b: Board, uid: Uid, rule: Rule, seqNo: nat, k: Key)
    requires InPlace(b.queues) && OrderInv(b) && Answered(b, uid, rule) == Accepted
    ensures var b' := Enqueue(b, uid, rule, seqNo);
            InOrder(Served(b'.tables, k) + Line(b'.queues, k)) && Before(Served(b'.tables, k) + Line(b'.queues, k), |b'.accepted|)
  {
    hide Accounted, Uids, KeyOf, Served, InOrder, Before;
    var key, x := KeyOf(rule), Entry(uid, seqNo, rule, |b.accepted|);
    var q := Line(b.queues, key) + [x];
    var b' := Enqueue(b, uid, rule, seqNo);
    var before := Served(b.tables, k) + Line(b.queues, k);
    assert InOrder(before) && Before(before, |b.accepted|);
    assert KeyOf(q[0].rule) == key;
    if |q| >= rule.players {
      ServedMore(b.tables, q[..rule.players], k);
    }
    if k == key {
      assert Served(b'.tables, k) + Line(b'.queues, k) == before + [x];
      OrderedAppend(before, x);
    } else {
      assert Served(b'.tables, k) + Line(b'.queues, k) == before;
      BeforeMore(before, |b.accepted|);
    }
  }

  lemma BeforeMore(q: seq<Entry>, n: nat)
    requires Before(q, n)
    ensures Before(q, n + 1)
  {
  }

  lemma WithoutShift(a: seq<Entry>, q: seq<Entry>, i: nat)
    requires i < |q|
    ensures a + Without(q, i) == Without(a + q, |a| + i)
  {
  }

  lemma LeaveKeepsOrder(b: Board, uid: Uid, k: Key)
    requires OrderInv(b)
    ensures var b' := Cancel(b, uid);
            InOrder(Served(b'.tables, k) + Line(b'.queues, k)) && Before(Served(b'.tables, k) + Line(b'.queues, k), |b'.accepted|)
  {
    hide Served, InOrder, Before, Without, PlaceOf;
    var before := Served(b.tables, k) + Line(b.queues, k);
    assert InOrder(before) && Before(before, |b.accepted|);
    if uid in b.byUid && b.byUid[uid] == k {
      var q := Line(b.queues, k);
      var i := PlaceOf(q, uid);
      if i < |q| {
        WithoutShift(Served(b.tables, k), q, i);
        OrderedWithout(before, |Served(b.tables, k)| + i, |b.accepted|);
      }
    }
  }

  // ---- The uid index ----

  ghost predicate Named(queues: map<Key, seq<Entry>>, byUid: map<Uid, Key>) {
    forall k, i | k in queues && 0 <= i < |queues[k]| :: queues[k][i].uid in byUid && byUid[queues[k][i].uid] == k
  }

  ghost predicate Distinct(q: seq<Entry>) {
    forall i, j | 0 <= i < j < |q| :: q[i].uid != q[j].uid
  }

  ghost predicate Once(queues: map<Key, seq<Entry>>) {
    forall k | k in queues :: Distinct(queues[k])
  }

  ghost predicate InLine(q: seq<Entry>, u: Uid) {
    exists i :: 0 <= i < |q| && q[i].uid == u
  }

  ghost predicate Found(queues: map<Key, seq<Entry>>, byUid: map<Uid, Key>) {
    forall u | u in byUid :: InLine(Line(queues, byUid[u]), u)
  }

  /** `byUid` names exactly the players in line, each in one line and once. */
  ghost predicate Agrees(b: Board) {
    Named(b.queues, b.byUid) && Once(b.queues) && Found(b.queues, b.byUid)
  }

  lemma StillInLine(q: seq<Entry>, x: Entry, u: Uid)
    requires InLine(q, u) || x.uid == u
    ensures InLine(q + [x], u)
  {
    if InLine(q, u) {
      var i :| 0 <= i < |q| && q[i].uid == u;
      assert (q + [x])[i].uid == u;
    } else {
      assert (q + [x])[|q|].uid == u;
    }
  }

  lemma WaitKeepsIndex(queues: map<Key, seq<Entry>>, byUid: map<Uid, Key>, k: Key, x: Entry)
    requires Named(queues, byUid) && Once(queues) && Found(queues, byUid) && x.uid !in byUid
    ensures var queues', byUid' := queues[k := Line(queues, k) + [x]], byUid[x.uid := k];
            Named(queues', byUid') && Once(queues') && Found(queues', byUid')
  {
    hide InLine;
    var queues', byUid' := queues[k := Line(queues, k) + [x]], byUid[x.uid := k];
    forall u | u in byUid' ensures InLine(Line(queues', byUid'[u]), u) {
      if byUid'[u] == k {
        StillInLine(Line(queues, k), x, u);
      }
    }
  }

  lemma SeatKeepsIndex(queues: map<Key, seq<Entry>>, byUid: map<Uid, Key>, k: Key, x: Entry)
    requires Named(queues, byUid) && Once(queues) && Found(queues, byUid) && x.uid !in byUid
    ensures var queues', byUid' := queues[k := []], byUid - Uids(Line(queues, k) + [x]);
            Named(queues', byUid') && Once(queues') && Found(queues', byUid')
  {
    hide InLine;
    var q := Line(queues, k) + [x];
    var queues', byUid' := queues[k := []], byUid - Uids(q);
    forall u | u in byUid' ensures InLine(Line(queues', byUid'[u]), u) {
      assert InLine(Line(queues, byUid[u]), u);
      if byUid[u] == k {
        SeatedIsGone(Line(queues, k), x, u);
      }
    }
    forall j, i | j in queues' && 0 <= i < |queues'[j]|
      ensures queues'[j][i].uid in byUid' && byUid'[queues'[j][i].uid] == j
    {
      OtherLineStays(queues, byUid, k, x, j, i);
    }
  }

  lemma SeatedIsGone(q: seq<Entry>, x: Entry, u: Uid)
    requires InLine(q, u)
    ensures u in Uids(q + [x])
  {
    var i :| 0 <= i < |q| && q[i].uid == u;
    assert (q + [x])[i].uid == u;
  }

  lemma OtherLineStays(queues: map<Key, seq<Entry>>, byUid: map<Uid, Key>, k: Key, x: Entry, j: Key, i: nat)
    requires Named(queues, byUid) && x.uid !in byUid && j in queues && j != k && i < |queues[j]|
    ensures queues[j][i].uid !in Uids(Line(queues, k) + [x])
  {
    var q, u := Line(queues, k) + [x], queues[j][i].uid;
    forall n | 0 <= n < |q| ensures q[n].uid != u {
      if n < |q| - 1 {
        assert byUid[queues[k][n].uid] == k;
      }
    }
  }

  /** A request that leaves the line no longer than its table keeps the index right. */
  lemma JoinKeepsIndex(b: Board, uid: Uid, rule: Rule, seqNo: nat)
    requires Agrees(b) && Answered(b, uid, rule) == Accepted && |Line(b.queues, KeyOf(rule))| + 1 <= rule.players
    ensures Agrees(Enqueue(b, uid, rule, seqNo))
  {
    hide KeyOf, Named, Once, Found, Uids;
    var k, x := KeyOf(rule), Entry(uid, seqNo, rule, |b.accepted|);
    var q := Line(b.queues, k) + [x];
    if |q| < rule.players {
      WaitKeepsIndex(b.queues, b.byUid, k, x);
    } else {
      SeatKeepsIndex(b.queues, b.byUid, k, x);
      assert q[..rule.players] == q && q[rule.players..] == [];
    }
  }

  /** Otherwise the newcomer stays in line without being in the index. */
  lemma JoinBreaksIndex(b: Board, uid: Uid, rule: Rule, seqNo: nat)
    requires Agrees(b) && Answered(b, uid, rule) == Accepted && |Line(b.queues, KeyOf(rule))| + 1 > rule.players
    ensures !Agrees(Enqueue(b, uid, rule, seqNo))
  {
    hide Uids, KeyOf, Once, Found;
    var b' := Enqueue(b, uid, rule, seqNo);
    var left := b'.queues[KeyOf(rule)];
    assert left[|left| - 1].uid == uid && uid !in b'.byUid;
  }

  /** Two requests from the start are enough: one waits for three, the next asks for a table of one. */
  lemma MixedSizesBreakIndex(u: Uid, v: Uid)
    requires u != v
    ensures !Agrees(Run(Empty(), [Join(u, Rule("g", "", 3), 1), Join(v, Rule("g", "", 1), 2)]))
  {
    var three, one := Rule("g", "", 3), Rule("g", "", 1);
    var first, second := Join(u, three, 1), Join(v, one, 2);
    var b := Next(Empty(), first);
    assert [first, second][1..] == [second] && [second][1..] == [];
    assert Run(Empty(), [first, second]) == Run(b, [second]) == Run(Next(b, second), []) == Next(b, second);
    InitAgrees();
    JoinKeepsIndex(Empty(), u, three, 1);
    assert KeyOf(three) == KeyOf(one);
    JoinBreaksIndex(b, v, one, 2);
  }

  lemma InitAgrees()
    ensures Agrees(Empty())
  {
  }

  /** Exactly when the line plus the newcomer is not longer than the table asked for. */
  lemma JoinKeepsIndexIff(b: Board, uid: Uid, rule: Rule, seqNo: nat)
    requires Agrees(b) && Answered(b, uid, rule) == Accepted
    ensures Agrees(Enqueue(b, uid, rule, seqNo)) <==> |Line(b.queues, KeyOf(rule))| + 1 <= rule.players
  {
    hide Agrees, Enqueue, KeyOf;
    if |Line(b.queues, KeyOf(rule))| + 1 <= rule.players {
      JoinKeepsIndex(b, uid, rule, seqNo);
    } else {
      JoinBreaksIndex(b, uid, rule, seqNo);
    }
  }

  lemma WithoutOthers(q: seq<Entry>, i: nat)
    requires Distinct(q) && i < |q|
    ensures Distinct(Without(q, i))
    ensures forall u | u != q[i].uid && InLine(q, u) :: InLine(Without(q, i), u)
    ensures forall n | 0 <= n < |Without(q, i)| :: Without(q, i)[n] in q && Without(q, i)[n].uid != q[i].uid
  {
    var r := Without(q, i);
    assert forall n | 0 <= n < |r| :: r[n] == q[if n < i then n else n + 1];
    forall u | u != q[i].uid && InLine(q, u) ensures InLine(r, u) {
      var j :| 0 <= j < |q| && q[j].uid == u;
      assert r[if j < i then j else j - 1] == q[j];
    }
  }

  lemma LeavingKeepsIndex(queues: map<Key, seq<Entry>>, byUid: map<Uid, Key>, k: Key, i: nat)
    requires Named(queues, byUid) && Once(queues) && Found(queues, byUid) && k in queues && i < |queues[k]|
    ensures var queues', byUid' := queues[k := Without(queues[k], i)], byUid - {queues[k][i].uid};
            Named(queues', byUid') && Once(queues') && Found(queues', byUid')
  {
    hide InLine, Distinct, Without;
    WithoutOthers(queues[k], i);
    assert byUid[queues[k][i].uid] == k;
  }

  lemma LeaveKeepsIndex(b: Board, uid: Uid)
    requires Agrees(b)
    ensures Agrees(Cancel(b, uid))
  {
    hide Named, Once, Without;
    if uid in b.byUid {
      var k := b.byUid[uid];
      var q := Line(b.queues, k);
      assert InLine(q, uid);
      LeavingKeepsIndex(b.queues, b.byUid, k, PlaceOf(q, uid));
    }
  }

  // ---- Every run with one table size per key ----

  /** Every request for a key asks for the same number of players. */
  ghost predicate Uniform(events: seq<Event>, size: Key -> int) {
    forall i | 0 <= i < |events| && events[i].Join? :: events[i].rule.players == size(KeyOf(events[i].rule))
  }

  ghost predicate SizeInv(b: Board, size: Key -> int) {
    && (forall k | k in b.queues && b.queues[k] != [] :: |b.queues[k]| < size(k))
    && (forall t: seq<Entry> | t in b.tables :: t != [] && |t| == size(KeyOf(t[0].rule)))
  }

  lemma EventKeepsSizes(b: Board, e: Event, size: Key -> int)
    requires InPlace(b.queues) && SizeInv(b, size) && (e.Join? ==> e.rule.players == size(KeyOf(e.rule)))
    ensures SizeInv(Next(b, e), size)
  {
    hide Uids, KeyOf;
    if e.Join? && Answered(b, e.uid, e.rule) == Accepted {
      var k := KeyOf(e.rule);
      var q := Line(b.queues, k) + [Entry(e.uid, e.seqNo, e.rule, |b.accepted|)];
      assert KeyOf(q[0].rule) == k;
    }
  }

  /** No table seats a player twice. */
  ghost predicate SeatsInv(b: Board) {
    forall t | t in b.tables :: Distinct(t)
  }

  lemma NewcomerIsDistinct(queues: map<Key, seq<Entry>>, byUid: map<Uid, Key>, k: Key, x: Entry)
    requires Named(queues, byUid) && Once(queues) && x.uid !in byUid
    ensures Distinct(Line(queues, k) + [x])
  {
    var q := Line(queues, k);
    assert k in queues ==> Distinct(queues[k]);
  }

  lemma PrefixIsDistinct(q: seq<Entry>, n: nat)
    requires Distinct(q) && n <= |q|
    ensures Distinct(q[..n])
  {
  }

  lemma EventKeepsSeats(b: Board, e: Event)
    requires Agrees(b) && SeatsInv(b)
    ensures SeatsInv(Next(b, e))
  {
    hide Uids, KeyOf, Named, Once, Found, Distinct;
    if e.Join? && Answered(b, e.uid, e.rule) == Accepted {
      var x := Entry(e.uid, e.seqNo, e.rule, |b.accepted|);
      var q := Line(b.queues, KeyOf(e.rule)) + [x];
      NewcomerIsDistinct(b.queues, b.byUid, KeyOf(e.rule), x);
      if |q| >= e.rule.players {
        PrefixIsDistinct(q, e.rule.players);
      }
    }
  }

  lemma {:induction false} RunKeepsInv(b: Board, events: seq<Event>, size: Key -> int)
    requires BooksInv(b) && OrderInv(b) && Agrees(b) && SizeInv(b, size) && SeatsInv(b) && Uniform(events, size)
    ensures var b' := Run(b, events); BooksInv(b') && OrderInv(b') && Agrees(b') && SizeInv(b', size) && SeatsInv(b')
    decreases |events|
  {
    hide Accounted, OrderInv, Agrees, Enqueue, Cancel, SeatsInv;
    if events != [] {
      var e := events[0];
      EventKeepsBooks(b, e);
      EventKeepsOrder(b, e);
      EventKeepsSizes(b, e, size);
      EventKeepsSeats(b, e);
      match e {
        case Join(uid, rule, seqNo) =>
          if Answered(b, uid, rule) == Accepted {
            JoinKeepsIndex(b, uid, rule, seqNo);
          } else {
            Refused(b, uid, rule, seqNo);
          }
        case Leave(uid) => LeaveKeepsIndex(b, uid);
      }
      RunKeepsInv(Next(b, e), events[1..], size);
    }
  }

  lemma Refused(b: Board, uid: Uid, rule: Rule, seqNo: nat)
    requires Answered(b, uid, rule) != Accepted
    ensures Enqueue(b, uid, rule, seqNo) == b
  {
  }

  /** From the start, with one table size per key: the index is exact, no line is as long as a table, and tables are full and seat nobody twice. */
  lemma QueueIsConsistent(events: seq<Event>, size: Key -> int)
    requires Uniform(events, size)
    ensures var b := Run(Empty(), events); Agrees(b) && SizeInv(b, size) && SeatsInv(b)
  {
    hide Run, Uniform;
    RunKeepsInv(Empty(), events, size);
  }

  lemma {:induction false} RunKeepsBooks(b: Board, events: seq<Event>)
    requires BooksInv(b) && OrderInv(b)
    ensures BooksInv(Run(b, events)) && OrderInv(Run(b, events))
    decreases |events|
  {
    hide BooksInv, OrderInv, Next;
    if events != [] {
      EventKeepsBooks(b, events[0]);
      EventKeepsOrder(b, events[0]);
      RunKeepsBooks(Next(b, events[0]), events[1..]);
    }
  }

  /** In every run, each accepted request is in exactly one place: in line, cancelled, or at one seat of one table. */
  lemma ExactlyOneFate(events: seq<Event>, n: nat)
    requires n < |Run(Empty(), events).accepted|
    ensures var b := Run(Empty(), events);
            var e := b.accepted[n];
            Times(Line(b.queues, KeyOf(e.rule)), e) + Times(b.cancelled, e) + Times(Flat(b.tables), e) == 1
  {
    hide Run, KeyOf;
    RunKeepsBooks(Empty(), events);
    var b := Run(Empty(), events);
    OnceInLog(b.accepted, n);
    assert Balanced(b.queues, b.tables, b.accepted, b.cancelled, b.accepted[n]);
  }

  lemma OnceInLog(accepted: seq<Entry>, n: nat)
    requires Ticketed(accepted) && n < |accepted|
    ensures Times(accepted, accepted[n]) == 1
  {
    var a, c := accepted[..n], accepted[n + 1..];
    assert accepted == a + [accepted[n]] + c;
    assert accepted[n] !in a && accepted[n] !in c;
  }

  /** In every run, the tables of a key seat its players in the order they arrived, before anyone still in line. */
  lemma FirstComeFirstServed(events: seq<Event>, k: Key)
    ensures var b := Run(Empty(), events); InOrder(Served(b.tables, k) + Line(b.queues, k))
  {
    hide Run;
    RunKeepsBooks(Empty(), events);
  }

  lemma {:induction false} RunMore(b: Board, events: seq<Event>, e: Event)
    ensures Run(b, events + [e]) == Next(Run(b, events), e)
    decreases |events|
  {
    hide Next;
    if events == [] {
      assert Run(b, [e]) == Run(Next(b, e), []);
    } else {
      assert (events + [e])[1..] == events[1..] + [e];
      RunMore(Next(b, events[0]), events[1..], e);
    }
  }
}

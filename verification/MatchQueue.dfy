/**
 The match queue as a value: players wait in line per queue key, and a full line becomes a
 table.  Each accepted request carries its arrival number.
 */
module MatchQueue {
  type Uid = string
  type Key = string

  datatype Rule = Rule(game: string, code: string, players: int)

  datatype Entry = Entry(uid: Uid, seqNo: nat, rule: Rule, ticket: nat)

  datatype Answer = Accepted | BadRule | AlreadyQueued

  datatype Board = Board(
    queues: map<Key, seq<Entry>>,
    byUid: map<Uid, Key>,
    tables: seq<seq<Entry>>,      // tables in the order they were formed
    accepted: seq<Entry>,         // requests in the order they were accepted
    cancelled: seq<Entry>)

  datatype Event = Join(uid: Uid, rule: Rule, seqNo: nat) | Leave(uid: Uid)

  function KeyOf(rule: Rule): Key {
    rule.game + "|" + rule.code
  }

  function Line(queues: map<Key, seq<Entry>>, k: Key): seq<Entry> {
    if k in queues then queues[k] else []
  }

  function Uids(q: seq<Entry>): set<Uid> {
    set i | 0 <= i < |q| :: q[i].uid
  }

  function Answered(b: Board, uid: Uid, rule: Rule): Answer {
    if rule.game == "" || rule.players <= 0 then BadRule
    else if uid in b.byUid then AlreadyQueued
    else Accepted
  }

  function Enqueue(b: Board, uid: Uid, rule: Rule, seqNo: nat): Board {
    if Answered(b, uid, rule) != Accepted then b
    else
      var k, e := KeyOf(rule), Entry(uid, seqNo, rule, |b.accepted|);
      var q := Line(b.queues, k) + [e];
      if |q| < rule.players then
        b.(queues := b.queues[k := q], byUid := b.byUid[uid := k], accepted := b.accepted + [e])
      else
        var matched, remain := q[..rule.players], q[rule.players..];
        b.(queues := b.queues[k := remain], byUid := b.byUid - Uids(matched), tables := b.tables + [matched],
           accepted := b.accepted + [e])
  }

  /** The first place of a uid in line, or the line's length. */
  function PlaceOf(q: seq<Entry>, uid: Uid): (i: nat)
    ensures i <= |q| && (i < |q| ==> q[i].uid == uid)
    ensures forall j | 0 <= j < i :: q[j].uid != uid
  {
    if q == [] || q[0].uid == uid then 0 else 1 + PlaceOf(q[1..], uid)
  }

  function Without(q: seq<Entry>, i: nat): seq<Entry>
    requires i < |q|
  {
    q[..i] + q[i + 1..]
  }

  function Cancel(b: Board, uid: Uid): Board {
    if uid !in b.byUid then b
    else
      var k := b.byUid[uid];
      var q := Line(b.queues, k);
      var i := PlaceOf(q, uid);
      if i == |q| then b.(byUid := b.byUid - {uid})
      else b.(byUid := b.byUid - {uid}, queues := b.queues[k := Without(q, i)], cancelled := b.cancelled + [q[i]])
  }

  function Next(b: Board, e: Event): Board {
    match e
    case Join(uid, rule, seqNo) => Enqueue(b, uid, rule, seqNo)
    case Leave(uid) => Cancel(b, uid)
  }

  function Run(b: Board, events: seq<Event>): Board
    decreases |events|
  {
    if events == [] then b else Run(Next(b, events[0]), events[1..])
  }

  function Empty(): Board {
    Board(map[], map[], [], [], [])
  }
}

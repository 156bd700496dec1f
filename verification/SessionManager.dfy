/**
 The session manager with whole calls as single steps: its three indexes, updated in place,
 always agree with the sessions and with one another.
 */
module SessionManager {
  import opened Common
  import opened Sessions

  type ConnId = int

  datatype Login = Login(uid: Uid, token: Token, conn: Option<ConnId>, status: Status, offlineAt: int)

  /** `byToken` and `byConn` hold exactly the current token and connection of the sessions in `byUid`. */
  ghost predicate Agree(logins: map<Sid, Login>, byUid: map<Uid, Sid>, byToken: map<Token, Sid>, byConn: map<ConnId, Sid>) {
    && (forall u | u in byUid ::
          && byUid[u] in logins
          && logins[byUid[u]].uid == u
          && logins[byUid[u]].status != Released
          && logins[byUid[u]].token in byToken && byToken[logins[byUid[u]].token] == byUid[u]
          && (logins[byUid[u]].conn.Some? ==>
                logins[byUid[u]].conn.value in byConn && byConn[logins[byUid[u]].conn.value] == byUid[u])
          && (logins[byUid[u]].status == Online <==> logins[byUid[u]].conn.Some?))
    && (forall t | t in byToken ::
          byToken[t] in logins && logins[byToken[t]].token == t &&
          logins[byToken[t]].uid in byUid && byUid[logins[byToken[t]].uid] == byToken[t])
    && (forall c | c in byConn ::
          byConn[c] in logins && logins[byConn[c]].conn == Some(c) &&
          logins[byConn[c]].uid in byUid && byUid[logins[byConn[c]].uid] == byConn[c])
  }

  ghost predicate Minted(logins: map<Sid, Login>, nextSid: Sid, nextToken: Token, conns: set<ConnId>) {
    && (forall sid | sid in logins :: sid < nextSid && logins[sid].token < nextToken)
    && (forall sid | sid in logins && logins[sid].conn.Some? :: logins[sid].conn.value in conns)
  }

  /** The sessions marked released are those the callback was told about, each once. */
  ghost predicate Told(logins: map<Sid, Login>, released: seq<Sid>) {
    && (forall sid | sid in logins :: logins[sid].status == Released <==> sid in released)
    && NoRepeats(released)
    && (forall sid | sid in released :: sid in logins)
  }

  function DropConn(byConn: map<ConnId, Sid>, conn: Option<ConnId>): map<ConnId, Sid> {
    if conn.Some? then byConn - {conn.value} else byConn
  }

  /** The connection is gone; an online session goes offline. */
  function WithoutConn(l: Login, now: int): Login {
    if l.status == Online then l.(conn := None, status := Offline, offlineAt := now) else l.(conn := None)
  }

  /** Whether a session has been offline for the whole grace period. */
  predicate Lapsed(logins: map<Sid, Login>, sid: Sid, grace: int, now: int) {
    && sid in logins
    && logins[sid].status == Offline
    && (if logins[sid].offlineAt == 0 then 0 else now - logins[sid].offlineAt) >= grace
  }

  /** The uids whose session has lapsed, found by looking at every registered session. */
  method Candidates(logins: map<Sid, Login>, byUid: map<Uid, Sid>, grace: int, now: int) returns (due: set<Uid>)
    ensures forall u :: u in due <==> u in byUid && Lapsed(logins, byUid[u], grace, now)
  {
    due := {};
    var left := byUid.Keys;
    while left != {}
      invariant left <= byUid.Keys
      invariant forall u :: u in due <==> u in byUid && u !in left && Lapsed(logins, byUid[u], grace, now)
      decreases left
    {
      var u := Pick(left);
      left := left - {u};
      if Lapsed(logins, byUid[u], grace, now) {
        due := due + {u};
      }
    }
  }

  lemma AgreeAfterRemove(logins: map<Sid, Login>, byUid: map<Uid, Sid>, byToken: map<Token, Sid>, byConn: map<ConnId, Sid>, uid: Uid)
    requires Agree(logins, byUid, byToken, byConn) && uid in byUid
    ensures var l := logins[byUid[uid]];
            Agree(logins[byUid[uid] := l.(status := Released)], byUid - {uid}, byToken - {l.token}, DropConn(byConn, l.conn))
  {
  }

  lemma AgreeAfterInsert(logins: map<Sid, Login>, byUid: map<Uid, Sid>, byToken: map<Token, Sid>, byConn: map<ConnId, Sid>,
                         sid: Sid, uid: Uid, token: Token, conn: ConnId)
    requires Agree(logins, byUid, byToken, byConn)
    requires sid !in logins && uid !in byUid && token !in byToken && conn !in byConn
    ensures Agree(logins[sid := Login(uid, token, Some(conn), Online, 0)], byUid[uid := sid], byToken[token := sid], byConn[conn := sid])
  {
  }

  lemma AgreeAfterUnbind(logins: map<Sid, Login>, byUid: map<Uid, Sid>, byToken: map<Token, Sid>, byConn: map<ConnId, Sid>, sid: Sid, now: int)
    requires Agree(logins, byUid, byToken, byConn) && sid in logins && logins[sid].conn.Some?
    ensures var l := logins[sid];
            var c := l.conn.value;
            Agree(logins[sid := WithoutConn(l, now)], byUid, byToken, if c in byConn && byConn[c] == sid then byConn - {c} else byConn)
  {
  }

  lemma AgreeAfterRebind(logins: map<Sid, Login>, byUid: map<Uid, Sid>, byToken: map<Token, Sid>, byConn: map<ConnId, Sid>,
                         token: Token, minted: Token, conn: ConnId)
    requires Agree(logins, byUid, byToken, byConn) && token in byToken && minted !in byToken && conn !in byConn
    requires token != minted
    ensures var sid := byToken[token];
            var l := logins[sid];
            Agree(logins[sid := l.(token := minted, conn := Some(conn), status := Online, offlineAt := 0)],
                  byUid, (byToken - {token})[minted := sid], DropConn(byConn, l.conn)[conn := sid])
  {
  }

  lemma MintedFacts(logins: map<Sid, Login>, byUid: map<Uid, Sid>, byToken: map<Token, Sid>, byConn: map<ConnId, Sid>,
                    nextSid: Sid, nextToken: Token, conns: set<ConnId>, conn: ConnId)
    requires Agree(logins, byUid, byToken, byConn) && Minted(logins, nextSid, nextToken, conns) && conn !in conns
    ensures nextSid !in logins && nextToken !in byToken && conn !in byConn
  {
  }

  lemma IndexFacts(logins: map<Sid, Login>, byUid: map<Uid, Sid>, byToken: map<Token, Sid>, byConn: map<ConnId, Sid>)
    requires Agree(logins, byUid, byToken, byConn)
    ensures forall u | u in byUid :: byUid[u] in logins && logins[byUid[u]].status != Released && logins[byUid[u]].uid == u
  {
  }

  lemma TokenFacts(logins: map<Sid, Login>, byUid: map<Uid, Sid>, byToken: map<Token, Sid>, byConn: map<ConnId, Sid>, token: Token)
    requires Agree(logins, byUid, byToken, byConn) && token in byToken
    ensures byToken[token] in logins && logins[byToken[token]].status != Released
  {
  }

  lemma ToldOnce(logins: map<Sid, Login>, released: seq<Sid>, sid: Sid)
    requires Told(logins, released) && sid in logins && logins[sid].status != Released
    ensures Told(logins[sid := logins[sid].(status := Released)], released + [sid])
  {
  }

  lemma SizeAfterRemove(m: map<Uid, Sid>, u: Uid)
    requires u in m
    ensures |m - {u}| == |m| - 1
  {
    assert (m - {u}).Keys == m.Keys - {u};
  }

  lemma StillMinted(logins: map<Sid, Login>, nextSid: Sid, nextToken: Token, conns: set<ConnId>, sid: Sid, l: Login)
    requires Minted(logins, nextSid, nextToken, conns) && sid in logins
    requires l.token == logins[sid].token && (l.conn == None || l.conn == logins[sid].conn)
    ensures Minted(logins[sid := l], nextSid, nextToken, conns)
  {
  }

  lemma Reminted(logins: map<Sid, Login>, nextSid: Sid, nextToken: Token, conns: set<ConnId>, sid: Sid, l: Login, conn: ConnId)
    requires Minted(logins, nextSid, nextToken, conns) && sid in logins && l.token == nextToken && l.conn == Some(conn)
    ensures Minted(logins[sid := l], nextSid, nextToken + 1, conns + {conn})
  {
  }

  lemma NewlyMinted(logins: map<Sid, Login>, nextSid: Sid, nextToken: Token, conns: set<ConnId>, released: seq<Sid>, l: Login)
    requires Minted(logins, nextSid, nextToken, conns) && Told(logins, released)
    requires nextSid !in logins && l.token == nextToken && l.conn.Some? && l.status != Released
    ensures Minted(logins[nextSid := l], nextSid + 1, nextToken + 1, conns + {l.conn.value})
    ensures Told(logins[nextSid := l], released)
  {
  }

  lemma StillTold(logins: map<Sid, Login>, released: seq<Sid>, sid: Sid, l: Login)
    requires Told(logins, released) && sid in logins && (l.status == Released <==> logins[sid].status == Released)
    ensures Told(logins[sid := l], released)
  {
  }

  ghost predicate Consistent(logins: map<Sid, Login>, byUid: map<Uid, Sid>, byToken: map<Token, Sid>, byConn: map<ConnId, Sid>,
                             nextSid: Sid, nextToken: Token, conns: set<ConnId>, released: seq<Sid>, gauge: int) {
    && Agree(logins, byUid, byToken, byConn)
    && Minted(logins, nextSid, nextToken, conns)
    && Told(logins, released)
    && gauge == |byUid|
  }

  lemma Destroyed(logins: map<Sid, Login>, byUid: map<Uid, Sid>, byToken: map<Token, Sid>, byConn: map<ConnId, Sid>,
                  nextSid: Sid, nextToken: Token, conns: set<ConnId>, released: seq<Sid>, gauge: int, uid: Uid)
    requires Consistent(logins, byUid, byToken, byConn, nextSid, nextToken, conns, released, gauge) && uid in byUid
    ensures byUid[uid] in logins
    ensures var l := logins[byUid[uid]];
            Consistent(logins[byUid[uid] := l.(status := Released)], byUid - {uid}, byToken - {l.token}, DropConn(byConn, l.conn),
                       nextSid, nextToken, conns, released + [byUid[uid]], gauge - 1)
  {
    hide Agree, Minted, Told;
    IndexFacts(logins, byUid, byToken, byConn);
    var l := logins[byUid[uid]];
    AgreeAfterRemove(logins, byUid, byToken, byConn, uid);
    ToldOnce(logins, released, byUid[uid]);
    SizeAfterRemove(byUid, uid);
    StillMinted(logins, nextSid, nextToken, conns, byUid[uid], l.(status := Released));
  }

  lemma Entered(logins: map<Sid, Login>, byUid: map<Uid, Sid>, byToken: map<Token, Sid>, byConn: map<ConnId, Sid>,
                nextSid: Sid, nextToken: Token, conns: set<ConnId>, released: seq<Sid>, gauge: int, uid: Uid, conn: ConnId)
    requires Consistent(logins, byUid, byToken, byConn, nextSid, nextToken, conns, released, gauge) && uid !in byUid && conn !in conns
    ensures var l := Login(uid, nextToken, Some(conn), Online, 0);
            Consistent(logins[nextSid := l], byUid[uid := nextSid], byToken[nextToken := nextSid], byConn[conn := nextSid],
                       nextSid + 1, nextToken + 1, conns + {conn}, released, gauge + 1)
  {
    hide Agree, Minted, Told;
    MintedFacts(logins, byUid, byToken, byConn, nextSid, nextToken, conns, conn);
    AgreeAfterInsert(logins, byUid, byToken, byConn, nextSid, uid, nextToken, conn);
    NewlyMinted(logins, nextSid, nextToken, conns, released, Login(uid, nextToken, Some(conn), Online, 0));
  }

  lemma Rebound(logins: map<Sid, Login>, byUid: map<Uid, Sid>, byToken: map<Token, Sid>, byConn: map<ConnId, Sid>,
                nextSid: Sid, nextToken: Token, conns: set<ConnId>, released: seq<Sid>, gauge: int, token: Token, conn: ConnId)
    requires Consistent(logins, byUid, byToken, byConn, nextSid, nextToken, conns, released, gauge) && token in byToken && conn !in conns
    ensures byToken[token] in logins && nextToken !in byToken
    ensures var sid := byToken[token];
            var l := logins[sid];
            Consistent(logins[sid := l.(token := nextToken, conn := Some(conn), status := Online, offlineAt := 0)],
                       byUid, (byToken - {token})[nextToken := sid], DropConn(byConn, l.conn)[conn := sid],
                       nextSid, nextToken + 1, conns + {conn}, released, gauge)
  {
    hide Agree, Minted, Told;
    TokenFacts(logins, byUid, byToken, byConn, token);
    MintedFacts(logins, byUid, byToken, byConn, nextSid, nextToken, conns, conn);
    var sid := byToken[token];
    var l := logins[sid].(token := nextToken, conn := Some(conn), status := Online, offlineAt := 0);
    AgreeAfterRebind(logins, byUid, byToken, byConn, token, nextToken, conn);
    Reminted(logins, nextSid, nextToken, conns, sid, l, conn);
    StillTold(logins, released, sid, l);
  }

  lemma Unbound(logins: map<Sid, Login>, byUid: map<Uid, Sid>, byToken: map<Token, Sid>, byConn: map<ConnId, Sid>,
                nextSid: Sid, nextToken: Token, conns: set<ConnId>, released: seq<Sid>, gauge: int, sid: Sid, now: int)
    requires Consistent(logins, byUid, byToken, byConn, nextSid, nextToken, conns, released, gauge)
    requires sid in logins && logins[sid].conn.Some?
    ensures var l, c := logins[sid], logins[sid].conn.value;
            Consistent(logins[sid := WithoutConn(l, now)], byUid, byToken, if c in byConn && byConn[c] == sid then byConn - {c} else byConn,
                       nextSid, nextToken, conns, released, gauge)
  {
    hide Agree, Minted, Told;
    AgreeAfterUnbind(logins, byUid, byToken, byConn, sid, now);
    StillMinted(logins, nextSid, nextToken, conns, sid, WithoutConn(logins[sid], now));
    StillTold(logins, released, sid, WithoutConn(logins[sid], now));
  }

  /** The logins with the given sessions marked released. */
  ghost function MarkAll(logins: map<Sid, Login>, gone: set<Sid>): map<Sid, Login> {
    map sid | sid in logins :: if sid in gone then logins[sid].(status := Released) else logins[sid]
  }

  ghost function SidsOf(byUid: map<Uid, Sid>, uids: set<Uid>): set<Sid> {
    set u | u in uids && u in byUid :: byUid[u]
  }

  /** The registered sessions that have lapsed. */
  ghost function LapsedSids(logins: map<Sid, Login>, byUid: map<Uid, Sid>, grace: int, now: int): set<Sid> {
    set u | u in byUid && Lapsed(logins, byUid[u], grace, now) :: byUid[u]
  }

  ghost function Sids(s: seq<Sid>): set<Sid> {
    set sid | sid in s
  }

  /** The sessions of the uids in `gone` have been destroyed, and nothing else changed. */
  ghost predicate Swept(logins: map<Sid, Login>, byUid: map<Uid, Sid>, released: seq<Sid>,
                        logins0: map<Sid, Login>, byUid0: map<Uid, Sid>, released0: seq<Sid>, added: seq<Sid>, gone: set<Uid>) {
    && byUid == byUid0 - gone && logins == MarkAll(logins0, SidsOf(byUid0, gone))
    && released == released0 + added && Sids(added) == SidsOf(byUid0, gone) && |byUid| + |added| == |byUid0|
  }

  lemma SweptFacts(logins: map<Sid, Login>, byUid: map<Uid, Sid>, released: seq<Sid>,
                   logins0: map<Sid, Login>, byUid0: map<Uid, Sid>, released0: seq<Sid>, added: seq<Sid>, gone: set<Uid>)
    requires Swept(logins, byUid, released, logins0, byUid0, released0, added, gone)
    ensures byUid == byUid0 - gone && logins == MarkAll(logins0, SidsOf(byUid0, gone))
    ensures released == released0 + added && Sids(added) == SidsOf(byUid0, gone) && |byUid| + |added| == |byUid0|
  {
  }

  lemma NoneSwept(logins: map<Sid, Login>, byUid: map<Uid, Sid>, released: seq<Sid>)
    ensures Swept(logins, byUid, released, logins, byUid, released, [], {})
  {
    assert SidsOf(byUid, {}) == {};
    assert byUid - {} == byUid;
  }

  lemma SweptHas(logins: map<Sid, Login>, byUid: map<Uid, Sid>, released: seq<Sid>,
                 logins0: map<Sid, Login>, byUid0: map<Uid, Sid>, released0: seq<Sid>, added: seq<Sid>, gone: set<Uid>, uid: Uid)
    requires Swept(logins, byUid, released, logins0, byUid0, released0, added, gone) && uid in byUid0 && uid !in gone
    ensures uid in byUid && byUid[uid] == byUid0[uid]
  {
  }

  lemma SweptOne(logins: map<Sid, Login>, byUid: map<Uid, Sid>, released: seq<Sid>,
                 logins0: map<Sid, Login>, byUid0: map<Uid, Sid>, released0: seq<Sid>, added: seq<Sid>, gone: set<Uid>, uid: Uid)
    requires Swept(logins, byUid, released, logins0, byUid0, released0, added, gone) && uid in byUid && byUid[uid] in logins
    ensures var sid := byUid[uid];
            Swept(logins[sid := logins[sid].(status := Released)], byUid - {uid}, released + [sid],
                  logins0, byUid0, released0, added + [sid], gone + {uid})
  {
    hide MarkAll, SidsOf;
    var sid := byUid[uid];
    MarkOne(logins0, SidsOf(byUid0, gone), sid);
    OneMoreSid(byUid0, gone, uid);
    assert byUid0 - gone - {uid} == byUid0 - (gone + {uid});
    assert Sids(added + [sid]) == Sids(added) + {sid};
    SizeAfterRemove(byUid, uid);
  }

  lemma MarkOne(logins: map<Sid, Login>, gone: set<Sid>, sid: Sid)
    ensures sid in MarkAll(logins, gone) <==> sid in logins
    ensures sid in logins ==>
              MarkAll(logins, gone)[sid := MarkAll(logins, gone)[sid].(status := Released)] == MarkAll(logins, gone + {sid})
  {
  }

  lemma OneMoreSid(byUid: map<Uid, Sid>, gone: set<Uid>, u: Uid)
    requires u in byUid
    ensures SidsOf(byUid, gone + {u}) == SidsOf(byUid, gone) + {byUid[u]}
  {
    forall s | s in SidsOf(byUid, gone + {u}) ensures s in SidsOf(byUid, gone) + {byUid[u]} {
      var v :| v in gone + {u} && v in byUid && byUid[v] == s;
    }
    forall s | s in SidsOf(byUid, gone) ensures s in SidsOf(byUid, gone + {u}) {
      var v :| v in gone && v in byUid && byUid[v] == s;
      assert v in gone + {u};
    }
    assert u in gone + {u};
  }

  lemma AllSids(logins: map<Sid, Login>, byUid: map<Uid, Sid>, due: set<Uid>, grace: int, now: int)
    requires forall u :: u in due <==> u in byUid && Lapsed(logins, byUid[u], grace, now)
    ensures SidsOf(byUid, due) == LapsedSids(logins, byUid, grace, now)
  {
  }

  predicate Registered(byUid: map<Uid, Sid>, uid: Uid, sid: Sid) {
    uid in byUid && byUid[uid] == sid
  }

  lemma RegisteredHere(logins: map<Sid, Login>, byUid: map<Uid, Sid>, byToken: map<Token, Sid>, byConn: map<ConnId, Sid>,
                       nextSid: Sid, nextToken: Token, conns: set<ConnId>, released: seq<Sid>, gauge: int, uid: Uid)
    requires Consistent(logins, byUid, byToken, byConn, nextSid, nextToken, conns, released, gauge) && uid in byUid
    ensures byUid[uid] in logins && logins[byUid[uid]].uid == uid
  {
    hide Minted, Told;
  }

  class Manager {
    const grace: int
    var logins: map<Sid, Login>        // every session object ever created
    var byUid: map<Uid, Sid>
    var byToken: map<Token, Sid>
    var byConn: map<ConnId, Sid>
    var gauge: int
    var nextSid: Sid
    var nextToken: Token
    ghost var released: seq<Sid>       // calls of the release callback
    ghost var conns: set<ConnId>       // connection ids seen so far

    ghost predicate Valid()
      reads this
    {
      Consistent(logins, byUid, byToken, byConn, nextSid, nextToken, conns, released, gauge)
    }

    constructor (grace: int)
      ensures Valid() && byUid == map[] && released == [] && conns == {} && this.grace == grace && nextSid == 0 && nextToken == 0
    {
      this.grace := grace;
      logins, byUid, byToken, byConn := map[], map[], map[], map[];
      gauge, nextSid, nextToken := 0, 0, 0;
      released, conns := [], {};
    }

    /** Takes the session of a uid out of every index and releases it. */
    method Release(uid: Uid)
      requires Valid() && uid in byUid
      modifies `logins, `byUid, `byToken, `byConn, `gauge, `released
      ensures Valid() && old(byUid[uid] in logins)
      ensures byUid == old(byUid) - {uid} && |byUid| == |old(byUid)| - 1
      ensures released == old(released) + [old(byUid)[uid]]
      ensures byToken == old(byToken) - {old(logins[byUid[uid]].token)}
      ensures logins == old(logins)[old(byUid)[uid] := old(logins[byUid[uid]]).(status := Released)]
    {
      hide Consistent;
      Destroyed(logins, byUid, byToken, byConn, nextSid, nextToken, conns, released, gauge, uid);
      SizeAfterRemove(byUid, uid);
      var sid := byUid[uid];
      var l := logins[sid];
      byUid := byUid - {uid};
      byToken := byToken - {l.token};
      byConn := DropConn(byConn, l.conn);
      logins := logins[sid := l.(status := Released)];
      gauge := gauge - 1;
      released := released + [sid];
    }

    /** Destroys a session; one that is no longer registered, because it was destroyed or replaced, is left alone. */
    method Destroy(sid: Sid)
      requires Valid() && sid in logins
      modifies `logins, `byUid, `byToken, `byConn, `gauge, `released
      ensures Valid()
      ensures if old(Registered(byUid, logins[sid].uid, sid)) then
                && byUid == old(byUid) - {old(logins[sid].uid)} && |byUid| == |old(byUid)| - 1
                && released == old(released) + [sid] && byToken == old(byToken) - {old(logins[sid].token)}
                && logins == old(logins)[sid := old(logins[sid]).(status := Released)]
              else unchanged(this)
    {
      hide Consistent;
      if Registered(byUid, logins[sid].uid, sid) {
        Release(logins[sid].uid);
      }
    }

    /** Enters a new session for a uid that has none. */
    method Register(uid: Uid, conn: ConnId) returns (sid: Sid, token: Token)
      requires Valid() && conn !in conns && uid !in byUid
      modifies this
      ensures Valid() && conns == old(conns) + {conn} && released == old(released)
      ensures sid == old(nextSid) && token == old(nextToken) && nextSid == sid + 1 && nextToken == token + 1
      ensures logins == old(logins)[sid := Login(uid, token, Some(conn), Online, 0)]
      ensures byUid == old(byUid)[uid := sid]
    {
      hide Consistent;
      Entered(logins, byUid, byToken, byConn, nextSid, nextToken, conns, released, gauge, uid, conn);
      token, sid := nextToken, nextSid;
      nextToken, nextSid := nextToken + 1, nextSid + 1;
      conns := conns + {conn};
      logins := logins[sid := Login(uid, token, Some(conn), Online, 0)];
      byUid := byUid[uid := sid];
      byToken := byToken[token := sid];
      byConn := byConn[conn := sid];
      gauge := gauge + 1;
    }

    /** Login; a session of the same uid is replaced and released. */
    method Create(uid: Uid, conn: ConnId) returns (sid: Sid, token: Token)
      requires Valid() && conn !in conns
      modifies this
      ensures Valid() && conns == old(conns) + {conn}
      ensures sid !in old(logins) && token !in old(byToken) && sid in logins
      ensures sid == old(nextSid) && token == old(nextToken) && nextSid == sid + 1 && nextToken == token + 1
      ensures logins[sid] == Login(uid, token, Some(conn), Online, 0)
      ensures forall x | x in old(logins) && !(uid in old(byUid) && x == old(byUid)[uid]) :: x in logins && logins[x] == old(logins)[x]
      ensures byUid == old(byUid)[uid := sid]
      ensures released == old(released) + if uid in old(byUid) then [old(byUid)[uid]] else []
    {
      hide Agree, Minted, Told;
      MintedFacts(logins, byUid, byToken, byConn, nextSid, nextToken, conns, conn);
      if uid in byUid {
        IndexFacts(logins, byUid, byToken, byConn);
        Release(uid);
      }
      sid, token := Register(uid, conn);
      assert byUid == old(byUid)[uid := sid];
    }

    /** Releases every session whose grace period has run out, and no other. */
    method Sweep(now: int) returns (n: nat)
      requires Valid()
      modifies `logins, `byUid, `byToken, `byConn, `gauge, `released
      ensures Valid() && n == |old(byUid)| - |byUid|
      ensures forall u :: u in byUid <==> u in old(byUid) && !Lapsed(old(logins), old(byUid)[u], grace, now)
      ensures forall u | u in byUid :: byUid[u] == old(byUid)[u]
      ensures logins == MarkAll(old(logins), LapsedSids(old(logins), old(byUid), grace, now))
      ensures exists added :: |added| == n && released == old(released) + added && Sids(added) == LapsedSids(old(logins), old(byUid), grace, now)
    {
      hide Consistent, Lapsed, MarkAll, SidsOf, LapsedSids, Sids;
      var due := Candidates(logins, byUid, grace, now);
      AllSids(logins, byUid, due, grace, now);
      ghost var added;
      n, added := DestroyAll(due);
    }

    /** Destroys the sessions of the given uids, one after another. */
    method DestroyAll(due: set<Uid>) returns (n: nat, ghost added: seq<Sid>)
      requires Valid() && due <= byUid.Keys
      modifies `logins, `byUid, `byToken, `byConn, `gauge, `released
      ensures Valid() && n == |added| == |old(byUid)| - |byUid| && byUid == old(byUid) - due
      ensures logins == MarkAll(old(logins), SidsOf(old(byUid), due))
      ensures released == old(released) + added && Sids(added) == SidsOf(old(byUid), due)
    {
      hide Consistent, MarkAll, SidsOf, Sids, Swept;
      n, added := 0, [];
      var left := due;
      ghost var gone: set<Uid> := {};
      NoneSwept(logins, byUid, released);
      while left != {}
        invariant Valid() && left <= due && gone == due - left && n == |added|
        invariant Swept(logins, byUid, released, old(logins), old(byUid), old(released), added, gone)
        decreases left
      {
        var uid := Pick(left);
        SweptHas(logins, byUid, released, old(logins), old(byUid), old(released), added, gone, uid);
        assert due - (left - {uid}) == gone + {uid};
        left := left - {uid};
        ghost var l, m, r, a, g := logins, byUid, released, added, gone;
        RegisteredHere(logins, byUid, byToken, byConn, nextSid, nextToken, conns, released, gauge, uid);
        Destroy(byUid[uid]);
        SweptOne(l, m, r, old(logins), old(byUid), old(released), a, g, uid);
        added, gone := added + [m[uid]], gone + {uid};
        n := n + 1;
      }
      assert gone == due;
      SweptFacts(logins, byUid, released, old(logins), old(byUid), old(released), added, gone);
    }

    /** A read pump ends: the session goes offline only if it still uses that connection. */
    method MarkOfflineConn(sid: Sid, conn: ConnId, now: int) returns (ok: bool)
      requires Valid() && sid in logins
      modifies `logins, `byConn
      ensures Valid()
      ensures ok <==> old(logins[sid].conn) == Some(conn)
      ensures !ok ==> unchanged(this)
      ensures ok ==> logins == old(logins)[sid := WithoutConn(old(logins[sid]), now)] && !(conn in byConn && byConn[conn] == sid)
    {
      hide Consistent;
      var l := logins[sid];
      if l.conn != Some(conn) {
        return false;
      }
      Unbound(logins, byUid, byToken, byConn, nextSid, nextToken, conns, released, gauge, sid, now);
      logins := logins[sid := WithoutConn(l, now)];
      if conn in byConn && byConn[conn] == sid {
        byConn := byConn - {conn};
      }
      ok := true;
    }

    /** Gives the session of a token a fresh token and a new connection. */
    method Rebind(token: Token, conn: ConnId) returns (sid: Sid)
      requires Valid() && conn !in conns && token in byToken
      modifies `logins, `byToken, `byConn, `nextToken, `conns
      ensures Valid() && sid == old(byToken)[token] && sid in old(logins) && old(nextToken) !in old(byToken)
      ensures logins == old(logins)[sid := old(logins)[sid].(token := old(nextToken), conn := Some(conn), status := Online, offlineAt := 0)]
      ensures nextToken == old(nextToken) + 1 && conns == old(conns) + {conn}
      ensures byToken == (old(byToken) - {token})[old(nextToken) := sid]
    {
      hide Consistent;
      Rebound(logins, byUid, byToken, byConn, nextSid, nextToken, conns, released, gauge, token, conn);
      var minted, l := nextToken, logins[byToken[token]];
      sid := byToken[token];
      var l' := l.(token := minted, conn := Some(conn), status := Online, offlineAt := 0);
      var logins' := logins[sid := l'];
      var byToken' := (byToken - {token})[minted := sid];
      var byConn' := DropConn(byConn, l.conn)[conn := sid];
      logins, byToken, byConn := logins', byToken', byConn';
      nextToken, conns := nextToken + 1, conns + {conn};
    }

    /** Redeems a token: the session moves to the new connection and the token is used up. */
    method Reconnect(token: Token, conn: ConnId) returns (r: Option<Sid>)
      requires Valid() && conn !in conns
      modifies `logins, `byToken, `byConn, `nextToken, `conns
      ensures Valid()
      ensures r == if token in old(byToken) then Some(old(byToken)[token]) else None
      ensures r.None? ==> unchanged(this)
      ensures r.Some? ==> nextToken == old(nextToken) + 1 && conns == old(conns) + {conn}
      ensures r.Some? ==> token !in byToken && r.value in old(logins) && old(nextToken) !in old(byToken)
      ensures r.Some? ==> logins == old(logins)[r.value := old(logins)[r.value].(token := old(nextToken), conn := Some(conn), status := Online, offlineAt := 0)]
    {
      hide Consistent;
      if token in byToken {
        var sid := Rebind(token, conn);
        r := Some(sid);
      } else {
        r := None;
      }
    }
  }
}

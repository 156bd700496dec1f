/**
 The session manager over any list of calls, against a plain account of who is here and who is
 away since when: who a sweep releases is told by that account alone.
 */
module SessionRuns {
  import opened Common
  import opened Sessions
  import opened SessionManager

  datatype Where = Here(conn: ConnId) | Away(since: int)

  /** A uid's registered session. */
  datatype Seat = Seat(sid: Sid, token: Token, where: Where)

  datatype Desk = Desk(seats: map<Uid, Seat>, nextSid: Sid, nextToken: Token)

  datatype Request =
    | SignIn(uid: Uid)
    | HangUp(sid: Sid, conn: ConnId, at: int)     // the read pump of a connection ends
    | Return(token: Token)
    | Clean(now: int)

  predicate Overdue(w: Where, grace: int, now: int) {
    w.Away? && now - w.since >= grace
  }

  /** What a request on connection `conn` makes of the account. */
  function After(d: Desk, r: Request, conn: ConnId, grace: int): Desk {
    match r
    case SignIn(uid) => Desk(d.seats[uid := Seat(d.nextSid, d.nextToken, Here(conn))], d.nextSid + 1, d.nextToken + 1)
    case HangUp(sid, c, at) =>
      d.(seats := map u | u in d.seats ::
           if d.seats[u].sid == sid && d.seats[u].where == Here(c) then d.seats[u].(where := Away(at)) else d.seats[u])
    case Return(token) =>
      if forall u | u in d.seats :: d.seats[u].token != token then d
      else Desk(map u | u in d.seats ::
                  if d.seats[u].token == token then d.seats[u].(token := d.nextToken, where := Here(conn)) else d.seats[u],
                d.nextSid, d.nextToken + 1)
    case Clean(now) => d.(seats := map u | u in d.seats && !Overdue(d.seats[u].where, grace, now) :: d.seats[u])
  }

  /** Request `i` comes on connection `first + i`. */
  function AfterAll(d: Desk, rs: seq<Request>, first: ConnId, grace: int): Desk
    decreases |rs|
  {
    if rs == [] then d else AfterAll(After(d, rs[0], first, grace), rs[1..], first + 1, grace)
  }

  // ---- When a session leaves ----

  /** Nothing in the requests concerns the seat but sweeps and other people's business. */
  predicate LeftAlone(rs: seq<Request>, uid: Uid, token: Token) {
    forall r | r in rs :: r != SignIn(uid) && r != Return(token)
  }

  /** Seats have different tokens, all handed out before. */
  ghost predicate Handed(d: Desk) {
    && (forall u | u in d.seats :: d.seats[u].token < d.nextToken && d.seats[u].sid < d.nextSid)
    && forall u, v | u in d.seats && v in d.seats && u != v :: d.seats[u].token != d.seats[v].token && d.seats[u].sid != d.seats[v].sid
  }

  lemma StepKeepsHanded(d: Desk, r: Request, conn: ConnId, grace: int)
    requires Handed(d)
    ensures Handed(After(d, r, conn, grace))
  {
  }

  /** Somebody away since `at`: no request but a sweep a grace period later removes them, and none changes their seat. */
  lemma AwayStep(d: Desk, r: Request, conn: ConnId, grace: int, uid: Uid, at: int)
    requires Handed(d) && uid in d.seats && d.seats[uid].where == Away(at)
    requires r != SignIn(uid) && r != Return(d.seats[uid].token)
    ensures var d' := After(d, r, conn, grace);
            && (uid in d'.seats <==> !(r.Clean? && r.now - at >= grace))
            && (uid in d'.seats ==> d'.seats[uid] == d.seats[uid])
  {
  }

  lemma {:induction false} AbsentStays(d: Desk, rs: seq<Request>, first: ConnId, grace: int, uid: Uid)
    requires uid !in d.seats && SignIn(uid) !in rs
    ensures uid !in AfterAll(d, rs, first, grace).seats
    decreases |rs|
  {
    if rs != [] {
      assert rs[0] in rs && uid !in After(d, rs[0], first, grace).seats;
      AbsentStays(After(d, rs[0], first, grace), rs[1..], first + 1, grace, uid);
    }
  }

  /**
   Over any requests: a uid away since `at` that does not return or log in anew is registered
   afterwards exactly when no sweep among them came a grace period or more after `at`.
   */
  lemma {:induction false} SweptIff(d: Desk, rs: seq<Request>, first: ConnId, grace: int, uid: Uid, at: int)
    requires Handed(d) && uid in d.seats && d.seats[uid].where == Away(at) && LeftAlone(rs, uid, d.seats[uid].token)
    ensures uid in AfterAll(d, rs, first, grace).seats <==> forall r | r in rs && r.Clean? :: r.now - at < grace
    decreases |rs|
  {
    hide After, Handed;
    if rs != [] {
      assert rs[0] in rs && forall r | r in rs[1..] :: r in rs;
      var d' := After(d, rs[0], first, grace);
      AwayStep(d, rs[0], first, grace, uid, at);
      StepKeepsHanded(d, rs[0], first, grace);
      if uid in d'.seats {
        SweptIff(d', rs[1..], first + 1, grace, uid, at);
        assert forall r | r in rs :: r == rs[0] || r in rs[1..];
      } else {
        AbsentStays(d', rs[1..], first + 1, grace, uid);
      }
    }
  }

  lemma HereStep(d: Desk, r: Request, conn: ConnId, grace: int, uid: Uid)
    requires uid in d.seats && d.seats[uid].where.Here? && !(r.HangUp? && r.sid == d.seats[uid].sid)
    requires Handed(d)
    ensures var d' := After(d, r, conn, grace);
            && uid in d'.seats && d'.seats[uid].where.Here?
            && (d'.seats[uid].sid == d.seats[uid].sid || d'.seats[uid].sid == d.nextSid)
  {
  }

  /** Somebody online whose connection does not end is never swept, whatever the sweeps' times. */
  lemma {:induction false} OnlineIsKept(d: Desk, rs: seq<Request>, first: ConnId, grace: int, uid: Uid)
    requires Handed(d) && uid in d.seats && d.seats[uid].where.Here? && forall r | r in rs :: !r.HangUp?
    ensures uid in AfterAll(d, rs, first, grace).seats && AfterAll(d, rs, first, grace).seats[uid].where.Here?
    decreases |rs|
  {
    hide After, Handed;
    if rs != [] {
      assert rs[0] in rs && forall r | r in rs[1..] :: r in rs;
      HereStep(d, rs[0], first, grace, uid);
      StepKeepsHanded(d, rs[0], first, grace);
      OnlineIsKept(After(d, rs[0], first, grace), rs[1..], first + 1, grace, uid);
    }
  }

  // ---- The manager keeps that account ----

  ghost predicate SeatIs(seat: Seat, sid: Sid, l: Login) {
    && seat.sid == sid && seat.token == l.token
    && match seat.where
       case Here(conn) => l.status == Online && l.conn == Some(conn)
       case Away(since) => l.status == Offline && l.conn == None && l.offlineAt == since && since != 0
  }

  ghost predicate Mirrors(d: Desk, logins: map<Sid, Login>, byUid: map<Uid, Sid>, nextSid: Sid, nextToken: Token) {
    && d.nextSid == nextSid && d.nextToken == nextToken && d.seats.Keys == byUid.Keys
    && forall u | u in byUid :: byUid[u] in logins && logins[byUid[u]].uid == u && SeatIs(d.seats[u], byUid[u], logins[byUid[u]])
  }

  lemma MirrorsHanded(d: Desk, m: Manager)
    requires m.Valid() && Mirrors(d, m.logins, m.byUid, m.nextSid, m.nextToken)
    ensures Handed(d)
  {
    forall u, v | u in d.seats && v in d.seats && u != v
      ensures d.seats[u].token != d.seats[v].token && d.seats[u].sid != d.seats[v].sid
    {
      assert m.logins[m.byUid[u]].token in m.byToken;
    }
  }

  lemma MirrorSignIn(d: Desk, logins: map<Sid, Login>, byUid: map<Uid, Sid>, nextSid: Sid, nextToken: Token, uid: Uid, conn: ConnId,
                     logins': map<Sid, Login>, grace: int)
    requires Mirrors(d, logins, byUid, nextSid, nextToken) && (forall x | x in logins :: x < nextSid)
    requires nextSid in logins' && logins'[nextSid] == Login(uid, nextToken, Some(conn), Online, 0)
    requires forall x | x in logins && !(uid in byUid && x == byUid[uid]) :: x in logins' && logins'[x] == logins[x]
    ensures Mirrors(After(d, SignIn(uid), conn, grace), logins', byUid[uid := nextSid], nextSid + 1, nextToken + 1)
  {
  }

  method SignsIn(m: Manager, ghost d: Desk, uid: Uid, conn: ConnId)
    requires m.Valid() && Mirrors(d, m.logins, m.byUid, m.nextSid, m.nextToken) && conn !in m.conns
    modifies m
    ensures m.Valid() && m.conns == old(m.conns) + {conn}
    ensures Mirrors(After(d, SignIn(uid), conn, m.grace), m.logins, m.byUid, m.nextSid, m.nextToken)
  {
    hide Mirrors, After, Agree, Told;
    ghost var l, b, ns, nt := m.logins, m.byUid, m.nextSid, m.nextToken;
    assert forall x | x in l :: x < ns;
    var sid, token := m.Create(uid, conn);
    MirrorSignIn(d, l, b, ns, nt, uid, conn, m.logins, m.grace);
  }

  lemma MirrorHangUp(d: Desk, logins: map<Sid, Login>, byUid: map<Uid, Sid>, nextSid: Sid, nextToken: Token, sid: Sid, c: ConnId, at: int,
                     conn: ConnId, grace: int)
    requires Mirrors(d, logins, byUid, nextSid, nextToken) && at != 0
    ensures var ended := sid in logins && logins[sid].conn == Some(c);
            var logins' := if ended then logins[sid := WithoutConn(logins[sid], at)] else logins;
            Mirrors(After(d, HangUp(sid, c, at), conn, grace), logins', byUid, nextSid, nextToken)
  {
  }

  method HangsUp(m: Manager, ghost d: Desk, sid: Sid, c: ConnId, at: int, ghost conn: ConnId)
    requires m.Valid() && Mirrors(d, m.logins, m.byUid, m.nextSid, m.nextToken) && at != 0
    modifies m
    ensures m.Valid() && m.conns == old(m.conns)
    ensures Mirrors(After(d, HangUp(sid, c, at), conn, m.grace), m.logins, m.byUid, m.nextSid, m.nextToken)
  {
    hide Mirrors, After, Consistent, WithoutConn;
    MirrorHangUp(d, m.logins, m.byUid, m.nextSid, m.nextToken, sid, c, at, conn, m.grace);
    if sid in m.logins {
      var ok := m.MarkOfflineConn(sid, c, at);
    }
  }

  lemma MirrorReturn(d: Desk, logins: map<Sid, Login>, byUid: map<Uid, Sid>, byToken: map<Token, Sid>, byConn: map<ConnId, Sid>,
                     nextSid: Sid, nextToken: Token, token: Token, conn: ConnId, grace: int)
    requires Mirrors(d, logins, byUid, nextSid, nextToken) && Agree(logins, byUid, byToken, byConn)
    ensures token !in byToken ==> After(d, Return(token), conn, grace) == d
    ensures token in byToken && byToken[token] in logins ==>
              var sid := byToken[token];
              var logins' := logins[sid := logins[sid].(token := nextToken, conn := Some(conn), status := Online, offlineAt := 0)];
              Mirrors(After(d, Return(token), conn, grace), logins', byUid, nextSid, nextToken + 1)
  {
  }

  method Returns(m: Manager, ghost d: Desk, token: Token, conn: ConnId)
    requires m.Valid() && Mirrors(d, m.logins, m.byUid, m.nextSid, m.nextToken) && conn !in m.conns
    modifies m
    ensures m.Valid() && m.conns <= old(m.conns) + {conn}
    ensures Mirrors(After(d, Return(token), conn, m.grace), m.logins, m.byUid, m.nextSid, m.nextToken)
  {
    hide Mirrors, After, Agree, Minted, Told;
    MirrorReturn(d, m.logins, m.byUid, m.byToken, m.byConn, m.nextSid, m.nextToken, token, conn, m.grace);
    var r := m.Reconnect(token, conn);
  }

  lemma MirrorClean(d: Desk, logins: map<Sid, Login>, byUid: map<Uid, Sid>, nextSid: Sid, nextToken: Token, now: int,
                    byUid': map<Uid, Sid>, conn: ConnId, grace: int)
    requires Mirrors(d, logins, byUid, nextSid, nextToken)
    requires forall u :: u in byUid' <==> u in byUid && !Lapsed(logins, byUid[u], grace, now)
    requires forall u | u in byUid' :: byUid'[u] == byUid[u]
    ensures Mirrors(After(d, Clean(now), conn, grace), MarkAll(logins, LapsedSids(logins, byUid, grace, now)), byUid', nextSid, nextToken)
  {
    var d' := After(d, Clean(now), conn, grace);
    assert d'.seats.Keys == byUid'.Keys;
    assert forall u, v | u in byUid && v in byUid && byUid[u] == byUid[v] :: u == v;
  }

  method Cleans(m: Manager, ghost d: Desk, now: int, ghost conn: ConnId)
    requires m.Valid() && Mirrors(d, m.logins, m.byUid, m.nextSid, m.nextToken)
    modifies m
    ensures m.Valid() && m.conns == old(m.conns)
    ensures Mirrors(After(d, Clean(now), conn, m.grace), m.logins, m.byUid, m.nextSid, m.nextToken)
  {
    hide Mirrors, After, Consistent, Lapsed, MarkAll, LapsedSids, Sids;
    ghost var l, b := m.logins, m.byUid;
    var n := m.Sweep(now);
    MirrorClean(d, l, b, m.nextSid, m.nextToken, now, m.byUid, conn, m.grace);
  }

  /** The manager serves any list of requests, each on a connection of its own, as the account says. */
  method Serve(grace: int, rs: seq<Request>) returns (m: Manager)
    requires forall r | r in rs && r.HangUp? :: r.at != 0
    ensures fresh(m) && m.Valid() && m.grace == grace
    ensures Mirrors(AfterAll(Desk(map[], 0, 0), rs, 0, grace), m.logins, m.byUid, m.nextSid, m.nextToken)
  {
    hide Mirrors, After, Consistent;
    m := new Manager(grace);
    NobodyYet(m.logins);
    ghost var d := Desk(map[], 0, 0);
    var i := 0;
    while i < |rs|
      invariant 0 <= i <= |rs| && fresh(m) && m.Valid() && m.grace == grace && forall c | c in m.conns :: c < i
      invariant Mirrors(d, m.logins, m.byUid, m.nextSid, m.nextToken)
      invariant AfterAll(Desk(map[], 0, 0), rs, 0, grace) == AfterAll(d, rs[i..], i, grace)
    {
      assert rs[i] in rs && rs[i..][1..] == rs[i + 1..];
      match rs[i] {
        case SignIn(uid) => SignsIn(m, d, uid, i);
        case HangUp(sid, c, at) => HangsUp(m, d, sid, c, at, i);
        case Return(token) => Returns(m, d, token, i);
        case Clean(now) => Cleans(m, d, now, i);
      }
      d := After(d, rs[i], i, grace);
      i := i + 1;
    }
    assert rs[|rs|..] == [];
  }

  lemma NobodyYet(logins: map<Sid, Login>)
    ensures Mirrors(Desk(map[], 0, 0), logins, map[], 0, 0)
  {
  }

  /** In a single login: gone after the sweep exactly when the grace period had run out. */
  method GraceIsExact(grace: int, uid: Uid, at: int, now: int) returns (m: Manager)
    requires at != 0
    ensures fresh(m) && m.Valid() && (uid in m.byUid <==> now - at < grace)
  {
    hide After, Handed;
    var rs := [SignIn(uid), HangUp(0, 0, at), Clean(now)];
    m := Serve(grace, rs);
    ghost var d := AwayAfter(uid, at, grace);
    assert rs[1..] == [HangUp(0, 0, at), Clean(now)] && rs[1..][1..] == [Clean(now)];
    SweptIff(d, [Clean(now)], 2, grace, uid, at);
    assert Clean(now) in [Clean(now)];
  }

  lemma AwayAfter(uid: Uid, at: int, grace: int) returns (d: Desk)
    ensures d == After(After(Desk(map[], 0, 0), SignIn(uid), 0, grace), HangUp(0, 0, at), 1, grace)
    ensures Handed(d) && d.seats == map[uid := Seat(0, 0, Away(at))]
  {
    d := After(After(Desk(map[], 0, 0), SignIn(uid), 0, grace), HangUp(0, 0, at), 1, grace);
  }
}

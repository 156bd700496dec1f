/**
 The token index under every interleaving: what it holds once no call is in progress.
 */
module SessionTokens {
  import opened Common
  import opened Sessions
  import opened SessionProofs

  /** A reconnection that has redeemed `token` for `newToken`, which it has yet to index. */
  predicate Pending(t: Thread) {
    t.Bind? || t.Reindex?
  }

  /** A token handed out is indexed, if at all, for the session it belongs to, or belonged to until a redemption in progress. */
  ghost predicate Owners(sessions: map<Sid, Session>, byToken: map<Token, Sid>, threads: seq<Thread>) {
    forall t | t in byToken ::
      && byToken[t] in sessions
      && (sessions[byToken[t]].token == t || MovingFrom(threads, byToken[t], t))
  }

  ghost predicate MovingFrom(threads: seq<Thread>, sid: Sid, token: Token) {
    exists i | 0 <= i < |threads| :: Pending(threads[i]) && threads[i].sid == sid && threads[i].token == token
  }

  ghost predicate MovingOf(threads: seq<Thread>, sid: Sid) {
    exists i | 0 <= i < |threads| :: Pending(threads[i]) && threads[i].sid == sid
  }

  /** A redemption in progress: its session has the new token, which nobody else can know yet. */
  ghost predicate InProgress(t: Thread, sessions: map<Sid, Session>, byToken: map<Token, Sid>, redeemed: seq<Token>, nextToken: Token) {
    && (Pending(t) ==>
          && t.sid in sessions && sessions[t.sid].token == t.newToken && t.newToken !in byToken
          && t.token in redeemed && t.newToken < nextToken)
    && (t.Rotate? ==> t.token < nextToken && t.sid in sessions)
  }

  ghost predicate Redemptions(threads: seq<Thread>, sessions: map<Sid, Session>, byToken: map<Token, Sid>, redeemed: seq<Token>, nextToken: Token) {
    && (forall t | t in byToken :: t < nextToken)
    && (forall i | 0 <= i < |threads| :: InProgress(threads[i], sessions, byToken, redeemed, nextToken))
    && (forall i, j | 0 <= i < |threads| && 0 <= j < |threads| && i != j :: Different(threads[i], threads[j]))
  }

  /** Two redemptions are of different sessions, and no reconnection holds a token that is not indexed yet. */
  ghost predicate Different(a: Thread, b: Thread) {
    && (Pending(a) && Pending(b) ==> a.sid != b.sid)
    && (a.Rotate? && Pending(b) ==> a.token != b.newToken)
    && (b.Rotate? && Pending(a) ==> b.token != a.newToken)
  }

  /** A registered session can be found by its token, or a redemption in progress will see to that. */
  ghost predicate Reachable(sessions: map<Sid, Session>, byUid: map<Uid, Sid>, byToken: map<Token, Sid>, threads: seq<Thread>) {
    forall u | u in byUid ::
      && byUid[u] in sessions
      && ((sessions[byUid[u]].token in byToken && byToken[sessions[byUid[u]].token] == byUid[u]) || MovingOf(threads, byUid[u]))
  }

  ghost predicate IndexInv(s: State) {
    && Owners(s.sessions, s.byToken, s.threads)
    && Redemptions(s.threads, s.sessions, s.byToken, s.redeemed, s.nextToken)
    && Reachable(s.sessions, s.byUid, s.byToken, s.threads)
  }

  // ---- Threads one by one ----

  lemma MovingStays(threads: seq<Thread>, i: nat, t: Thread, sid: Sid, token: Token)
    requires i < |threads| && MovingFrom(threads, sid, token)
    requires Pending(threads[i]) ==> Pending(t) && t.sid == threads[i].sid && t.token == threads[i].token
    ensures MovingFrom(threads[i := t], sid, token) && MovingOf(threads[i := t], sid)
  {
    var j :| 0 <= j < |threads| && Pending(threads[j]) && threads[j].sid == sid && threads[j].token == token;
    assert Pending(threads[i := t][j]) && threads[i := t][j].sid == sid && threads[i := t][j].token == token;
  }

  lemma MovingOfStays(threads: seq<Thread>, i: nat, t: Thread, sid: Sid)
    requires i < |threads| && MovingOf(threads, sid)
    requires Pending(threads[i]) ==> Pending(t) && t.sid == threads[i].sid
    ensures MovingOf(threads[i := t], sid)
  {
    var j :| 0 <= j < |threads| && Pending(threads[j]) && threads[j].sid == sid;
    assert Pending(threads[i := t][j]) && threads[i := t][j].sid == sid;
  }

  lemma OneMoreThread(threads: seq<Thread>, t: Thread)
    ensures forall sid, token | MovingFrom(threads, sid, token) :: MovingFrom(threads + [t], sid, token)
    ensures forall sid | MovingOf(threads, sid) :: MovingOf(threads + [t], sid)
  {
    forall sid, token | MovingFrom(threads, sid, token) ensures MovingFrom(threads + [t], sid, token) {
      var j :| 0 <= j < |threads| && Pending(threads[j]) && threads[j].sid == sid && threads[j].token == token;
      assert Pending((threads + [t])[j]);
    }
    forall sid | MovingOf(threads, sid) ensures MovingOf(threads + [t], sid) {
      var j :| 0 <= j < |threads| && Pending(threads[j]) && threads[j].sid == sid;
      assert Pending((threads + [t])[j]);
    }
  }

  /** A step that is no redemption leaves all redemptions where they are. */
  lemma OthersStay(threads: seq<Thread>, i: nat, t: Thread)
    requires i < |threads| && !Pending(threads[i])
    ensures forall sid, token | MovingFrom(threads, sid, token) :: MovingFrom(threads[i := t], sid, token)
    ensures forall sid | MovingOf(threads, sid) :: MovingOf(threads[i := t], sid)
  {
    forall sid, token | MovingFrom(threads, sid, token) ensures MovingFrom(threads[i := t], sid, token) {
      MovingStays(threads, i, t, sid, token);
    }
    forall sid | MovingOf(threads, sid) ensures MovingOf(threads[i := t], sid) {
      MovingOfStays(threads, i, t, sid);
    }
  }

  // ---- Sections ----

  lemma CreateKeepsIndex(s: State, uid: Uid)
    requires IndexInv(s) && TokenInv(s)
    ensures IndexInv(Next(s, StartCreate(uid)))
  {
    hide TokenInv, Owners, Redemptions, Reachable;
    var s' := Next(s, StartCreate(uid));
    CreateKeepsRedemptions(s, uid);
    assert Owners(s'.sessions, s'.byToken, s'.threads) && Reachable(s'.sessions, s'.byUid, s'.byToken, s'.threads) by {
      CreateKeepsOwners(s, uid);
    }
  }

  lemma CreateKeepsRedemptions(s: State, uid: Uid)
    requires IndexInv(s) && TokenInv(s)
    ensures var s' := Next(s, StartCreate(uid)); Redemptions(s'.threads, s'.sessions, s'.byToken, s'.redeemed, s'.nextToken)
  {
    hide MovingFrom, MovingOf, Redeemable;
    TokenFacts(s);
  }

  lemma CreateKeepsOwners(s: State, uid: Uid)
    requires IndexInv(s) && TokenInv(s)
    ensures var s' := Next(s, StartCreate(uid));
            Owners(s'.sessions, s'.byToken, s'.threads) && Reachable(s'.sessions, s'.byUid, s'.byToken, s'.threads)
  {
    hide MovingFrom, MovingOf, Redeemable, InProgress, Different;
    var prior := if uid in s.byUid then Some(s.byUid[uid]) else None;
    OneMoreThread(s.threads, CreateCount(prior));
    TokenFacts(s);
  }

  lemma TokenFacts(s: State)
    requires TokenInv(s)
    ensures s.nextSid !in s.sessions
    ensures forall sid | sid in s.sessions :: s.sessions[sid].token < s.nextToken && s.sessions[sid].token !in s.redeemed
    ensures forall a, b | a in s.sessions && b in s.sessions && a != b :: s.sessions[a].token != s.sessions[b].token
    ensures forall t | t in s.redeemed :: t < s.nextToken
  {
  }

  lemma SweepBegins(s: State, cs: seq<Sid>)
    requires IndexInv(s) && Enabled(s, StartSweep(cs))
    ensures IndexInv(Next(s, StartSweep(cs)))
  {
    hide MovingFrom, MovingOf;
    OneMoreThread(s.threads, SweepNext(cs));
  }

  lemma ReconnectBegins(s: State, token: Token)
    requires IndexInv(s)
    ensures IndexInv(Next(s, StartReconnect(token)))
  {
    hide MovingFrom, MovingOf;
    if token in s.byToken {
      OneMoreThread(s.threads, Rotate(s.byToken[token], token));
    }
  }

  lemma DisconnectKeepsIndex(s: State, sid: Sid)
    requires IndexInv(s) && sid in s.sessions
    ensures IndexInv(Next(s, Disconnect(sid)))
  {
    hide MovingFrom, MovingOf;
  }

  /** Sections that touch neither tokens nor the uid index. */
  lemma QuietSection(s: State, i: nat)
    requires IndexInv(s) && i < |s.threads| && StepEnabled(s, s.threads[i])
    requires var t := s.threads[i]; t.CreateCount? || t.MarkReleased? || t.Uncount?
    ensures IndexInv(StepThread(s, i))
  {
    hide MovingFrom, MovingOf, ReleaseCount;
    OthersStay(s.threads, i, Continue(s, s.threads[i]));
  }

  lemma KickKeepsIndex(s: State, i: nat)
    requires IndexInv(s) && TokenInv(s) && i < |s.threads| && StepEnabled(s, s.threads[i]) && s.threads[i].KickIndexes?
    requires forall u | u in s.byUid :: s.byUid[u] != s.threads[i].sid
    ensures IndexInv(StepThread(s, i))
  {
    hide MovingFrom, MovingOf, Redeemable;
    OthersStay(s.threads, i, Continue(s, s.threads[i]));
    TokenFacts(s);
  }

  lemma SweepKeepsIndex(s: State, i: nat)
    requires IndexInv(s) && TokenInv(s) && i < |s.threads| && StepEnabled(s, s.threads[i]) && s.threads[i].SweepNext?
    requires forall u | u in s.byUid :: s.byUid[u] in s.sessions && s.sessions[s.byUid[u]].uid == u
    ensures IndexInv(StepThread(s, i))
  {
    hide MovingFrom, MovingOf, Redeemable;
    OthersStay(s.threads, i, Continue(s, s.threads[i]));
    TokenFacts(s);
  }

  lemma RotateKeepsIndex(s: State, i: nat)
    requires IndexInv(s) && TokenInv(s) && i < |s.threads| && StepEnabled(s, s.threads[i]) && s.threads[i].Rotate?
    ensures IndexInv(StepThread(s, i))
  {
    hide MovingFrom, MovingOf, Redeemable;
    var t, t' := s.threads[i], Continue(s, s.threads[i]);
    OthersStay(s.threads, i, t');
    TokenFacts(s);
    if s.sessions[t.sid].token == t.token {
      NowMoving(s.threads, i, t');
      forall j | 0 <= j < |s.threads| && j != i && Pending(s.threads[j]) ensures s.threads[j].sid != t.sid {
        assert Different(s.threads[i], s.threads[j]) && InProgress(s.threads[j], s.sessions, s.byToken, s.redeemed, s.nextToken);
      }
    }
  }

  lemma NowMoving(threads: seq<Thread>, i: nat, t: Thread)
    requires i < |threads| && Pending(t)
    ensures MovingFrom(threads[i := t], t.sid, t.token) && MovingOf(threads[i := t], t.sid)
  {
    assert Pending(threads[i := t][i]);
  }

  lemma BindKeepsIndex(s: State, i: nat)
    requires IndexInv(s) && i < |s.threads| && StepEnabled(s, s.threads[i]) && s.threads[i].Bind?
    ensures IndexInv(StepThread(s, i))
  {
    hide MovingFrom, MovingOf;
    var t' := Continue(s, s.threads[i]);
    forall sid, token | MovingFrom(s.threads, sid, token) ensures MovingFrom(s.threads[i := t'], sid, token) {
      MovingStays(s.threads, i, t', sid, token);
    }
    forall sid | MovingOf(s.threads, sid) ensures MovingOf(s.threads[i := t'], sid) {
      MovingOfStays(s.threads, i, t', sid);
    }
  }

  lemma ReindexKeepsIndex(s: State, i: nat)
    requires IndexInv(s) && TokenInv(s) && i < |s.threads| && StepEnabled(s, s.threads[i]) && s.threads[i].Reindex?
    ensures IndexInv(StepThread(s, i))
  {
    hide MovingFrom, MovingOf, Redeemable;
    TokenFacts(s);
    var t := s.threads[i];
    assert InProgress(t, s.sessions, s.byToken, s.redeemed, s.nextToken);
    forall sid, token | MovingFrom(s.threads, sid, token) && !(sid == t.sid && token == t.token)
      ensures MovingFrom(s.threads[i := Done], sid, token)
    {
      StillMoving(s.threads, i, sid, token);
    }
    forall sid | MovingOf(s.threads, sid) && sid != t.sid ensures MovingOf(s.threads[i := Done], sid) {
      StillMovingOf(s.threads, i, sid);
    }
  }

  lemma StillMoving(threads: seq<Thread>, i: nat, sid: Sid, token: Token)
    requires i < |threads| && MovingFrom(threads, sid, token) && Pending(threads[i])
    requires !(threads[i].sid == sid && threads[i].token == token)
    ensures MovingFrom(threads[i := Done], sid, token)
  {
    var j :| 0 <= j < |threads| && Pending(threads[j]) && threads[j].sid == sid && threads[j].token == token;
    assert Pending(threads[i := Done][j]);
  }

  lemma StillMovingOf(threads: seq<Thread>, i: nat, sid: Sid)
    requires i < |threads| && MovingOf(threads, sid) && Pending(threads[i]) && threads[i].sid != sid
    ensures MovingOf(threads[i := Done], sid)
  {
    var j :| 0 <= j < |threads| && Pending(threads[j]) && threads[j].sid == sid;
    assert Pending(threads[i := Done][j]);
  }

  // ---- Every run ----

  lemma StepKeepsIndex(s: State, e: Event)
    requires IndexInv(s) && TokenInv(s) && ReleaseInv(s) && Enabled(s, e)
    ensures IndexInv(Next(s, e))
  {
    hide IndexInv, TokenInv, ReleaseInv, StepThread, StepEnabled;
    match e
    case StartCreate(uid) => CreateKeepsIndex(s, uid);
    case StartSweep(cs) => SweepBegins(s, cs);
    case StartReconnect(token) => ReconnectBegins(s, token);
    case Disconnect(sid) => DisconnectKeepsIndex(s, sid);
    case Step(i) => SectionKeepsIndex(s, i);
  }

  lemma SectionKeepsIndex(s: State, i: nat)
    requires IndexInv(s) && TokenInv(s) && ReleaseInv(s) && i < |s.threads| && StepEnabled(s, s.threads[i])
    ensures IndexInv(StepThread(s, i))
  {
    hide IndexInv, TokenInv, ReleaseInv, StepThread;
    RegisteredFacts(s, i);
    match s.threads[i]
    case KickIndexes(_) => KickKeepsIndex(s, i);
    case SweepNext(_) => SweepKeepsIndex(s, i);
    case Rotate(_, _) => RotateKeepsIndex(s, i);
    case Bind(_, _, _) => BindKeepsIndex(s, i);
    case Reindex(_, _, _) => ReindexKeepsIndex(s, i);
    case CreateCount(_) => QuietSection(s, i);
    case MarkReleased(_, _) => QuietSection(s, i);
    case Uncount(_, _) => QuietSection(s, i);
    case Done =>
  }

  lemma RegisteredFacts(s: State, i: nat)
    requires ReleaseInv(s) && i < |s.threads|
    ensures forall u | u in s.byUid :: s.byUid[u] in s.sessions && s.sessions[s.byUid[u]].uid == u
    ensures s.threads[i].KickIndexes? ==> forall u | u in s.byUid :: s.byUid[u] != s.threads[i].sid
  {
  }

  lemma {:induction false} RunKeepsIndex(s: State, events: seq<Event>)
    requires IndexInv(s) && ReleaseInv(s) && TokenInv(s) && CanRun(s, events)
    ensures IndexInv(Final(s, events))
    decreases |events|
  {
    hide IndexInv, ReleaseInv, TokenInv, Next, Enabled;
    if events != [] {
      StepKeepsIndex(s, events[0]);
      StepKeepsReleases(s, events[0]);
      StepKeepsTokens(s, events[0]);
      RunKeepsIndex(Next(s, events[0]), events[1..]);
    }
  }

  ghost predicate Quiet(s: State) {
    forall i | 0 <= i < |s.threads| :: s.threads[i] == Done
  }

  /**
   Under every interleaving, once no call is in progress: every registered session can be found
   by its current token, and no token that has been redeemed finds anything.
   */
  lemma TokenIndexWhenQuiet(events: seq<Event>)
    requires CanRun(Init(), events) && Quiet(Final(Init(), events))
    ensures var s := Final(Init(), events);
            && (forall u | u in s.byUid ::
                  s.byUid[u] in s.sessions && s.sessions[s.byUid[u]].token in s.byToken && s.byToken[s.sessions[s.byUid[u]].token] == s.byUid[u])
            && (forall t | t in s.byToken :: s.byToken[t] in s.sessions && s.sessions[s.byToken[t]].token == t && t !in s.redeemed)
  {
    hide Final, CanRun;
    InitHolds();
    assert IndexInv(Init());
    RunKeepsIndex(Init(), events);
    RunKeepsInv(Init(), events);
    TokenFacts(Final(Init(), events));
  }

  // ---- Without reconnections the index is exact ----

  /** Every indexed token is a registered session's, or its session's login is about to be dropped. */
  ghost predicate Kept(byUid: map<Uid, Sid>, byToken: map<Token, Sid>, sessions: map<Sid, Session>, threads: seq<Thread>) {
    forall t | t in byToken ::
      && byToken[t] in sessions && sessions[byToken[t]].token == t
      && (Slot(byUid, sessions, byToken[t]) || Dropping(threads, byToken[t]))
  }

  ghost predicate Slot(byUid: map<Uid, Sid>, sessions: map<Sid, Session>, sid: Sid)
    requires sid in sessions
  {
    sessions[sid].uid in byUid && byUid[sessions[sid].uid] == sid
  }

  predicate Drops(t: Thread, sid: Sid) {
    t == CreateCount(Some(sid)) || t == KickIndexes(sid)
  }

  ghost predicate Dropping(threads: seq<Thread>, sid: Sid) {
    exists i | 0 <= i < |threads| :: Drops(threads[i], sid)
  }

  ghost predicate NoRedemption(threads: seq<Thread>) {
    forall i | 0 <= i < |threads| :: !Pending(threads[i]) && !threads[i].Rotate?
  }

  lemma DroppingStays(threads: seq<Thread>, i: nat, t: Thread, sid: Sid)
    requires i < |threads| && Dropping(threads, sid) && (Drops(threads[i], sid) ==> Drops(t, sid))
    ensures Dropping(threads[i := t], sid)
  {
    var j :| 0 <= j < |threads| && Drops(threads[j], sid);
    assert Drops(threads[i := t][j], sid);
  }

  lemma DroppingMore(threads: seq<Thread>, t: Thread)
    ensures forall sid | Dropping(threads, sid) :: Dropping(threads + [t], sid)
    ensures forall sid | Drops(t, sid) :: Dropping(threads + [t], sid)
  {
    forall sid | Dropping(threads, sid) ensures Dropping(threads + [t], sid) {
      var j :| 0 <= j < |threads| && Drops(threads[j], sid);
      assert Drops((threads + [t])[j], sid);
    }
    assert (threads + [t])[|threads|] == t;
  }

  lemma StartKeepsKept(s: State, e: Event)
    requires Kept(s.byUid, s.byToken, s.sessions, s.threads) && NoRedemption(s.threads) && TokenInv(s) && Enabled(s, e)
    requires e.StartCreate? || e.StartSweep? || e.Disconnect?
    ensures var s' := Next(s, e); Kept(s'.byUid, s'.byToken, s'.sessions, s'.threads) && NoRedemption(s'.threads)
  {
    hide Dropping, Redeemable;
    TokenFacts(s);
    if e.StartCreate? {
      DroppingMore(s.threads, CreateCount(if e.uid in s.byUid then Some(s.byUid[e.uid]) else None));
    } else if e.StartSweep? {
      DroppingMore(s.threads, SweepNext(e.candidates));
    }
  }

  lemma SectionKeepsKept(s: State, i: nat)
    requires Kept(s.byUid, s.byToken, s.sessions, s.threads) && NoRedemption(s.threads) && TokenInv(s)
    requires i < |s.threads| && StepEnabled(s, s.threads[i])
    ensures var s' := StepThread(s, i); Kept(s'.byUid, s'.byToken, s'.sessions, s'.threads) && NoRedemption(s'.threads)
  {
    hide Dropping, Redeemable, ReleaseCount;
    TokenFacts(s);
    var t, t' := s.threads[i], Continue(s, s.threads[i]);
    forall sid | Dropping(s.threads, sid) && !(t == KickIndexes(sid)) ensures Dropping(s.threads[i := t'], sid) {
      DroppingStays(s.threads, i, t', sid);
    }
  }

  lemma {:induction false} RunKeepsKept(s: State, events: seq<Event>)
    requires Kept(s.byUid, s.byToken, s.sessions, s.threads) && NoRedemption(s.threads) && TokenInv(s) && CanRun(s, events)
    requires forall e | e in events :: !e.StartReconnect?
    ensures var s' := Final(s, events); Kept(s'.byUid, s'.byToken, s'.sessions, s'.threads)
    decreases |events|
  {
    hide Kept, NoRedemption, TokenInv, Next, Enabled;
    if events != [] {
      assert events[0] in events;
      StepKeepsTokens(s, events[0]);
      StepKeepsKept(s, events[0]);
      RunKeepsKept(Next(s, events[0]), events[1..]);
    }
  }

  lemma StepKeepsKept(s: State, e: Event)
    requires Kept(s.byUid, s.byToken, s.sessions, s.threads) && NoRedemption(s.threads) && TokenInv(s) && Enabled(s, e) && !e.StartReconnect?
    ensures var s' := Next(s, e); Kept(s'.byUid, s'.byToken, s'.sessions, s'.threads) && NoRedemption(s'.threads)
  {
    hide Kept, NoRedemption, TokenInv, StepThread, StepEnabled;
    if e.Step? {
      SectionKeepsKept(s, e.i);
    } else {
      StartKeepsKept(s, e);
    }
  }

  /** Logins, sweeps and lost connections alone, in any interleaving, leave exactly the registered sessions' tokens indexed. */
  lemma IndexIsExactWithoutReconnects(events: seq<Event>, t: Token)
    requires CanRun(Init(), events) && Quiet(Final(Init(), events)) && forall e | e in events :: !e.StartReconnect?
    ensures var s := Final(Init(), events);
            t in s.byToken <==> exists u | u in s.byUid :: s.byUid[u] in s.sessions && s.sessions[s.byUid[u]].token == t
  {
    hide Final, CanRun;
    InitHolds();
    RunKeepsKept(Init(), events);
    TokenIndexWhenQuiet(events);
    var s := Final(Init(), events);
    if t in s.byToken {
      assert Slot(s.byUid, s.sessions, s.byToken[t]);
      assert s.sessions[s.byToken[t]].uid in s.byUid;
    }
  }
}

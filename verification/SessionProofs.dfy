/** What holds under every interleaving of the registry's lock sections. */
module SessionProofs {
  import opened Common
  import opened Sessions

  // ---- Released at most once ----

  /** The session a thread is committed to release: it took it out of `byUid` itself. */
  function Owned(t: Thread): Option<Sid> {
    match t
    case CreateCount(prior) => prior
    case KickIndexes(prior) => Some(prior)
    case MarkReleased(sid, _) => Some(sid)
    case _ => None
  }

  ghost predicate Listed(byUid: map<Uid, Sid>, sid: Sid) {
    exists u :: u in byUid && byUid[u] == sid
  }

  /** The index is keyed by the sessions' own uids, and no session is newer than `nextSid`. */
  ghost predicate Registered(byUid: map<Uid, Sid>, sessions: map<Sid, Session>, nextSid: Sid) {
    && (forall u | u in byUid :: byUid[u] in sessions && sessions[byUid[u]].uid == u)
    && (forall sid | sid in sessions :: sid < nextSid)
  }

  /** A session that left `byUid` and is not yet released. */
  ghost predicate Pending(byUid: map<Uid, Sid>, releases: map<Sid, nat>, nextSid: Sid, sid: Sid) {
    ReleaseCount(releases, sid) == 0 && sid < nextSid && !Listed(byUid, sid)
  }

  ghost predicate OwnersPending(threads: seq<Thread>, byUid: map<Uid, Sid>, releases: map<Sid, nat>, nextSid: Sid) {
    forall i | 0 <= i < |threads| && Owned(threads[i]).Some? :: Pending(byUid, releases, nextSid, Owned(threads[i]).value)
  }

  ghost predicate OwnersDiffer(threads: seq<Thread>) {
    forall i, j | 0 <= i < j < |threads| && Owned(threads[i]).Some? :: Owned(threads[i]) != Owned(threads[j])
  }

  ghost predicate Counted(byUid: map<Uid, Sid>, releases: map<Sid, nat>, nextSid: Sid) {
    && (forall sid | sid in releases :: sid < nextSid && releases[sid] <= 1)
    && (forall u | u in byUid :: byUid[u] < nextSid && ReleaseCount(releases, byUid[u]) == 0)
  }

  /** A session still to be released belongs to one thread, is out of `byUid`, and is not yet released. */
  ghost predicate Releases(threads: seq<Thread>, byUid: map<Uid, Sid>, releases: map<Sid, nat>, nextSid: Sid) {
    OwnersPending(threads, byUid, releases, nextSid) && OwnersDiffer(threads) && Counted(byUid, releases, nextSid)
  }

  ghost predicate ReleaseInv(s: State) {
    Registered(s.byUid, s.sessions, s.nextSid) && Releases(s.threads, s.byUid, s.releases, s.nextSid)
  }

  lemma StillDiffer(threads: seq<Thread>, i: nat, t: Thread)
    requires OwnersDiffer(threads) && i < |threads|
    requires Owned(t).Some? ==> forall j | 0 <= j < |threads| && j != i :: Owned(threads[j]) != Owned(t)
    ensures OwnersDiffer(threads[i := t])
  {
    var threads' := threads[i := t];
    forall j, k | 0 <= j < k < |threads'| && Owned(threads'[j]).Some? ensures Owned(threads'[j]) != Owned(threads'[k]) {
      assert threads'[j] == if j == i then t else threads[j];
      assert threads'[k] == if k == i then t else threads[k];
    }
  }

  lemma OwnerIsAlone(threads: seq<Thread>, i: nat)
    requires OwnersDiffer(threads) && i < |threads| && Owned(threads[i]).Some?
    ensures forall j | 0 <= j < |threads| && j != i :: Owned(threads[j]) != Owned(threads[i])
  {
    forall j | 0 <= j < |threads| && j != i ensures Owned(threads[j]) != Owned(threads[i]) {
      if j < i && Owned(threads[j]).Some? {
        assert Owned(threads[j]) != Owned(threads[i]);
      }
    }
  }

  lemma SameOwner(threads: seq<Thread>, byUid: map<Uid, Sid>, releases: map<Sid, nat>, nextSid: Sid, i: nat, t: Thread)
    requires Releases(threads, byUid, releases, nextSid) && i < |threads|
    requires Owned(t) == None || Owned(t) == Owned(threads[i])
    ensures Releases(threads[i := t], byUid, releases, nextSid)
  {
    hide Pending, Counted;
    if Owned(t).Some? {
      OwnerIsAlone(threads, i);
    }
    StillDiffer(threads, i, t);
  }

  lemma NewThread(threads: seq<Thread>, byUid: map<Uid, Sid>, releases: map<Sid, nat>, nextSid: Sid, t: Thread)
    requires Releases(threads, byUid, releases, nextSid)
    requires Owned(t).Some? ==> Pending(byUid, releases, nextSid, Owned(t).value)
    requires Owned(t).Some? ==> forall j | 0 <= j < |threads| :: Owned(threads[j]) != Owned(t)
    ensures Releases(threads + [t], byUid, releases, nextSid)
  {
    hide Pending, Counted;
  }

  /** Who is listed after a login has taken over the uid's slot. */
  lemma ListedAfterLogin(byUid: map<Uid, Sid>, sessions: map<Sid, Session>, nextSid: Sid, uid: Uid, sid: Sid)
    requires Registered(byUid, sessions, nextSid) && Listed(byUid[uid := nextSid], sid)
    ensures sid == nextSid || (Listed(byUid, sid) && !(uid in byUid && byUid[uid] == sid))
  {
    var byUid' := byUid[uid := nextSid];
    var u :| u in byUid' && byUid'[u] == sid;
    if u != uid {
      assert sessions[byUid[u]].uid == u;
    }
  }

  lemma SlotTakenOver(threads: seq<Thread>, byUid: map<Uid, Sid>, sessions: map<Sid, Session>, releases: map<Sid, nat>, nextSid: Sid, uid: Uid)
    requires Registered(byUid, sessions, nextSid) && Releases(threads, byUid, releases, nextSid)
    ensures Releases(threads, byUid[uid := nextSid], releases, nextSid + 1)
    ensures uid in byUid ==> Pending(byUid[uid := nextSid], releases, nextSid + 1, byUid[uid])
  {
    hide Listed;
    var byUid' := byUid[uid := nextSid];
    forall i | 0 <= i < |threads| && Owned(threads[i]).Some?
      ensures Pending(byUid', releases, nextSid + 1, Owned(threads[i]).value)
    {
      var sid := Owned(threads[i]).value;
      assert Pending(byUid, releases, nextSid, sid);
      if Listed(byUid', sid) {
        ListedAfterLogin(byUid, sessions, nextSid, uid, sid);
      }
    }
    if uid in byUid && Listed(byUid', byUid[uid]) {
      ListedAfterLogin(byUid, sessions, nextSid, uid, byUid[uid]);
    }
  }

  /** A registered session belongs to no thread. */
  lemma ListedIsUnowned(threads: seq<Thread>, byUid: map<Uid, Sid>, releases: map<Sid, nat>, nextSid: Sid, uid: Uid)
    requires OwnersPending(threads, byUid, releases, nextSid) && uid in byUid
    ensures forall j | 0 <= j < |threads| :: Owned(threads[j]) != Some(byUid[uid])
  {
    assert Listed(byUid, byUid[uid]);
  }

  /** A login takes over the uid's slot, and with it the duty to release the login it replaces. */
  lemma LoginTakesOver(threads: seq<Thread>, byUid: map<Uid, Sid>, sessions: map<Sid, Session>, releases: map<Sid, nat>, nextSid: Sid, uid: Uid)
    requires Registered(byUid, sessions, nextSid) && Releases(threads, byUid, releases, nextSid)
    ensures var prior := if uid in byUid then Some(byUid[uid]) else None;
            Releases(threads + [CreateCount(prior)], byUid[uid := nextSid], releases, nextSid + 1)
  {
    hide Pending, Counted, OwnersDiffer, OwnersPending;
    SlotTakenOver(threads, byUid, sessions, releases, nextSid, uid);
    if uid in byUid {
      ListedIsUnowned(threads, byUid, releases, nextSid, uid);
    }
    NewThread(threads, byUid[uid := nextSid], releases, nextSid + 1, CreateCount(if uid in byUid then Some(byUid[uid]) else None));
  }

  lemma ListedAfterSweep(byUid: map<Uid, Sid>, sessions: map<Sid, Session>, nextSid: Sid, uid: Uid, sid: Sid)
    requires Registered(byUid, sessions, nextSid) && uid in byUid && Listed(byUid - {uid}, sid)
    ensures Listed(byUid, sid) && sid != byUid[uid]
  {
    var u :| u in byUid - {uid} && byUid[u] == sid;
    assert sessions[byUid[u]].uid == u;
  }

  lemma SlotCleared(threads: seq<Thread>, byUid: map<Uid, Sid>, sessions: map<Sid, Session>, releases: map<Sid, nat>, nextSid: Sid, uid: Uid)
    requires Registered(byUid, sessions, nextSid) && Releases(threads, byUid, releases, nextSid) && uid in byUid
    ensures Releases(threads, byUid - {uid}, releases, nextSid) && Pending(byUid - {uid}, releases, nextSid, byUid[uid])
  {
    hide Listed;
    forall i | 0 <= i < |threads| && Owned(threads[i]).Some?
      ensures Pending(byUid - {uid}, releases, nextSid, Owned(threads[i]).value)
    {
      var sid := Owned(threads[i]).value;
      assert Pending(byUid, releases, nextSid, sid);
      if Listed(byUid - {uid}, sid) {
        ListedAfterSweep(byUid, sessions, nextSid, uid, sid);
      }
    }
    if Listed(byUid - {uid}, byUid[uid]) {
      ListedAfterSweep(byUid, sessions, nextSid, uid, byUid[uid]);
    }
  }

  /** A sweep takes the session out of the uid's slot, and with it the duty to release it. */
  lemma SweepTakesOut(threads: seq<Thread>, byUid: map<Uid, Sid>, sessions: map<Sid, Session>, releases: map<Sid, nat>, nextSid: Sid, i: nat, uid: Uid, rest: seq<Sid>)
    requires Registered(byUid, sessions, nextSid) && Releases(threads, byUid, releases, nextSid)
    requires i < |threads| && Owned(threads[i]) == None && uid in byUid
    ensures Releases(threads[i := MarkReleased(byUid[uid], rest)], byUid - {uid}, releases, nextSid)
  {
    hide Pending, Counted, OwnersDiffer;
    ListedIsUnowned(threads, byUid, releases, nextSid, uid);
    SlotCleared(threads, byUid, sessions, releases, nextSid, uid);
    StillDiffer(threads, i, MarkReleased(byUid[uid], rest));
  }

  lemma ReleaseOnce(threads: seq<Thread>, byUid: map<Uid, Sid>, releases: map<Sid, nat>, nextSid: Sid, i: nat, t: Thread)
    requires Releases(threads, byUid, releases, nextSid) && i < |threads| && threads[i].MarkReleased? && Owned(t) == None
    ensures var sid := threads[i].sid;
            Releases(threads[i := t], byUid, releases[sid := ReleaseCount(releases, sid) + 1], nextSid)
  {
    hide OwnersDiffer;
    var sid := threads[i].sid;
    assert Pending(byUid, releases, nextSid, Owned(threads[i]).value);
    OwnerIsAlone(threads, i);
    StillDiffer(threads, i, t);
    var releases', threads' := releases[sid := ReleaseCount(releases, sid) + 1], threads[i := t];
    forall j | 0 <= j < |threads'| && Owned(threads'[j]).Some? ensures Pending(byUid, releases', nextSid, Owned(threads'[j]).value) {
      assert threads'[j] == threads[j];
      assert Pending(byUid, releases, nextSid, Owned(threads[j]).value);
    }
    forall u | u in byUid ensures ReleaseCount(releases', byUid[u]) == 0 {
      assert Listed(byUid, byUid[u]);
    }
  }

  lemma StepKeepsReleases(s: State, e: Event)
    requires ReleaseInv(s) && Enabled(s, e)
    ensures ReleaseInv(Next(s, e))
  {
    hide Releases, ReleaseCount, StepThread, StepEnabled, Pending;
    match e
    case StartCreate(uid) => LoginTakesOver(s.threads, s.byUid, s.sessions, s.releases, s.nextSid, uid);
    case StartSweep(cs) => NewThread(s.threads, s.byUid, s.releases, s.nextSid, SweepNext(cs));
    case StartReconnect(token) =>
      if token in s.byToken {
        NewThread(s.threads, s.byUid, s.releases, s.nextSid, Rotate(s.byToken[token], token));
      }
    case Disconnect(_) =>
    case Step(i) => ThreadKeepsReleases(s, i);
  }

  lemma ThreadKeepsReleases(s: State, i: nat)
    requires ReleaseInv(s) && Enabled(s, Step(i))
    ensures ReleaseInv(StepThread(s, i))
  {
    hide Releases, ReleaseCount;
    var s' := StepThread(s, i);
    match s.threads[i]
    case Done =>
    case MarkReleased(sid, rest) =>
      ReleaseOnce(s.threads, s.byUid, s.releases, s.nextSid, i, Uncount(sid, rest));
    case SweepNext(rest) =>
      if rest != [] && s'.threads[i].MarkReleased? {
        SweepTakesOut(s.threads, s.byUid, s.sessions, s.releases, s.nextSid, i, s.sessions[rest[0]].uid, rest[1..]);
      } else {
        SameOwner(s.threads, s.byUid, s.releases, s.nextSid, i, s'.threads[i]);
      }
    case CreateCount(_) | KickIndexes(_) | Uncount(_, _) | Rotate(_, _) | Bind(_, _, _) | Reindex(_, _, _) =>
      SameOwner(s.threads, s.byUid, s.releases, s.nextSid, i, s'.threads[i]);
  }

  // ---- The gauge of online sessions ----

  /** What a thread still owes the gauge: a decrement counts 1, an increment counts -1. */
  function Owes(t: Thread): int {
    match t
    case CreateCount(prior) => if prior.Some? then 0 else -1
    case KickIndexes(_) => 1
    case MarkReleased(_, _) => 1
    case Uncount(_, _) => 1
    case _ => 0
  }

  function TotalOwed(threads: seq<Thread>): int {
    if threads == [] then 0 else Owes(threads[0]) + TotalOwed(threads[1..])
  }

  lemma {:induction false} OwedAfterUpdate(threads: seq<Thread>, i: nat, t: Thread)
    requires i < |threads|
    ensures TotalOwed(threads[i := t]) == TotalOwed(threads) - Owes(threads[i]) + Owes(t)
  {
    if i == 0 {
      assert threads[i := t][1..] == threads[1..];
    } else {
      assert threads[i := t][1..] == threads[1..][i - 1 := t];
      OwedAfterUpdate(threads[1..], i - 1, t);
    }
  }

  lemma {:induction false} OwedAfterStart(threads: seq<Thread>, t: Thread)
    ensures TotalOwed(threads + [t]) == TotalOwed(threads) + Owes(t)
  {
    if threads == [] {
      assert threads + [t] == [t];
    } else {
      assert (threads + [t])[1..] == threads[1..] + [t];
      OwedAfterStart(threads[1..], t);
    }
  }

  ghost predicate GaugeInv(s: State) {
    s.gauge == |s.byUid| + TotalOwed(s.threads)
  }

  lemma StepKeepsGauge(s: State, e: Event)
    requires GaugeInv(s) && Enabled(s, e)
    ensures GaugeInv(Next(s, e))
  {
    hide TotalOwed, StepThread, StepEnabled;
    match e
    case StartCreate(uid) =>
      OwedAfterStart(s.threads, CreateCount(if uid in s.byUid then Some(s.byUid[uid]) else None));
      KeysAfterInsert(s.byUid, uid, s.nextSid);
    case StartSweep(cs) => OwedAfterStart(s.threads, SweepNext(cs));
    case StartReconnect(token) =>
      if token in s.byToken {
        OwedAfterStart(s.threads, Rotate(s.byToken[token], token));
      }
    case Disconnect(_) =>
    case Step(i) => ThreadKeepsGauge(s, i);
  }

  lemma KeysAfterInsert(m: map<Uid, Sid>, u: Uid, v: Sid)
    ensures |m[u := v]| == |m| + if u in m then 0 else 1
    ensures u in m ==> |m - {u}| == |m| - 1
  {
    assert m[u := v].Keys == m.Keys + {u};
    assert (m - {u}).Keys == m.Keys - {u};
  }

  lemma ThreadKeepsGauge(s: State, i: nat)
    requires GaugeInv(s) && Enabled(s, Step(i))
    ensures GaugeInv(StepThread(s, i))
  {
    hide TotalOwed, Owes, Effect, Continue;
    OwedAfterUpdate(s.threads, i, Continue(s, s.threads[i]));
    SectionPays(s, s.threads[i]);
  }

  lemma SectionPays(s: State, t: Thread)
    requires StepEnabled(s, t)
    ensures var s' := Effect(s, t);
            s'.gauge - |s'.byUid| - Owes(Continue(s, t)) == s.gauge - |s.byUid| - Owes(t)
  {
    hide ReleaseCount;
    if t.SweepNext? && t.rest != [] {
      KeysAfterInsert(s.byUid, s.sessions[t.rest[0]].uid, 0);
    }
  }

  // ---- Tokens are redeemed once ----

  ghost predicate Redeemable(sessions: map<Sid, Session>, redeemed: seq<Token>, nextToken: Token) {
    && (forall sid | sid in sessions :: sessions[sid].token < nextToken && sessions[sid].token !in redeemed)
    && (forall a, b | a in sessions && b in sessions && a != b :: sessions[a].token != sessions[b].token)
    && (forall t | t in redeemed :: t < nextToken)
    && NoRepeats(redeemed)
  }

  ghost predicate TokenInv(s: State) {
    && Redeemable(s.sessions, s.redeemed, s.nextToken)
    && forall sid | sid in s.sessions :: sid < s.nextSid
  }

  lemma NewSessionToken(sessions: map<Sid, Session>, redeemed: seq<Token>, nextToken: Token, sid: Sid, session: Session)
    requires Redeemable(sessions, redeemed, nextToken) && session.token == nextToken && sid !in sessions
    ensures Redeemable(sessions[sid := session], redeemed, nextToken + 1)
  {
  }

  lemma SameTokens(sessions: map<Sid, Session>, redeemed: seq<Token>, nextToken: Token, sid: Sid, session: Session)
    requires Redeemable(sessions, redeemed, nextToken) && sid in sessions && session.token == sessions[sid].token
    ensures Redeemable(sessions[sid := session], redeemed, nextToken)
  {
  }

  /** Redeeming replaces the session's token by one never seen before. */
  lemma RedeemedOnce(sessions: map<Sid, Session>, redeemed: seq<Token>, nextToken: Token, sid: Sid, session: Session)
    requires Redeemable(sessions, redeemed, nextToken) && sid in sessions && session.token == nextToken
    ensures Redeemable(sessions[sid := session], redeemed + [sessions[sid].token], nextToken + 1)
  {
  }

  lemma StepKeepsTokens(s: State, e: Event)
    requires TokenInv(s) && Enabled(s, e)
    ensures TokenInv(Next(s, e))
  {
    hide Redeemable, StepEnabled, StepThread;
    match e
    case StartCreate(uid) =>
      NewSessionToken(s.sessions, s.redeemed, s.nextToken, s.nextSid, Session(uid, s.nextToken, Online));
    case Disconnect(sid) =>
      SameTokens(s.sessions, s.redeemed, s.nextToken, sid, s.sessions[sid].(status := Offline));
    case Step(i) => ThreadKeepsTokens(s, i);
    case _ =>
  }

  lemma ThreadKeepsTokens(s: State, i: nat)
    requires TokenInv(s) && Enabled(s, Step(i))
    ensures TokenInv(StepThread(s, i))
  {
    hide Redeemable, ReleaseCount, Continue;
    match s.threads[i]
    case MarkReleased(sid, _) =>
      SameTokens(s.sessions, s.redeemed, s.nextToken, sid, s.sessions[sid].(status := Released));
    case Rotate(sid, token) =>
      RedeemedOnce(s.sessions, s.redeemed, s.nextToken, sid, s.sessions[sid].(token := s.nextToken));
    case Bind(sid, _, _) =>
      SameTokens(s.sessions, s.redeemed, s.nextToken, sid, s.sessions[sid].(status := Online));
    case _ =>
  }

  // ---- A session marked released was released ----

  ghost predicate MarkedInv(s: State) {
    forall sid | sid in s.sessions && s.sessions[sid].status == Released :: ReleaseCount(s.releases, sid) >= 1
  }

  lemma SectionKeepsMarks(s: State, t: Thread)
    requires MarkedInv(s) && StepEnabled(s, t)
    ensures MarkedInv(Effect(s, t))
  {
  }

  lemma StepKeepsMarks(s: State, e: Event)
    requires MarkedInv(s) && Enabled(s, e)
    ensures MarkedInv(Next(s, e))
  {
    hide Effect, Continue, StepEnabled, ReleaseCount;
    if e.Step? {
      SectionKeepsMarks(s, s.threads[e.i]);
    }
  }

  // ---- Every state of every run ----

  lemma {:induction false} RunKeepsInv(s: State, events: seq<Event>)
    requires ReleaseInv(s) && GaugeInv(s) && TokenInv(s) && MarkedInv(s) && CanRun(s, events)
    ensures var s' := Final(s, events); ReleaseInv(s') && GaugeInv(s') && TokenInv(s') && MarkedInv(s')
    decreases |events|
  {
    hide ReleaseInv, GaugeInv, TokenInv, MarkedInv, Next, Enabled;
    if events != [] {
      StepKeepsReleases(s, events[0]);
      StepKeepsGauge(s, events[0]);
      StepKeepsTokens(s, events[0]);
      StepKeepsMarks(s, events[0]);
      RunKeepsInv(Next(s, events[0]), events[1..]);
    }
  }

  /** Under every interleaving: a session is released at most once and never while it is registered. */
  lemma ReleasedAtMostOnce(events: seq<Event>)
    requires CanRun(Init(), events)
    ensures var s := Final(Init(), events);
            && (forall sid :: ReleaseCount(s.releases, sid) <= 1)
            && (forall u | u in s.byUid ::
                  && ReleaseCount(s.releases, s.byUid[u]) == 0
                  && s.byUid[u] in s.sessions && s.sessions[s.byUid[u]].uid == u && s.sessions[s.byUid[u]].status != Released)
  {
    hide Final, CanRun;
    RunKeepsInv(Init(), events);
    var s := Final(Init(), events);
  }

  /** With no call in progress the gauge equals the number of registered sessions. */
  lemma GaugeIsExactWhenQuiet(events: seq<Event>)
    requires CanRun(Init(), events)
    requires forall i | 0 <= i < |Final(Init(), events).threads| :: Final(Init(), events).threads[i] == Done
    ensures Final(Init(), events).gauge == |Final(Init(), events).byUid|
  {
    hide Final, CanRun;
    RunKeepsInv(Init(), events);
    NothingOwed(Final(Init(), events).threads);
  }

  lemma {:induction false} NothingOwed(threads: seq<Thread>)
    requires forall i | 0 <= i < |threads| :: threads[i] == Done
    ensures TotalOwed(threads) == 0
  {
    if threads != [] {
      NothingOwed(threads[1..]);
    }
  }

  /** Each token value buys at most one reconnection. */
  lemma TokensAreRedeemedOnce(events: seq<Event>)
    requires CanRun(Init(), events)
    ensures NoRepeats(Final(Init(), events).redeemed)
  {
    hide Final, CanRun;
    RunKeepsInv(Init(), events);
  }

  // ---- A reconnection that overlaps a sweep ----

  lemma {:induction false} RunThen(s: State, a: seq<Event>, b: seq<Event>)
    requires CanRun(s, a) && CanRun(Final(s, a), b)
    ensures CanRun(s, a + b) && Final(s, a + b) == Final(Final(s, a), b)
    decreases |a|
  {
    hide Enabled, Next;
    if a == [] {
      assert a + b == b;
    } else {
      assert (a + b)[1..] == a[1..] + b;
      RunThen(Next(s, a[0]), a[1..], b);
    }
  }

  lemma RunOne(s: State, e: Event)
    requires Enabled(s, e)
    ensures CanRun(s, [e]) && Final(s, [e]) == Next(s, e)
  {
    hide Enabled, Next;
    assert [e][1..] == [];
    assert CanRun(Next(s, e), []);
  }

  /** The reconnection redeems the token, then the sweep takes the session out of `byUid`. */
  lemma RaceBegins(s: State, uid: Uid) returns (events: seq<Event>)
    requires ReleaseInv(s) && uid in s.byUid
    requires var token := s.sessions[s.byUid[uid]].token; token in s.byToken && s.byToken[token] == s.byUid[uid]
    ensures CanRun(s, events)
    ensures var sid, s' := s.byUid[uid], Final(s, events);
            && sid in s'.sessions && s'.sessions[sid].token == s.nextToken && s'.byUid == s.byUid - {uid} && s'.releases == s.releases
            && s'.threads == s.threads + [MarkReleased(sid, []), Bind(sid, s.sessions[sid].token, s.nextToken)]
  {
    hide Releases, ReleaseCount, CanRun, Final;
    var sid, n := s.byUid[uid], |s.threads|;
    var token := s.sessions[sid].token;
    var s1 := Next(s, StartSweep([sid]));
    var s2 := Next(s1, StartReconnect(token));
    var s3 := Next(s2, Step(n + 1));
    var s4 := Next(s3, Step(n));
    RunOne(s, StartSweep([sid]));
    RunOne(s1, StartReconnect(token));
    RunOne(s2, Step(n + 1));
    RunOne(s3, Step(n));
    RunThen(s, [StartSweep([sid])], [StartReconnect(token)]);
    RunThen(s, [StartSweep([sid])] + [StartReconnect(token)], [Step(n + 1)]);
    RunThen(s, [StartSweep([sid])] + [StartReconnect(token)] + [Step(n + 1)], [Step(n)]);
    events := [StartSweep([sid])] + [StartReconnect(token)] + [Step(n + 1)] + [Step(n)];
    assert s3.threads[n] == SweepNext([sid]) && [sid][1..] == [];
  }

  /** The sweep finishes its release, then the reconnection binds and indexes the session. */
  lemma RaceEnds(s: State, n: nat) returns (events: seq<Event>)
    requires n + 1 < |s.threads| && s.threads[n].MarkReleased? && s.threads[n].rest == [] && s.threads[n + 1].Bind?
    requires s.threads[n].sid == s.threads[n + 1].sid && s.threads[n].sid in s.sessions
    ensures CanRun(s, events)
    ensures var sid, s' := s.threads[n].sid, Final(s, events);
            && sid in s'.sessions && s'.sessions[sid] == s.sessions[sid].(status := Online) && s'.byUid == s.byUid
            && s'.releases == s.releases[sid := ReleaseCount(s.releases, sid) + 1]
            && s.threads[n + 1].newToken in s'.byToken && s'.byToken[s.threads[n + 1].newToken] == sid
            && s'.threads == s.threads[n := Done][n + 1 := Done]
  {
    hide ReleaseCount, CanRun, Final;
    var s1 := Next(s, Step(n));
    var s2 := Next(s1, Step(n));
    var s3 := Next(s2, Step(n));
    var s4 := Next(s3, Step(n + 1));
    var s5 := Next(s4, Step(n + 1));
    RunOne(s, Step(n));
    RunOne(s1, Step(n));
    RunOne(s2, Step(n));
    RunOne(s3, Step(n + 1));
    RunOne(s4, Step(n + 1));
    RunThen(s, [Step(n)], [Step(n)]);
    RunThen(s, [Step(n)] + [Step(n)], [Step(n)]);
    RunThen(s, [Step(n)] + [Step(n)] + [Step(n)], [Step(n + 1)]);
    RunThen(s, [Step(n)] + [Step(n)] + [Step(n)] + [Step(n + 1)], [Step(n + 1)]);
    events := [Step(n)] + [Step(n)] + [Step(n)] + [Step(n + 1)] + [Step(n + 1)];
  }

  /**
   `bind` does not look whether the session is released.  Whenever a registered session is
   offline, a sweep and a reconnection with its token can interleave so that the session is
   released, yet ends online, out of `byUid`, and reachable by its new token.
   */
  lemma ReleasedSessionCanComeBack(s: State, uid: Uid) returns (events: seq<Event>)
    requires ReleaseInv(s) && uid in s.byUid && s.sessions[s.byUid[uid]].status == Offline
    requires var token := s.sessions[s.byUid[uid]].token; token in s.byToken && s.byToken[token] == s.byUid[uid]
    ensures CanRun(s, events)
    ensures var sid, s' := s.byUid[uid], Final(s, events);
            && uid !in s'.byUid && ReleaseCount(s'.releases, sid) == 1
            && sid in s'.sessions && s'.sessions[sid].status == Online
            && s'.sessions[sid].token in s'.byToken && s'.byToken[s'.sessions[sid].token] == sid
            && s'.threads == s.threads + [Done, Done]
  {
    hide CanRun, Final;
    var first := RaceBegins(s, uid);
    var last := RaceEnds(Final(s, first), |s.threads|);
    RunThen(s, first, last);
    events := first + last;
  }

  // ---- When a released session can come back ----

  /**
   The ways back to a released session: a reconnection about to bind it, one about to redeem
   its current token, one about to index that token, or the token still in the index.
   */
  ghost predicate Revivable(s: State, sid: Sid)
    requires sid in s.sessions
  {
    || (exists i :: 0 <= i < |s.threads| && WayBack(s.threads[i], sid, s.sessions[sid].token))
    || Indexed(s.byToken, s.sessions[sid].token, sid)
  }

  predicate WayBack(t: Thread, sid: Sid, token: Token) {
    match t
    case Rotate(x, tok) => x == sid && tok == token
    case Bind(x, _, _) => x == sid
    case Reindex(x, _, newToken) => x == sid && newToken == token
    case _ => false
  }

  predicate Indexed(byToken: map<Token, Sid>, token: Token, sid: Sid) {
    token in byToken && byToken[token] == sid
  }

  /** A section of a call that is no way back opens none and leaves the session as it is. */
  lemma SectionOpensNoWay(s: State, t: Thread, sid: Sid)
    requires StepEnabled(s, t) && sid in s.sessions && s.sessions[sid].status == Released
    requires !WayBack(t, sid, s.sessions[sid].token) && !Indexed(s.byToken, s.sessions[sid].token, sid)
    ensures sid in Effect(s, t).sessions && Effect(s, t).sessions[sid] == s.sessions[sid]
    ensures !WayBack(Continue(s, t), sid, s.sessions[sid].token)
    ensures !Indexed(Effect(s, t).byToken, s.sessions[sid].token, sid)
  {
    hide ReleaseCount;
  }

  lemma StepOpensNoWay(s: State, e: Event, sid: Sid)
    requires Registered(s.byUid, s.sessions, s.nextSid) && Enabled(s, e)
    requires sid in s.sessions && s.sessions[sid].status == Released && !Revivable(s, sid)
    ensures sid in Next(s, e).sessions && Next(s, e).sessions[sid].status == Released && !Revivable(Next(s, e), sid)
  {
    hide Effect, Continue, StepEnabled, WayBack, ReleaseCount;
    NoWayBackInNewCalls(sid, s.sessions[sid].token);
    if e.Step? {
      SectionOpensNoWay(s, s.threads[e.i], sid);
    } else if e.StartReconnect? && e.token in s.byToken {
      RotateIsWayBack(s.byToken[e.token], e.token, sid, s.sessions[sid].token);
    }
  }

  lemma NoWayBackInNewCalls(sid: Sid, token: Token)
    ensures forall prior :: !WayBack(CreateCount(prior), sid, token)
    ensures forall cs :: !WayBack(SweepNext(cs), sid, token)
  {
  }

  lemma RotateIsWayBack(x: Sid, tok: Token, sid: Sid, token: Token)
    ensures WayBack(Rotate(x, tok), sid, token) <==> x == sid && tok == token
  {
  }

  lemma {:induction false} StaysWithoutWay(s: State, events: seq<Event>, sid: Sid)
    requires ReleaseInv(s) && CanRun(s, events)
    requires sid in s.sessions && s.sessions[sid].status == Released && !Revivable(s, sid)
    ensures sid in Final(s, events).sessions && Final(s, events).sessions[sid].status == Released
    decreases |events|
  {
    hide Releases, Next, Enabled, Revivable;
    if events != [] {
      StepKeepsReleases(s, events[0]);
      StepOpensNoWay(s, events[0], sid);
      StaysWithoutWay(Next(s, events[0]), events[1..], sid);
    }
  }

  /** A run from here in which the session is online again. */
  ghost predicate ComesBack(s: State, events: seq<Event>, sid: Sid) {
    CanRun(s, events) && sid in Final(s, events).sessions && Final(s, events).sessions[sid].status == Online
  }

  lemma ComesBackAfter(s: State, e: Event, events: seq<Event>, sid: Sid)
    requires Enabled(s, e) && ComesBack(Next(s, e), events, sid)
    ensures ComesBack(s, [e] + events, sid)
  {
    hide Enabled, Next;
    RunOne(s, e);
    RunThen(s, [e], events);
  }

  lemma BindBringsBack(s: State, i: nat, sid: Sid) returns (events: seq<Event>)
    requires i < |s.threads| && s.threads[i].Bind? && s.threads[i].sid == sid && sid in s.sessions
    ensures ComesBack(s, events, sid)
  {
    hide ReleaseCount, CanRun, Final;
    events := [Step(i)];
    RunOne(s, Step(i));
  }

  lemma RotateBringsBack(s: State, i: nat, sid: Sid) returns (events: seq<Event>)
    requires sid in s.sessions && i < |s.threads| && s.threads[i] == Rotate(sid, s.sessions[sid].token)
    ensures ComesBack(s, events, sid)
  {
    hide ReleaseCount, ComesBack;
    events := BindBringsBack(Next(s, Step(i)), i, sid);
    ComesBackAfter(s, Step(i), events, sid);
    events := [Step(i)] + events;
  }

  lemma IndexBringsBack(s: State, sid: Sid) returns (events: seq<Event>)
    requires sid in s.sessions && Indexed(s.byToken, s.sessions[sid].token, sid)
    ensures ComesBack(s, events, sid)
  {
    hide ReleaseCount, ComesBack, Effect, Continue;
    var e := StartReconnect(s.sessions[sid].token);
    events := RotateBringsBack(Next(s, e), |s.threads|, sid);
    ComesBackAfter(s, e, events, sid);
    events := [e] + events;
  }

  lemma ReindexBringsBack(s: State, i: nat, sid: Sid) returns (events: seq<Event>)
    requires sid in s.sessions && i < |s.threads| && s.threads[i].Reindex?
    requires s.threads[i].sid == sid && s.threads[i].newToken == s.sessions[sid].token
    ensures ComesBack(s, events, sid)
  {
    hide ReleaseCount, ComesBack;
    events := IndexBringsBack(Next(s, Step(i)), sid);
    ComesBackAfter(s, Step(i), events, sid);
    events := [Step(i)] + events;
  }

  lemma RevivableComesBack(s: State, sid: Sid) returns (events: seq<Event>)
    requires sid in s.sessions && Revivable(s, sid)
    ensures ComesBack(s, events, sid)
  {
    hide ComesBack;
    if Indexed(s.byToken, s.sessions[sid].token, sid) {
      events := IndexBringsBack(s, sid);
    } else {
      var i :| 0 <= i < |s.threads| && WayBack(s.threads[i], sid, s.sessions[sid].token);
      if s.threads[i].Rotate? {
        events := RotateBringsBack(s, i, sid);
      } else if s.threads[i].Bind? {
        events := BindBringsBack(s, i, sid);
      } else {
        events := ReindexBringsBack(s, i, sid);
      }
    }
  }

  /** Some run brings a released session back online if and only if there is a way back to it now. */
  lemma ComesBackIff(s: State, sid: Sid)
    requires ReleaseInv(s) && sid in s.sessions && s.sessions[sid].status == Released
    ensures (exists events :: ComesBack(s, events, sid)) <==> Revivable(s, sid)
  {
    hide Revivable, Releases, Registered;
    if Revivable(s, sid) {
      var events := RevivableComesBack(s, sid);
    } else {
      forall events ensures !ComesBack(s, events, sid) {
        if CanRun(s, events) {
          StaysWithoutWay(s, events, sid);
        }
      }
    }
  }

  // ---- A second way: the token indexed too late ----

  /** The reconnection redeems and binds before the sweep destroys the session, and indexes the new token after. */
  lemma LateIndexBegins(s: State, uid: Uid) returns (events: seq<Event>)
    requires ReleaseInv(s) && uid in s.byUid
    requires var token := s.sessions[s.byUid[uid]].token; token in s.byToken && s.byToken[token] == s.byUid[uid]
    ensures CanRun(s, events)
    ensures var sid, s' := s.byUid[uid], Final(s, events);
            && sid in s'.sessions && s'.sessions[sid].token == s.nextToken && s'.byUid == s.byUid - {uid} && s'.releases == s.releases
            && s'.threads == s.threads + [MarkReleased(sid, []), Reindex(sid, s.sessions[sid].token, s.nextToken)]
  {
    hide Releases, ReleaseCount, CanRun, Final;
    var sid, n := s.byUid[uid], |s.threads|;
    var token := s.sessions[sid].token;
    var e1, e2, e3, e4 := StartSweep([sid]), StartReconnect(token), Step(n + 1), Step(n);
    var s1 := Next(s, e1);
    var s2 := Next(s1, e2);
    var s3 := Next(s2, e3);
    var s4 := Next(s3, e3);
    var s5 := Next(s4, e4);
    RunOne(s, e1);
    RunOne(s1, e2);
    RunOne(s2, e3);
    RunOne(s3, e3);
    RunOne(s4, e4);
    RunThen(s, [e1], [e2]);
    RunThen(s, [e1] + [e2], [e3]);
    RunThen(s, [e1] + [e2] + [e3], [e3]);
    RunThen(s, [e1] + [e2] + [e3] + [e3], [e4]);
    events := [e1] + [e2] + [e3] + [e3] + [e4];
    assert s4.threads[n] == SweepNext([sid]) && [sid][1..] == [];
  }

  lemma LateIndexEnds(s: State, n: nat) returns (events: seq<Event>)
    requires n + 1 < |s.threads| && s.threads[n].MarkReleased? && s.threads[n].rest == [] && s.threads[n + 1].Reindex?
    requires s.threads[n].sid == s.threads[n + 1].sid && s.threads[n].sid in s.sessions
    ensures CanRun(s, events)
    ensures var sid, s' := s.threads[n].sid, Final(s, events);
            && sid in s'.sessions && s'.sessions[sid] == s.sessions[sid].(status := Released) && s'.byUid == s.byUid
            && s'.releases == s.releases[sid := ReleaseCount(s.releases, sid) + 1]
            && Indexed(s'.byToken, s.threads[n + 1].newToken, sid)
            && s'.threads == s.threads[n := Done][n + 1 := Done]
  {
    hide ReleaseCount, CanRun, Final;
    var e, f := Step(n), Step(n + 1);
    var s1 := Next(s, e);
    var s2 := Next(s1, e);
    var s3 := Next(s2, e);
    var s4 := Next(s3, f);
    RunOne(s, e);
    RunOne(s1, e);
    RunOne(s2, e);
    RunOne(s3, f);
    RunThen(s, [e], [e]);
    RunThen(s, [e] + [e], [e]);
    RunThen(s, [e] + [e] + [e], [f]);
    events := [e] + [e] + [e] + [f];
  }

  /**
   Even with every call ended, a released session can be left in the token index, so that a
   reconnection that starts only then brings it back.
   */
  lemma ReleasedTokenCanStayIndexed(s: State, uid: Uid) returns (events: seq<Event>)
    requires ReleaseInv(s) && uid in s.byUid && s.sessions[s.byUid[uid]].status == Offline
    requires var token := s.sessions[s.byUid[uid]].token; token in s.byToken && s.byToken[token] == s.byUid[uid]
    ensures CanRun(s, events)
    ensures var sid, s' := s.byUid[uid], Final(s, events);
            && s'.byUid == s.byUid - {uid} && ReleaseCount(s'.releases, sid) == 1 && s'.threads == s.threads + [Done, Done]
            && sid in s'.sessions && s'.sessions[sid].status == Released && Revivable(s', sid)
  {
    hide CanRun, Final;
    var first := LateIndexBegins(s, uid);
    var last := LateIndexEnds(Final(s, first), |s.threads|);
    RunThen(s, first, last);
    events := first + last;
  }

  /** Such a session exists: a login that is counted and then loses its connection. */
  lemma LoginGoesOffline(uid: Uid) returns (events: seq<Event>)
    ensures CanRun(Init(), events)
    ensures var s := Final(Init(), events);
            && ReleaseInv(s) && s.byUid == map[uid := 0] && 0 in s.sessions && s.sessions[0] == Session(uid, 0, Offline)
            && s.byToken == map[0 := 0] && s.threads == [Done]
  {
    hide CanRun, Final, ReleaseInv;
    var e1, e2, e3 := StartCreate(uid), Step(0), Disconnect(0);
    var s1 := Next(Init(), e1);
    var s2 := Next(s1, e2);
    var s3 := Next(s2, e3);
    RunOne(Init(), e1);
    RunOne(s1, e2);
    RunOne(s2, e3);
    RunThen(Init(), [e1], [e2]);
    RunThen(Init(), [e1] + [e2], [e3]);
    events := [e1] + [e2] + [e3];
    InitHolds();
    RunKeepsInv(Init(), events);
  }

  lemma InitHolds()
    ensures ReleaseInv(Init()) && GaugeInv(Init()) && TokenInv(Init()) && MarkedInv(Init())
  {
  }

  /** From the very start: no call in progress, one session, released once, and yet a reconnection would bring it back. */
  lemma QuietRegistryCanHoldReleasedToken(uid: Uid) returns (events: seq<Event>)
    ensures CanRun(Init(), events)
    ensures var s := Final(Init(), events);
            && (forall i | 0 <= i < |s.threads| :: s.threads[i] == Done) && s.byUid == map[]
            && 0 in s.sessions && s.sessions[0].status == Released && ReleaseCount(s.releases, 0) == 1 && Revivable(s, 0)
  {
    hide CanRun, Final;
    var first := LoginGoesOffline(uid);
    var last := ReleasedTokenCanStayIndexed(Final(Init(), first), uid);
    RunThen(Init(), first, last);
    events := first + last;
    assert Final(Init(), events).byUid.Keys == {};
  }

  predicate Binds(s: State, e: Event, sid: Sid) {
    e.Step? && e.i < |s.threads| && s.threads[e.i].Bind? && s.threads[e.i].sid == sid
  }

  /** Some step of the run lets a reconnection bind the session. */
  ghost predicate BoundDuring(s: State, events: seq<Event>, sid: Sid)
    requires CanRun(s, events)
    decreases |events|
  {
    events != [] && (Binds(s, events[0], sid) || BoundDuring(Next(s, events[0]), events[1..], sid))
  }

  lemma SectionKeepsStatus(s: State, t: Thread, sid: Sid)
    requires StepEnabled(s, t) && sid in s.sessions && Owned(t) != Some(sid)
    ensures sid in Effect(s, t).sessions && ReleaseCount(Effect(s, t).releases, sid) == ReleaseCount(s.releases, sid)
    ensures Effect(s, t).sessions[sid].status == if t.Bind? && t.sid == sid then Online else s.sessions[sid].status
  {
  }

  lemma StatusAfterStep(s: State, e: Event, sid: Sid)
    requires ReleaseInv(s) && Enabled(s, e) && sid in s.sessions && ReleaseCount(s.releases, sid) == 1
    ensures sid in Next(s, e).sessions && ReleaseCount(Next(s, e).releases, sid) == 1
    ensures Next(s, e).sessions[sid].status == Released <==> s.sessions[sid].status == Released && !Binds(s, e, sid)
  {
    hide Effect, Continue, StepEnabled, ReleaseCount, OwnersDiffer, Counted, Listed;
    if e.Step? {
      var t := s.threads[e.i];
      assert Owned(t).Some? ==> Pending(s.byUid, s.releases, s.nextSid, Owned(t).value);
      SectionKeepsStatus(s, t, sid);
    }
  }

  /**
   A session that was released stays released over a run exactly when no reconnection that
   had found it earlier binds it during the run; once bound, nothing releases it again.
   */
  lemma {:induction false} StaysReleasedIff(s: State, events: seq<Event>, sid: Sid)
    requires ReleaseInv(s) && CanRun(s, events) && sid in s.sessions && ReleaseCount(s.releases, sid) == 1
    ensures sid in Final(s, events).sessions
    ensures Final(s, events).sessions[sid].status == Released <==> s.sessions[sid].status == Released && !BoundDuring(s, events, sid)
    decreases |events|
  {
    hide ReleaseInv, Next, Enabled, Binds, ReleaseCount;
    if events != [] {
      StepKeepsReleases(s, events[0]);
      StatusAfterStep(s, events[0], sid);
      StaysReleasedIff(Next(s, events[0]), events[1..], sid);
    }
  }
}

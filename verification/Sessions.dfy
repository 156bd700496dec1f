/**
 The session registry under concurrent calls: `Create`, `Sweep` and `Reconnect` run in any
 number of threads, and each step below is one section under a lock or one atomic update.
 */
module Sessions {
  import opened Common

  type Uid = string
  type Token = int
  type Sid = int

  datatype Status = Online | Offline | Released

  datatype Session = Session(uid: Uid, token: Token, status: Status)

  /** Where a call stands; a destroy is part of a Create that replaces a login or of a Sweep. */
  datatype Thread =
    | Done
    | CreateCount(prior: Option<Sid>)                 // registered, gauge not yet raised
    | KickIndexes(sid: Sid)                           // about to drop the old login's indexes
    | MarkReleased(sid: Sid, rest: seq<Sid>)
    | Uncount(sid: Sid, rest: seq<Sid>)             // released, gauge not yet lowered
    | SweepNext(rest: seq<Sid>)                     // candidates still to destroy
    | Rotate(sid: Sid, token: Token)                // found by token, not yet redeemed
    | Bind(sid: Sid, token: Token, newToken: Token)
    | Reindex(sid: Sid, token: Token, newToken: Token)

  datatype State = State(
    sessions: map<Sid, Session>,
    byUid: map<Uid, Sid>,
    byToken: map<Token, Sid>,
    gauge: int,                    // online_sessions
    threads: seq<Thread>,
    nextSid: Sid,
    nextToken: Token,
    releases: map<Sid, nat>,       // how often each session was released
    redeemed: seq<Token>)          // tokens that bought a reconnection

  datatype Event =
    | StartCreate(uid: Uid)
    | StartSweep(candidates: seq<Sid>)
    | StartReconnect(token: Token)
    | Disconnect(sid: Sid)
    | Step(i: nat)

  function Init(): State {
    State(map[], map[], map[], 0, [], 0, 0, map[], [])
  }

  function ReleaseCount(releases: map<Sid, nat>, sid: Sid): nat {
    if sid in releases then releases[sid] else 0
  }

  ghost predicate Enabled(s: State, e: Event) {
    match e
    case StartCreate(_) => true
    case StartSweep(cs) =>   // a candidate was offline when looked at, and may have come back since
      forall c | c in cs :: c in s.sessions && s.sessions[c].uid in s.byUid && s.byUid[s.sessions[c].uid] == c
    case StartReconnect(_) => true
    case Disconnect(sid) => sid in s.sessions
    case Step(i) => i < |s.threads| && StepEnabled(s, s.threads[i])
  }

  predicate StepEnabled(s: State, t: Thread) {
    match t
    case Done => false
    case CreateCount(_) => true
    case KickIndexes(prior) => prior in s.sessions
    case MarkReleased(sid, _) => sid in s.sessions
    case Uncount(_, _) => true
    case SweepNext(rest) => rest == [] || rest[0] in s.sessions
    case Rotate(sid, _) => sid in s.sessions
    case Bind(sid, _, _) => sid in s.sessions
    case Reindex(_, _, _) => true
  }

  function Next(s: State, e: Event): State
    requires Enabled(s, e)
  {
    match e
    case StartCreate(uid) =>
      var prior := if uid in s.byUid then Some(s.byUid[uid]) else None;
      s.(sessions := s.sessions[s.nextSid := Session(uid, s.nextToken, Online)],
         byUid := s.byUid[uid := s.nextSid], byToken := s.byToken[s.nextToken := s.nextSid],
         threads := s.threads + [CreateCount(prior)], nextSid := s.nextSid + 1, nextToken := s.nextToken + 1)
    case StartSweep(cs) => s.(threads := s.threads + [SweepNext(cs)])
    case StartReconnect(token) =>
      if token in s.byToken then s.(threads := s.threads + [Rotate(s.byToken[token], token)]) else s
    case Disconnect(sid) =>
      if s.sessions[sid].status == Online then s.(sessions := s.sessions[sid := s.sessions[sid].(status := Offline)]) else s
    case Step(i) => StepThread(s, i)
  }

  function StepThread(s: State, i: nat): State
    requires i < |s.threads| && StepEnabled(s, s.threads[i])
  {
    Effect(s, s.threads[i]).(threads := s.threads[i := Continue(s, s.threads[i])])
  }

  /** Where the call stands after its next section. */
  function Continue(s: State, t: Thread): Thread
    requires StepEnabled(s, t)
  {
    match t
    case CreateCount(prior) => if prior.Some? then KickIndexes(prior.value) else Done
    case KickIndexes(prior) => MarkReleased(prior, [])
    case MarkReleased(sid, rest) => Uncount(sid, rest)
    case Uncount(_, rest) => SweepNext(rest)
    case SweepNext(rest) =>
      if rest == [] then Done
      else if Removable(s, rest[0]) then MarkReleased(rest[0], rest[1..])
      else SweepNext(rest[1..])
    case Rotate(sid, token) => if s.sessions[sid].token == token then Bind(sid, token, s.nextToken) else Done
    case Bind(sid, token, newToken) => Reindex(sid, token, newToken)
    case Reindex(_, _, _) => Done
  }

  /** The session still holds its uid's slot. */
  predicate Removable(s: State, sid: Sid)
    requires sid in s.sessions
  {
    var uid := s.sessions[sid].uid;
    uid in s.byUid && s.byUid[uid] == sid
  }

  /** What the section does to the registry. */
  function Effect(s: State, t: Thread): State
    requires StepEnabled(s, t)
  {
    match t
    case CreateCount(prior) => s.(gauge := s.gauge + 1)
    case KickIndexes(prior) =>
      var token := s.sessions[prior].token;
      if token in s.byToken && s.byToken[token] == prior then s.(byToken := s.byToken - {token}) else s
    case MarkReleased(sid, rest) =>
      s.(sessions := s.sessions[sid := s.sessions[sid].(status := Released)],
         releases := s.releases[sid := ReleaseCount(s.releases, sid) + 1])
    case Uncount(_, _) => s.(gauge := s.gauge - 1)
    case SweepNext(rest) =>
      if rest != [] && Removable(s, rest[0]) then
        var session := s.sessions[rest[0]];
        s.(byUid := s.byUid - {session.uid}, byToken := s.byToken - {session.token})
      else s
    case Rotate(sid, token) =>
      if s.sessions[sid].token == token then
        s.(sessions := s.sessions[sid := s.sessions[sid].(token := s.nextToken)], nextToken := s.nextToken + 1,
           redeemed := s.redeemed + [token])
      else s
    case Bind(sid, _, _) => s.(sessions := s.sessions[sid := s.sessions[sid].(status := Online)])
    case Reindex(sid, token, newToken) => s.(byToken := (s.byToken - {token})[newToken := sid])
  }

  ghost predicate CanRun(s: State, events: seq<Event>)
    decreases |events|
  {
    events == [] || (Enabled(s, events[0]) && CanRun(Next(s, events[0]), events[1..]))
  }

  ghost function Final(s: State, events: seq<Event>): State
    requires CanRun(s, events)
    decreases |events|
  {
    if events == [] then s else Final(Next(s, events[0]), events[1..])
  }
}

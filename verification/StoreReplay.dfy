/** What one replay of the log achieves, and how a refused head keeps a half-open table waiting. */
module StoreReplay {
  import opened Breaker
  import opened Store
  import opened StoreProofs

  // ---- Composing runs ----

  lemma RunOne(cfg: Config, s: State, e: Event)
    requires Enabled(cfg, s, e)
    ensures CanRun(cfg, s, [e]) && Final(cfg, s, [e]) == Next(cfg, s, e)
  {
    hide Enabled, Next;
    assert [e][1..] == [];
    assert CanRun(cfg, Next(cfg, s, e), []);
  }

  lemma {:induction false} RunThen(cfg: Config, s: State, a: seq<Event>, b: seq<Event>)
    requires CanRun(cfg, s, a) && CanRun(cfg, Final(cfg, s, a), b)
    ensures CanRun(cfg, s, a + b) && Final(cfg, s, a + b) == Final(cfg, Final(cfg, s, a), b)
    decreases |a|
  {
    hide Enabled, Next;
    if a == [] {
      assert a + b == b;
    } else {
      assert (a + b)[1..] == a[1..] + b;
      RunThen(cfg, Next(cfg, s, a[0]), a[1..], b);
    }
  }

  lemma RunOn(cfg: Config, s: State, a: seq<Event>, e: Event)
    requires CanRun(cfg, s, a) && Enabled(cfg, Final(cfg, s, a), e)
    ensures CanRun(cfg, s, a + [e]) && Final(cfg, s, a + [e]) == Next(cfg, Final(cfg, s, a), e)
  {
    hide Enabled, Next;
    RunOne(cfg, Final(cfg, s, a), e);
    RunThen(cfg, s, a, [e]);
  }

  // ---- One pass over the log ----

  /** How many records the backend takes before it first refuses one. */
  function FirstRefusal(oks: seq<bool>): (k: nat)
    ensures k <= |oks| && (forall i | 0 <= i < k :: oks[i]) && (k < |oks| ==> !oks[k])
  {
    if oks == [] || !oks[0] then 0 else 1 + FirstRefusal(oks[1..])
  }

  function Takes(k: nat): seq<Event> {
    if k == 0 then [] else Takes(k - 1) + [Replay(ReplayWrite(true))] + [Replay(ReplayConfirm)]
  }

  /** The worker's steps when the backend answers `oks` to the records in turn. */
  function PassSteps(oks: seq<bool>, truncateOk: bool): seq<Event> {
    var k := FirstRefusal(oks);
    [Replay(BeginReplay(true))] + Takes(k) + [if k < |oks| then Replay(ReplayWrite(false)) else Replay(ReplayEnd(truncateOk))]
  }

  function CloseAll(b: Breakers, recs: seq<Rec>): Breakers {
    if recs == [] then b else OnSuccess(CloseAll(b, recs[..|recs| - 1]), recs[|recs| - 1].table)
  }

  function Taken(wal: seq<Rec>, k: nat): set<Rec>
    requires k <= |wal|
  {
    set r | r in wal[..k]
  }

  /** After `k` records have been taken. */
  function AfterTakes(s: State, k: nat): State
    requires k <= |s.wal|
  {
    s.(worker := Replaying(k), applied := s.applied + Taken(s.wal, k), breakers := CloseAll(s.breakers, s.wal[..k]))
  }

  lemma {:induction false} TakesAre(cfg: Config, s: State, k: nat)
    requires s.worker == Replaying(0) && k <= |s.wal|
    ensures CanRun(cfg, s, Takes(k)) && Final(cfg, s, Takes(k)) == AfterTakes(s, k)
  {
    hide CanRun, Final;
    if k == 0 {
      NoSteps(cfg, s);
      assert s.applied + Taken(s.wal, 0) == s.applied;
    } else {
      TakesAre(cfg, s, k - 1);
      var s1 := AfterTakes(s, k - 1);
      var e1, e2 := Replay(ReplayWrite(true)), Replay(ReplayConfirm);
      RunOn(cfg, s, Takes(k - 1), e1);
      RunOn(cfg, s, Takes(k - 1) + [e1], e2);
      assert s.wal[..k][..k - 1] == s.wal[..k - 1];
      OneMoreTaken(s.applied, s.wal, k);
    }
  }

  lemma OneMoreTaken(applied: set<Rec>, wal: seq<Rec>, k: nat)
    requires 1 <= k <= |wal|
    ensures applied + Taken(wal, k - 1) + {wal[k - 1]} == applied + Taken(wal, k)
  {
    assert wal[..k] == wal[..k - 1] + [wal[k - 1]];
  }

  lemma NoSteps(cfg: Config, s: State)
    ensures CanRun(cfg, s, []) && Final(cfg, s, []) == s
  {
  }

  /** What a pass leaves: the taken records applied and their tables closed, the log as it was or empty. */
  function PassResult(s: State, oks: seq<bool>, truncateOk: bool): State
    requires |oks| == |s.wal|
  {
    var k := FirstRefusal(oks);
    AfterTakes(s, k).(worker := Idle, wal := if k == |oks| && truncateOk then [] else s.wal)
  }

  lemma PassIs(cfg: Config, s: State, oks: seq<bool>, truncateOk: bool)
    requires cfg.walEnabled && s.worker == ReplayStart && |oks| == |s.wal|
    ensures CanRun(cfg, s, PassSteps(oks, truncateOk)) && Final(cfg, s, PassSteps(oks, truncateOk)) == PassResult(s, oks, truncateOk)
  {
    hide CanRun, Final, CloseAll;
    var k := FirstRefusal(oks);
    var begin := Replay(BeginReplay(true));
    var s1 := s.(worker := Replaying(0));
    RunOne(cfg, s, begin);
    TakesAre(cfg, s1, k);
    RunThen(cfg, s, [begin], Takes(k));
    RunOn(cfg, s, [begin] + Takes(k), if k < |oks| then Replay(ReplayWrite(false)) else Replay(ReplayEnd(truncateOk)));
  }

  /** Among all steps of all calls, only the cut at the end of a pass shortens the log, and then every record was applied. */
  lemma LogIsCutOnlyWhenApplied(cfg: Config, events: seq<Event>, e: Event)
    requires CanRun(cfg, Init(), events) && Enabled(cfg, Final(cfg, Init(), events), e)
    ensures var s := Final(cfg, Init(), events);
            var s' := Next(cfg, s, e);
            && (s.wal <= s'.wal || (e == Replay(ReplayEnd(true)) && s'.wal == [] && forall r | r in s.wal :: r in s.applied))
  {
    hide CanRun, Final;
    InitInv(cfg);
    RunKeepsInv(cfg, Init(), events);
    CutOnlyAtEnd(cfg, Final(cfg, Init(), events), e);
  }

  lemma CutOnlyAtEnd(cfg: Config, s: State, e: Event)
    requires Inv(cfg, s) && Enabled(cfg, s, e)
    ensures var s' := Next(cfg, s, e);
            && (s.wal <= s'.wal || (e == Replay(ReplayEnd(true)) && s'.wal == [] && forall r | r in s.wal :: r in s.applied))
  {
    hide Allow, OnSuccess, OnFailure, Trip;
    match e
    case Caller(c, step) => assert s.wal <= CallNext(cfg, s, c, step).wal;
    case Drain(step) => assert DrainNext(cfg, s, step).wal == s.wal;
    case Try(step) => assert TryNext(cfg, s, step).wal == s.wal;
    case Spool(step) => SpoolAppends(cfg, s, step);
    case Replay(step) => assert step != ReplayEnd(true) ==> ReplayNext(cfg, s, step).wal == s.wal;
    case Clock(_) =>
  }

  lemma SpoolAppends(cfg: Config, s: State, e: SpoolStep)
    requires SpoolEnabled(s, e)
    ensures s.wal <= SpoolNext(cfg, s, e).wal && !LogLocked(SpoolNext(cfg, s, e).worker)
  {
    hide OnFailure, Trip;
  }

  // ---- A half-open table behind a refused head ----

  /** A write that finds the queue full and goes to the log. */
  lemma SpillOne(cfg: Config, s: State, t: string) returns (events: seq<Event>)
    requires cfg.walEnabled && |s.queue| >= cfg.queueSize && s.calls == map[] && !LogLocked(s.worker)
    requires Allow(s.breakers, t, s.now, cfg.cooldown).admitted
    ensures CanRun(cfg, s, events)
    ensures var rec := Rec(s.nextId, t);
            Final(cfg, s, events) ==
            s.(breakers := Allow(s.breakers, t, s.now, cfg.cooldown).breakers, nextId := s.nextId + 1, wal := s.wal + [rec],
               accepted := s.accepted + {rec}, probe := if StateOf(s.breakers, t) == Open then s.probe[t := rec] else s.probe)
  {
    hide CanRun, Final, Allow, StateOf;
    var e1, e2, e3 := Caller(0, AllowStep(t)), Caller(0, SendStep), Caller(0, AppendStep(true));
    RunOne(cfg, s, e1);
    RunOn(cfg, s, [e1], e2);
    RunOn(cfg, s, [e1] + [e2], e3);
    events := [e1] + [e2] + [e3];
    assert Final(cfg, s, events).calls == map[];
  }

  /** A write that finds the queue full and the log failing opens its table. */
  lemma TripOne(cfg: Config, s: State, t: string) returns (events: seq<Event>)
    requires |s.queue| >= cfg.queueSize && s.calls == map[] && !LogLocked(s.worker) && StateOf(s.breakers, t) == Closed
    ensures CanRun(cfg, s, events)
    ensures var rec := Rec(s.nextId, t);
            Final(cfg, s, events) == s.(breakers := Trip(s.breakers, t, s.now), nextId := s.nextId + 1, dead := s.dead + {rec})
  {
    hide CanRun, Final, Trip;
    var e1, e2, e3, e4 := Caller(0, AllowStep(t)), Caller(0, SendStep), Caller(0, AppendStep(false)), Caller(0, TripStep);
    RunOne(cfg, s, e1);
    RunOn(cfg, s, [e1], e2);
    RunOn(cfg, s, [e1] + [e2], e3);
    RunOn(cfg, s, [e1] + [e2] + [e3], e4);
    events := [e1] + [e2] + [e3] + [e4];
    assert Final(cfg, s, events).calls == map[];
  }

  lemma QueueOne(cfg: Config, s: State, t: string) returns (events: seq<Event>)
    requires |s.queue| < cfg.queueSize && s.calls == map[] && StateOf(s.breakers, t) == Closed
    ensures CanRun(cfg, s, events)
    ensures var rec := Rec(s.nextId, t);
            Final(cfg, s, events) == s.(queue := s.queue + [rec], nextId := s.nextId + 1, accepted := s.accepted + {rec})
  {
    hide CanRun, Final;
    var e1, e2 := Caller(0, AllowStep(t)), Caller(0, SendStep);
    RunOne(cfg, s, e1);
    RunOn(cfg, s, [e1], e2);
    events := [e1] + [e2];
    assert Final(cfg, s, events).calls == map[];
  }

  /** The worker writes the only queued record and turns to the log. */
  lemma FlushOne(cfg: Config, s: State) returns (events: seq<Event>)
    requires s.worker == Idle && |s.queue| == 1
    ensures CanRun(cfg, s, events)
    ensures var rec := s.queue[0];
            Final(cfg, s, events) ==
            s.(queue := [], worker := ReplayStart, applied := s.applied + {rec}, breakers := OnSuccess(s.breakers, rec.table))
  {
    hide CanRun, Final, OnSuccess;
    var e1, e2, e3, e4, e5 := Drain(DrainFirst), Drain(DrainDone), Try(BackendWrite(true)), Try(Confirm), Try(EndPass);
    RunOne(cfg, s, e1);
    assert s.queue[1..] == [];
    RunOn(cfg, s, [e1], e2);
    RunOn(cfg, s, [e1] + [e2], e3);
    RunOn(cfg, s, [e1] + [e2] + [e3], e4);
    RunOn(cfg, s, [e1] + [e2] + [e3] + [e4], e5);
    events := [e1] + [e2] + [e3] + [e4] + [e5];
  }

  /** The state the witness reaches: a queue of one, a log of two, and `t` half-open with its probe behind a record of `u`. */
  ghost predicate Waiting(s: State, u: string, t: string) {
    && s.worker == Idle && s.queue == [] && s.calls == map[]
    && |s.wal| == 2 && s.wal[0].table == u && s.wal[1].table == t
    && StateOf(s.breakers, t) == HalfOpen && t in s.probe && s.probe[t] == s.wal[1] && s.wal[1] in s.accepted
  }

  lemma OpenThenProbe(cfg: Config, u: string, t: string) returns (events: seq<Event>)
    requires cfg.walEnabled && cfg.queueSize == 1 && cfg.cooldown >= 0 && u != t
    ensures CanRun(cfg, Init(), events)
    ensures var s := Final(cfg, Init(), events);
            && s.worker == Idle && s.queue == [Rec(0, u)] && s.calls == map[] && s.wal == [Rec(2, u), Rec(3, t)]
            && s.breakers == Breakers(map[t := HalfOpen], map[t := 0]) && s.probe == map[t := Rec(3, t)] && Rec(3, t) in s.accepted
  {
    hide CanRun, Final;
    events := QueueOne(cfg, Init(), u);
    var more := TripOne(cfg, Final(cfg, Init(), events), t);
    RunThen(cfg, Init(), events, more);
    events := events + more;
    more := SpillOne(cfg, Final(cfg, Init(), events), u);
    RunThen(cfg, Init(), events, more);
    events := events + more;
    RunOn(cfg, Init(), events, Clock(cfg.cooldown));
    events := events + [Clock(cfg.cooldown)];
    more := SpillOne(cfg, Final(cfg, Init(), events), t);
    RunThen(cfg, Init(), events, more);
    events := events + more;
  }

  /** For a queue of one and any cooldown, retry and batch limits, a run from the start ends in such a state. */
  lemma ProbeCanWaitBehindRefusedHead(cfg: Config, u: string, t: string) returns (events: seq<Event>)
    requires cfg.walEnabled && cfg.queueSize == 1 && cfg.cooldown >= 0 && u != t
    ensures CanRun(cfg, Init(), events) && Waiting(Final(cfg, Init(), events), u, t)
  {
    hide CanRun, Final, PassSteps;
    events := OpenThenProbe(cfg, u, t);
    var more := FlushOne(cfg, Final(cfg, Init(), events));
    RunThen(cfg, Init(), events, more);
    events := events + more;
    var s := Final(cfg, Init(), events);
    PassIs(cfg, s, [false, false], true);
    RunThen(cfg, Init(), events, PassSteps([false, false], true));
    events := events + PassSteps([false, false], true);
    assert s.wal[..0] == [];
  }
}

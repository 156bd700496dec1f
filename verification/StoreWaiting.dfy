/**
 What a replay of the log achieves, whatever callers do meanwhile, and how long a half-open
 table waits for it.
 */
module StoreWaiting {
  import opened Breaker
  import opened Store
  import opened StoreProofs
  import opened StoreReplay

  // ---- One pass over the log, overtaken at will ----

  /** The run is one pass to its end: the log is locked before every event and free after the last. */
  ghost predicate IsPass(cfg: Config, s: State, events: seq<Event>)
    requires CanRun(cfg, s, events)
    decreases |events|
  {
    && events != [] && LogLocked(s.worker)
    && var s' := Next(cfg, s, events[0]);
       if |events| == 1 then !LogLocked(s'.worker) else IsPass(cfg, s', events[1..])
  }

  /** How many records the backend took and the breaker heard of. */
  function Took(events: seq<Event>): nat {
    if events == [] then 0 else (if events[0] == Replay(ReplayConfirm) then 1 else 0) + Took(events[1..])
  }

  predicate Untripped(calls: map<nat, Call>, t: string) {
    forall c | c in calls :: calls[c].Tripping? ==> calls[c].rec.table != t
  }

  /** A call of the table, dead-lettered earlier, opens it. */
  predicate Trips(s: State, e: Event, t: string) {
    e.Caller? && e.call.TripStep? && e.c in s.calls && s.calls[e.c].rec.table == t
  }

  ghost predicate TrippedDuring(cfg: Config, s: State, events: seq<Event>, t: string)
    requires CanRun(cfg, s, events)
    decreases |events|
  {
    events != [] && (Trips(s, events[0], t) || TrippedDuring(cfg, Next(cfg, s, events[0]), events[1..], t))
  }

  /** A step inside a pass leaves the log alone, and ends the pass at a refusal or at the end of the log. */
  lemma StepInPass(cfg: Config, s: State, e: Event)
    requires cfg.walEnabled && LogLocked(s.worker) && Enabled(cfg, s, e)
    requires s.worker.done <= |s.wal| && (s.worker.ReplayConfirming? ==> s.worker.done < |s.wal|)
    ensures var s' := Next(cfg, s, e);
            && (LogLocked(s'.worker) ==>
                  && s'.wal == s.wal && s'.worker.done == s.worker.done + Took([e]) <= |s.wal|
                  && (s'.worker.ReplayConfirming? ==> s'.worker.done < |s.wal|))
            && (!LogLocked(s'.worker) ==>
                  || (e == Replay(ReplayWrite(false)) && s'.wal == s.wal && s.worker.done < |s.wal|)
                  || (e == Replay(ReplayEnd(true)) && s'.wal == [] && s.worker.done == |s.wal|)
                  || (e == Replay(ReplayEnd(false)) && s'.wal == s.wal && s.worker.done == |s.wal|))
  {
    hide Allow, OnSuccess, Trip;
    match e
    case Caller(_, step) =>
    case Replay(step) =>
    case Clock(_) =>
    case _ =>
  }

  /** It closes a table exactly when it confirms a record of it. */
  lemma StepInPassCloses(cfg: Config, s: State, e: Event, t: string)
    requires cfg.walEnabled && LogLocked(s.worker) && Enabled(cfg, s, e)
    requires s.worker.done <= |s.wal| && (s.worker.ReplayConfirming? ==> s.worker.done < |s.wal|)
    requires !Trips(s, e, t) && StateOf(s.breakers, t) in {HalfOpen, Closed}
    ensures StateOf(Next(cfg, s, e).breakers, t) ==
            if e == Replay(ReplayConfirm) && s.wal[s.worker.done].table == t then Closed else StateOf(s.breakers, t)
  {
    match e
    case Caller(_, step) =>
    case Replay(step) =>
    case Clock(_) =>
    case _ =>
  }

  /** Nobody gets to trip a table during a pass who was not about to. */
  lemma {:induction false} NotTripped(cfg: Config, s: State, events: seq<Event>, t: string)
    requires cfg.walEnabled && CanRun(cfg, s, events) && IsPass(cfg, s, events) && Untripped(s.calls, t)
    ensures !TrippedDuring(cfg, s, events, t)
    decreases |events|
  {
    hide Next, Enabled;
    StepKeepsUntripped(cfg, s, events[0], t);
    if |events| == 1 {
      assert events[1..] == [];
    } else {
      NotTripped(cfg, Next(cfg, s, events[0]), events[1..], t);
    }
  }

  lemma StepKeepsUntripped(cfg: Config, s: State, e: Event, t: string)
    requires cfg.walEnabled && LogLocked(s.worker) && Enabled(cfg, s, e) && Untripped(s.calls, t)
    ensures Untripped(Next(cfg, s, e).calls, t) && !Trips(s, e, t)
  {
    hide Allow, OnSuccess, Trip;
    match e
    case Caller(_, step) =>
    case Replay(step) =>
    case Clock(_) =>
    case _ =>
  }

  lemma {:induction false} PassEndsAs(cfg: Config, s: State, events: seq<Event>)
    requires cfg.walEnabled && CanRun(cfg, s, events) && IsPass(cfg, s, events)
    requires s.worker.done <= |s.wal| && (s.worker.ReplayConfirming? ==> s.worker.done < |s.wal|)
    ensures var last, n := events[|events| - 1], s.worker.done + Took(events);
            && n <= |s.wal|
            && (n < |s.wal| ==> last == Replay(ReplayWrite(false)))
            && (n == |s.wal| ==> last.Replay? && last.replay.ReplayEnd?)
            && Final(cfg, s, events).wal == if last == Replay(ReplayEnd(true)) then [] else s.wal
    decreases |events|
  {
    hide Next, Enabled;
    StepInPass(cfg, s, events[0]);
    TookOne(events[0]);
    if |events| == 1 {
      assert events[1..] == [];
    } else {
      PassEndsAs(cfg, Next(cfg, s, events[0]), events[1..]);
      assert events[1..][|events| - 2] == events[|events| - 1];
    }
  }

  lemma TookOne(e: Event)
    ensures Took([e]) == if e == Replay(ReplayConfirm) then 1 else 0
  {
    assert [e][1..] == [];
  }

  /** Whatever overtakes it, a pass empties the log exactly when the backend takes every record and the file is cut. */
  lemma PassEmptiesTheLogIff(cfg: Config, s: State, events: seq<Event>)
    requires cfg.walEnabled && s.worker == Replaying(0) && s.wal != [] && CanRun(cfg, s, events) && IsPass(cfg, s, events)
    ensures Final(cfg, s, events).wal == [] <==> Took(events) == |s.wal| && events[|events| - 1] == Replay(ReplayEnd(true))
    ensures Final(cfg, s, events).wal != [] ==> Final(cfg, s, events).wal == s.wal
    ensures Took(events) < |s.wal| ==> events[|events| - 1] == Replay(ReplayWrite(false))
  {
    hide Next, Enabled, CanRun, IsPass;
    PassEndsAs(cfg, s, events);
  }

  /** Some record of the table is among the given stretch of the log. */
  predicate Holds(wal: seq<Rec>, from: nat, to: nat, t: string)
    requires from <= to <= |wal|
  {
    exists i | from <= i < to :: wal[i].table == t
  }

  lemma {:induction false} PassLeavesTable(cfg: Config, s: State, events: seq<Event>, t: string)
    requires cfg.walEnabled && CanRun(cfg, s, events) && IsPass(cfg, s, events)
    requires s.worker.done <= |s.wal| && (s.worker.ReplayConfirming? ==> s.worker.done < |s.wal|)
    requires !TrippedDuring(cfg, s, events, t) && StateOf(s.breakers, t) in {HalfOpen, Closed}
    ensures s.worker.done + Took(events) <= |s.wal|
    ensures StateOf(Final(cfg, s, events).breakers, t) ==
            if Holds(s.wal, s.worker.done, s.worker.done + Took(events), t) then Closed else StateOf(s.breakers, t)
    decreases |events|
  {
    hide Next, Enabled, StateOf, Trips;
    PassEndsAs(cfg, s, events);
    StepInPass(cfg, s, events[0]);
    StepInPassCloses(cfg, s, events[0], t);
    TookOne(events[0]);
    if |events| == 1 {
      assert events[1..] == [];
    } else {
      PassLeavesTable(cfg, Next(cfg, s, events[0]), events[1..], t);
    }
  }

  /**
   Whatever overtakes it, a pass closes a half-open table exactly when it takes a record of it;
   otherwise the table is half-open still.  Only a call of the table can interfere, by opening
   it, and only one that was dead-lettered before the pass began.
   */
  lemma PassClosesTheTableIff(cfg: Config, s: State, events: seq<Event>, t: string)
    requires cfg.walEnabled && s.worker == Replaying(0) && CanRun(cfg, s, events) && IsPass(cfg, s, events)
    requires StateOf(s.breakers, t) == HalfOpen
    ensures Took(events) <= |s.wal|
    ensures !TrippedDuring(cfg, s, events, t) ==>
              StateOf(Final(cfg, s, events).breakers, t) == if Holds(s.wal, 0, Took(events), t) then Closed else HalfOpen
    ensures Untripped(s.calls, t) ==> !TrippedDuring(cfg, s, events, t)
  {
    hide Next, Enabled, CanRun, IsPass, TrippedDuring;
    PassEndsAs(cfg, s, events);
    if !TrippedDuring(cfg, s, events, t) {
      PassLeavesTable(cfg, s, events, t);
    }
    if Untripped(s.calls, t) {
      NotTripped(cfg, s, events, t);
    }
  }

  // ---- A table whose writes are all in the log ----

  /** No write of the table is anywhere but in the log. */
  ghost predicate OnlyLogged(s: State, t: string) {
    && (forall c | c in s.calls :: s.calls[c].rec.table != t)
    && (forall r | r in s.queue :: r.table != t)
    && (forall r | r in InHand(s.worker) :: r.table != t)
    && (s.worker.Confirming? || s.worker.SpoolTripping? ==> s.worker.rec.table != t)
    && (s.worker.ReplayConfirming? && s.worker.done < |s.wal| ==> s.wal[s.worker.done].table != t)
  }

  /** The backend takes a record of the table out of the log. */
  predicate TakesFrom(s: State, e: Event, t: string) {
    e == Replay(ReplayWrite(true)) && s.worker.Replaying? && s.worker.done < |s.wal| && s.wal[s.worker.done].table == t
  }

  lemma StepWaits(cfg: Config, s: State, e: Event, t: string)
    requires OnlyLogged(s, t) && StateOf(s.breakers, t) == HalfOpen && Enabled(cfg, s, e) && !TakesFrom(s, e, t)
    ensures OnlyLogged(Next(cfg, s, e), t) && StateOf(Next(cfg, s, e).breakers, t) == HalfOpen
  {
    match e
    case Caller(c, step) => CallWaits(cfg, s, c, step, t);
    case Drain(step) => DrainWaits(cfg, s, step, t);
    case Try(step) => TryWaits(cfg, s, step, t);
    case Spool(step) => SpoolWaits(cfg, s, step, t);
    case Replay(step) => ReplayWaits(cfg, s, step, t);
    case Clock(_) =>
  }

  lemma CallWaits(cfg: Config, s: State, c: nat, e: CallStep, t: string)
    requires OnlyLogged(s, t) && StateOf(s.breakers, t) == HalfOpen && CallEnabled(cfg, s, c, e)
    ensures OnlyLogged(CallNext(cfg, s, c, e), t) && StateOf(CallNext(cfg, s, c, e).breakers, t) == HalfOpen
  {
  }

  lemma DrainWaits(cfg: Config, s: State, e: DrainStep, t: string)
    requires OnlyLogged(s, t) && StateOf(s.breakers, t) == HalfOpen && DrainEnabled(cfg, s, e)
    ensures OnlyLogged(DrainNext(cfg, s, e), t) && StateOf(DrainNext(cfg, s, e).breakers, t) == HalfOpen
  {
  }

  lemma TryWaits(cfg: Config, s: State, e: TryStep, t: string)
    requires OnlyLogged(s, t) && StateOf(s.breakers, t) == HalfOpen && TryEnabled(s, e)
    ensures OnlyLogged(TryNext(cfg, s, e), t) && StateOf(TryNext(cfg, s, e).breakers, t) == HalfOpen
  {
    assert e.BackendWrite? ==> s.worker.todo[0] in InHand(s.worker);
  }

  lemma SpoolWaits(cfg: Config, s: State, e: SpoolStep, t: string)
    requires OnlyLogged(s, t) && StateOf(s.breakers, t) == HalfOpen && SpoolEnabled(s, e)
    ensures OnlyLogged(SpoolNext(cfg, s, e), t) && StateOf(SpoolNext(cfg, s, e).breakers, t) == HalfOpen
  {
  }

  lemma ReplayWaits(cfg: Config, s: State, e: ReplayStep, t: string)
    requires OnlyLogged(s, t) && StateOf(s.breakers, t) == HalfOpen && ReplayEnabled(s, e) && !TakesFrom(s, Replay(e), t)
    ensures OnlyLogged(ReplayNext(cfg, s, e), t) && StateOf(ReplayNext(cfg, s, e).breakers, t) == HalfOpen
  {
  }

  /** Some event of the run takes a record of the table out of the log. */
  ghost predicate TakenDuring(cfg: Config, s: State, events: seq<Event>, t: string)
    requires CanRun(cfg, s, events)
    decreases |events|
  {
    events != [] && (TakesFrom(s, events[0], t) || TakenDuring(cfg, Next(cfg, s, events[0]), events[1..], t))
  }

  /**
   Over every run: once all pending writes of a half-open table are in the log, the table stays
   half-open, and none of its writes is admitted, until the backend takes one of those records.
   */
  lemma {:induction false} HalfOpenUntilTaken(cfg: Config, s: State, events: seq<Event>, t: string)
    requires OnlyLogged(s, t) && StateOf(s.breakers, t) == HalfOpen && CanRun(cfg, s, events)
    ensures HalfOpenThroughout(cfg, s, events, t) || TakenDuring(cfg, s, events, t)
    ensures !TakenDuring(cfg, s, events, t) ==>
              HalfOpenThroughout(cfg, s, events, t) && Admissions(cfg, s, events, t) == 0 && OnlyLogged(Final(cfg, s, events), t)
    decreases |events|
  {
    hide Next, Enabled, OnlyLogged, TakesFrom, StateOf, Admits;
    if events != [] && !TakesFrom(s, events[0], t) {
      StepWaits(cfg, s, events[0], t);
      HalfOpenUntilTaken(cfg, Next(cfg, s, events[0]), events[1..], t);
    }
    if !TakenDuring(cfg, s, events, t) {
      NoMoreWhileHalfOpen(cfg, s, events, t);
    }
  }

  // ---- A head that is refused ----

  /** The worker is not past the head of the log. */
  predicate AtHead(w: Worker) {
    !w.ReplayConfirming? && (w.Replaying? ==> w.done == 0)
  }

  /** Whenever the head of the log is tried, the backend refuses it. */
  ghost predicate HeadRefused(cfg: Config, s: State, events: seq<Event>)
    requires CanRun(cfg, s, events)
    decreases |events|
  {
    events == [] ||
    (&& (events[0] == Replay(ReplayWrite(true)) && s.worker.Replaying? ==> s.worker.done != 0)
     && HeadRefused(cfg, Next(cfg, s, events[0]), events[1..]))
  }

  lemma StepAtHead(cfg: Config, s: State, e: Event)
    requires AtHead(s.worker) && s.wal != [] && Enabled(cfg, s, e)
    requires e == Replay(ReplayWrite(true)) && s.worker.Replaying? ==> s.worker.done != 0
    ensures AtHead(Next(cfg, s, e).worker) && s.wal <= Next(cfg, s, e).wal
  {
    hide Allow, OnSuccess, OnFailure, Trip;
    match e
    case Caller(c, step) => assert s.wal <= CallNext(cfg, s, c, step).wal && CallNext(cfg, s, c, step).worker == s.worker;
    case Drain(step) => assert DrainNext(cfg, s, step).wal == s.wal && !LogLocked(DrainNext(cfg, s, step).worker);
    case Try(step) => assert TryNext(cfg, s, step).wal == s.wal && !LogLocked(TryNext(cfg, s, step).worker);
    case Spool(step) => SpoolAppends(cfg, s, step);
    case Replay(step) => ReplayAtHead(cfg, s, step);
    case Clock(_) =>
  }

  lemma ReplayAtHead(cfg: Config, s: State, e: ReplayStep)
    requires ReplayEnabled(s, e) && AtHead(s.worker) && s.wal != []
    requires e == ReplayWrite(true) && s.worker.Replaying? ==> s.worker.done != 0
    ensures AtHead(ReplayNext(cfg, s, e).worker) && s.wal == ReplayNext(cfg, s, e).wal
  {
    hide OnSuccess;
  }

  /**
   Over every run: as long as the backend refuses the head, every record stays in the log, and
   a half-open table whose pending writes are all behind it stays half-open, although the
   backend might take them.
   */
  lemma {:induction false} RefusedHeadBlocksTheLog(cfg: Config, s: State, events: seq<Event>, t: string)
    requires AtHead(s.worker) && s.wal != [] && CanRun(cfg, s, events) && HeadRefused(cfg, s, events)
    ensures s.wal <= Final(cfg, s, events).wal && !TakenDuring(cfg, s, events, t)
    ensures OnlyLogged(s, t) && StateOf(s.breakers, t) == HalfOpen ==> HalfOpenThroughout(cfg, s, events, t)
    decreases |events|
  {
    hide Next, Enabled, OnlyLogged, StateOf;
    if events != [] {
      StepAtHead(cfg, s, events[0]);
      RefusedHeadBlocksTheLog(cfg, Next(cfg, s, events[0]), events[1..], t);
    }
    if OnlyLogged(s, t) && StateOf(s.breakers, t) == HalfOpen {
      HalfOpenUntilTaken(cfg, s, events, t);
    }
  }

  /** Such a run is possible for any length: the worker goes on trying, and nothing moves. */
  lemma {:induction false} TicksChangeNothing(cfg: Config, s: State, n: nat)
    requires cfg.walEnabled && s.worker == Idle && s.queue == [] && s.wal != []
    ensures CanRun(cfg, s, Ticks(n)) && Final(cfg, s, Ticks(n)) == s
  {
    hide CanRun, Final;
    if n == 0 {
      NoSteps(cfg, s);
    } else {
      TicksChangeNothing(cfg, s, n - 1);
      var e1, e2, e3 := Replay(TickEmpty), Replay(BeginReplay(true)), Replay(ReplayWrite(false));
      RunOn(cfg, s, Ticks(n - 1), e1);
      RunOn(cfg, s, Ticks(n - 1) + [e1], e2);
      RunOn(cfg, s, Ticks(n - 1) + [e1] + [e2], e3);
      assert Ticks(n) == Ticks(n - 1) + [e1] + [e2] + [e3];
    }
  }

  function Ticks(n: nat): seq<Event> {
    if n == 0 then [] else Ticks(n - 1) + [Replay(TickEmpty), Replay(BeginReplay(true)), Replay(ReplayWrite(false))]
  }

  /** The state that the witness reaches is one of those that wait. */
  lemma WaitingIsOnlyLogged(s: State, u: string, t: string)
    requires Waiting(s, u, t)
    ensures OnlyLogged(s, t) && AtHead(s.worker) && s.wal != []
  {
  }
}

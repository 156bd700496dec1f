/**
 What a dead letter does to its table: it opens, once for each batch, and lets no write through
 until a cooldown has passed or a success of the table is reported.
 */
module StoreTrips {
  import opened Breaker
  import opened Store
  import opened StoreProofs
  import opened StoreReplay

  /** The table is open, as of `at`. */
  predicate OpenSince(s: State, t: string, at: int) {
    t in s.breakers.states && s.breakers.states[t] == Open && t in s.breakers.openAt && s.breakers.openAt[t] == at
  }

  // ---- Open means refused ----

  /** The step tells the breaker that the backend took a write of the table. */
  predicate Succeeds(s: State, e: Event, t: string) {
    || (e == Try(Confirm) && s.worker.Confirming? && s.worker.rec.table == t)
    || (e == Replay(ReplayConfirm) && s.worker.ReplayConfirming? && s.worker.done < |s.wal| && s.wal[s.worker.done].table == t)
  }

  ghost predicate SucceedsDuring(cfg: Config, s: State, events: seq<Event>, t: string)
    requires CanRun(cfg, s, events)
    decreases |events|
  {
    events != [] && (Succeeds(s, events[0], t) || SucceedsDuring(cfg, Next(cfg, s, events[0]), events[1..], t))
  }

  /** Open as of some moment from `at` on. */
  ghost predicate OpenFrom(s: State, t: string, at: int) {
    exists a :: at <= a <= s.now && OpenSince(s, t, a)
  }

  /** Within the cooldown no step but a success changes that, and no write of the table gets into the store. */
  lemma StepKeepsOpen(cfg: Config, s: State, e: Event, t: string, at: int)
    requires OpenFrom(s, t, at) && Enabled(cfg, s, e) && !Succeeds(s, e, t) && s.now < at + cfg.cooldown
    ensures var s' := Next(cfg, s, e);
            OpenFrom(s', t, at) && s.now <= s'.now && !Admits(cfg, s, e, t) && (e.Caller? && e.call == AllowStep(t) ==> s' == s)
  {
    hide OpenSince, Allow;
    var a :| at <= a <= s.now && OpenSince(s, t, a);
    match e
    case Caller(c, step) => CallKeepsOpen(cfg, s, c, step, t, a);
    case Drain(step) => SameBreakers(s, DrainNext(cfg, s, step), t, a);
    case Try(step) => TryKeepsOpen(cfg, s, step, t, a);
    case Spool(step) => SpoolKeepsOpen(cfg, s, step, t, a);
    case Replay(step) => ReplayKeepsOpen(cfg, s, step, t, a);
    case Clock(_) => SameBreakers(s, Next(cfg, s, e), t, a);
  }

  lemma SameBreakers(s: State, s': State, t: string, at: int)
    requires OpenSince(s, t, at) && s'.breakers == s.breakers
    ensures OpenSince(s', t, at)
  {
  }

  lemma CallKeepsOpen(cfg: Config, s: State, c: nat, e: CallStep, t: string, at: int)
    requires OpenSince(s, t, at) && CallEnabled(cfg, s, c, e) && s.now < at + cfg.cooldown
    ensures OpenSince(CallNext(cfg, s, c, e), t, at) || OpenSince(CallNext(cfg, s, c, e), t, s.now)
    ensures CallNext(cfg, s, c, e).now == s.now && !Allow(s.breakers, t, s.now, cfg.cooldown).admitted
    ensures e == AllowStep(t) ==> CallNext(cfg, s, c, e) == s
  {
  }

  lemma TryKeepsOpen(cfg: Config, s: State, e: TryStep, t: string, at: int)
    requires OpenSince(s, t, at) && TryEnabled(s, e) && !Succeeds(s, Try(e), t)
    ensures OpenSince(TryNext(cfg, s, e), t, at) && TryNext(cfg, s, e).now == s.now
  {
  }

  lemma ReplayKeepsOpen(cfg: Config, s: State, e: ReplayStep, t: string, at: int)
    requires OpenSince(s, t, at) && ReplayEnabled(s, e) && !Succeeds(s, Replay(e), t)
    ensures OpenSince(ReplayNext(cfg, s, e), t, at) && ReplayNext(cfg, s, e).now == s.now
  {
  }

  lemma SpoolKeepsOpen(cfg: Config, s: State, e: SpoolStep, t: string, at: int)
    requires OpenSince(s, t, at) && SpoolEnabled(s, e)
    ensures OpenSince(SpoolNext(cfg, s, e), t, at) || OpenSince(SpoolNext(cfg, s, e), t, s.now)
    ensures SpoolNext(cfg, s, e).now == s.now
  {
  }

  lemma {:induction false} NowGrows(cfg: Config, s: State, events: seq<Event>)
    requires CanRun(cfg, s, events)
    ensures s.now <= Final(cfg, s, events).now
    decreases |events|
  {
    hide Enabled, Next;
    if events != [] {
      StepGrows(cfg, s, events[0]);
      NowGrows(cfg, Next(cfg, s, events[0]), events[1..]);
    }
  }

  lemma StepGrows(cfg: Config, s: State, e: Event)
    requires Enabled(cfg, s, e)
    ensures s.now <= Next(cfg, s, e).now
  {
    hide Allow, Trip, OnSuccess, OnFailure;
    match e
    case Caller(c, step) => assert CallNext(cfg, s, c, step).now == s.now;
    case Drain(step) => assert DrainNext(cfg, s, step).now == s.now;
    case Try(step) => assert TryNext(cfg, s, step).now == s.now;
    case Spool(step) => assert SpoolNext(cfg, s, step).now == s.now;
    case Replay(step) => assert ReplayNext(cfg, s, step).now == s.now;
    case Clock(_) =>
  }

  /** Every write of the table that comes during the run is turned away at once. */
  ghost predicate TurnedAway(cfg: Config, s: State, events: seq<Event>, t: string)
    requires CanRun(cfg, s, events)
    decreases |events|
  {
    events != [] ==>
      && (events[0].Caller? && events[0].call == AllowStep(t) ==> Next(cfg, s, events[0]) == s)
      && TurnedAway(cfg, Next(cfg, s, events[0]), events[1..], t)
  }

  /**
   Over every run that ends within a cooldown of the table's opening, with no success of it
   reported: every write of the table is refused.
   */
  lemma {:induction false} RefusedForCooldown(cfg: Config, s: State, events: seq<Event>, t: string, at: int)
    requires OpenFrom(s, t, at) && CanRun(cfg, s, events) && !SucceedsDuring(cfg, s, events, t)
    requires Final(cfg, s, events).now < at + cfg.cooldown
    ensures Admissions(cfg, s, events, t) == 0 && TurnedAway(cfg, s, events, t) && OpenFrom(Final(cfg, s, events), t, at)
    decreases |events|
  {
    hide Enabled, Next, OpenFrom, Succeeds, Admits;
    if events != [] {
      NowGrows(cfg, s, events);
      StepKeepsOpen(cfg, s, events[0], t, at);
      RefusedForCooldown(cfg, Next(cfg, s, events[0]), events[1..], t, at);
    }
  }

  // ---- Dead letters of a batch ----

  /** The worker gives up on a write of the table. */
  predicate GivesUp(cfg: Config, s: State, e: Event, t: string) {
    s.worker.Spooling? && s.worker.left != [] && s.worker.left[0].table == t &&
    e.Spool? && e.spool.SpoolOne? && !(cfg.walEnabled && e.spool.walOk)
  }

  /** The step opens the table, as of now. */
  predicate Opens(cfg: Config, s: State, e: Event, t: string)
    requires Enabled(cfg, s, e)
  {
    e == Spool(SpoolTrip) && OpenSince(Next(cfg, s, e), t, s.now)
  }

  ghost function GivenUp(cfg: Config, s: State, events: seq<Event>, t: string): nat
    requires CanRun(cfg, s, events)
    decreases |events|
  {
    if events == [] then 0
    else (if GivesUp(cfg, s, events[0], t) then 1 else 0) + GivenUp(cfg, Next(cfg, s, events[0]), events[1..], t)
  }

  /** How often the worker opens the table. */
  ghost function Openings(cfg: Config, s: State, events: seq<Event>, t: string): nat
    requires CanRun(cfg, s, events)
    decreases |events|
  {
    if events == [] then 0
    else (if s.worker.SpoolTripping? && s.worker.rec.table == t && Opens(cfg, s, events[0], t) then 1 else 0) +
         Openings(cfg, Next(cfg, s, events[0]), events[1..], t)
  }

  /** The run does not go past the end of a batch's spooling. */
  predicate Spools(events: seq<Event>) {
    Spool(SpoolDone) !in events
  }

  predicate InSpool(w: Worker) {
    w.Spooling? || w.SpoolTripping?
  }

  /** Whether the table was opened for this batch, and whether it is about to be. */
  function Done(w: Worker, t: string): nat {
    if InSpool(w) && t in w.tripped then 1 else 0
  }

  function Owed(w: Worker, t: string): nat {
    if w.SpoolTripping? && w.rec.table == t then 1 else 0
  }

  /** A table is not opened twice for one batch. */
  predicate OnceEach(w: Worker) {
    w.SpoolTripping? ==> w.rec.table !in w.tripped
  }

  lemma NotTwice(w: Worker, t: string)
    requires OnceEach(w)
    ensures Done(w, t) + Owed(w, t) <= 1
  {
  }

  lemma StepInSpool(cfg: Config, s: State, e: Event, t: string)
    requires Enabled(cfg, s, e) && OnceEach(s.worker) && e != Spool(SpoolDone)
    ensures var w, w' := s.worker, Next(cfg, s, e).worker;
            && OnceEach(w')
            && Done(w', t) + Owed(w', t) == (if Done(w, t) + Owed(w, t) > 0 || GivesUp(cfg, s, e, t) then 1 else 0)
            && Done(w', t) == Done(w, t) + (if w.SpoolTripping? && w.rec.table == t && Opens(cfg, s, e, t) then 1 else 0)
            && (GivesUp(cfg, s, e, t) ==> s.worker.left[0] in Next(cfg, s, e).dead)
  {
    match e
    case Caller(c, step) => assert CallNext(cfg, s, c, step).worker == s.worker;
    case Drain(step) => assert !InSpool(s.worker) && !InSpool(DrainNext(cfg, s, step).worker);
    case Try(step) => assert !InSpool(s.worker) && !InSpool(TryNext(cfg, s, step).worker);
    case Spool(step) =>
    case Replay(step) => assert !InSpool(s.worker) && !InSpool(ReplayNext(cfg, s, step).worker);
    case Clock(_) =>
  }

  /**
   Over every run up to the end of a batch's spooling, whatever callers do meanwhile: the worker
   opens a table, as of that moment, exactly once if it gave up a write of the table and is
   past that, and never if it did not.
   */
  lemma {:induction false} OneOpeningPerBatch(cfg: Config, s: State, events: seq<Event>, t: string)
    requires CanRun(cfg, s, events) && Spools(events) && OnceEach(s.worker)
    ensures var w, w' := s.worker, Final(cfg, s, events).worker;
            && OnceEach(w')
            && Done(w', t) == Done(w, t) + Openings(cfg, s, events, t)
            && Done(w', t) + Owed(w', t) == if Done(w, t) + Owed(w, t) > 0 || GivenUp(cfg, s, events, t) > 0 then 1 else 0
    decreases |events|
  {
    hide Enabled, Next, InSpool, OnceEach, Done, Owed, GivesUp, Opens;
    if events == [] {
      NotTwice(s.worker, t);
    } else {
      assert events[0] in events && Spools(events[1..]);
      StepInSpool(cfg, s, events[0], t);
      OneOpeningPerBatch(cfg, Next(cfg, s, events[0]), events[1..], t);
    }
  }

  /** From before a batch is spooled until the worker has made the trips for what it gave up. */
  lemma GivenUpIsOpened(cfg: Config, s: State, events: seq<Event>, t: string)
    requires CanRun(cfg, s, events) && Spools(events) && !InSpool(s.worker)
    requires Final(cfg, s, events).worker.Spooling?
    ensures Openings(cfg, s, events, t) == if GivenUp(cfg, s, events, t) > 0 then 1 else 0
  {
    hide Enabled, Next, CanRun, Final;
    OneOpeningPerBatch(cfg, s, events, t);
  }

  /** The event of a run that opens the table. */
  lemma {:induction false} TheOpening(cfg: Config, s: State, events: seq<Event>, t: string) returns (k: nat)
    requires CanRun(cfg, s, events) && Openings(cfg, s, events, t) > 0
    ensures k < |events| && CanRun(cfg, s, events[..k + 1]) && CanRun(cfg, Final(cfg, s, events[..k + 1]), events[k + 1..])
    ensures var s' := Final(cfg, s, events[..k + 1]); OpenSince(s', t, s'.now)
    decreases |events|
  {
    hide Enabled, Next, OpenSince;
    var s1 := Next(cfg, s, events[0]);
    if s.worker.SpoolTripping? && s.worker.rec.table == t && Opens(cfg, s, events[0], t) {
      k := 0;
      assert events[..1] == [events[0]];
      RunOne(cfg, s, events[0]);
      TripTakesNoTime(cfg, s);
    } else {
      var j := TheOpening(cfg, s1, events[1..], t);
      k := j + 1;
      assert events[..k + 1][1..] == events[1..][..j + 1] && events[1..][j + 1..] == events[k + 1..];
    }
  }

  lemma TripTakesNoTime(cfg: Config, s: State)
    requires Enabled(cfg, s, Spool(SpoolTrip))
    ensures Next(cfg, s, Spool(SpoolTrip)).now == s.now
  {
  }

  /**
   A write of the table is given up in a batch: there is a moment in its spooling at which the
   table opens, and from then on, for a cooldown, every write of it is refused unless a success
   of it is reported.
   */
  lemma DeadLetterClosesTheDoor(cfg: Config, s: State, events: seq<Event>, more: seq<Event>, t: string) returns (k: nat)
    requires CanRun(cfg, s, events) && Spools(events) && !InSpool(s.worker)
    requires Final(cfg, s, events).worker.Spooling? && GivenUp(cfg, s, events, t) > 0
    requires CanRun(cfg, Final(cfg, s, events), more)
    ensures k < |events| && CanRun(cfg, s, events[..k + 1])
    ensures var s' := Final(cfg, s, events[..k + 1]);
            var after := events[k + 1..] + more;
            && OpenSince(s', t, s'.now) && CanRun(cfg, s', after)
            && (!SucceedsDuring(cfg, s', after, t) && Final(cfg, s', after).now < s'.now + cfg.cooldown ==>
                  Admissions(cfg, s', after, t) == 0 && TurnedAway(cfg, s', after, t))
  {
    hide Enabled, Next, CanRun, Final, OpenSince, Openings, GivenUp, SucceedsDuring, Admissions, TurnedAway;
    GivenUpIsOpened(cfg, s, events, t);
    k := TheOpening(cfg, s, events, t);
    var s' := Final(cfg, s, events[..k + 1]);
    assert events == events[..k + 1] + events[k + 1..];
    RunThen(cfg, s, events[..k + 1], events[k + 1..]);
    RunThen(cfg, s', events[k + 1..], more);
    var after := events[k + 1..] + more;
    assert OpenFrom(s', t, s'.now);
    if !SucceedsDuring(cfg, s', after, t) && Final(cfg, s', after).now < s'.now + cfg.cooldown {
      RefusedForCooldown(cfg, s', after, t, s'.now);
    }
  }

  // ---- Dead letters of a call ----

  /** A call that found the queue full and the log failing opens its table too, before it returns. */
  lemma SpillOpensTable(cfg: Config, s: State, c: nat, walOk: bool)
    requires c in s.calls && s.calls[c].Spilling? && (cfg.walEnabled ==> !LogLocked(s.worker)) && !(cfg.walEnabled && walOk)
    ensures var rec := s.calls[c].rec;
            && Enabled(cfg, s, Caller(c, AppendStep(walOk)))
            && var s' := Next(cfg, s, Caller(c, AppendStep(walOk)));
            && rec in s'.dead && c in s'.calls && s'.calls[c] == Tripping(rec)
            && forall e | Enabled(cfg, s', Caller(c, e)) ::
                 e == TripStep && OpenSince(Next(cfg, s', Caller(c, e)), rec.table, s'.now) && c !in Next(cfg, s', Caller(c, e)).calls
  {
  }
}

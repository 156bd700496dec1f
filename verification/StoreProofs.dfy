/** What every run of the store keeps: no accepted write is lost, and no breaker waits for nothing. */
module StoreProofs {
  import opened Common
  import opened Breaker
  import opened Store

  /** The records of the current batch that the worker still has to place somewhere. */
  function InHand(w: Worker): seq<Rec> {
    match w
    case Draining(batch) => batch
    case Trying(_, todo, failed) => todo + failed
    case Confirming(_, _, todo, failed) => todo + failed
    case Reopening(batch, _, _) => batch
    case Spooling(left, _) => left
    case SpoolTripping(_, left, _) => left
    case _ => []
  }

  ghost predicate Apart(a: seq<Rec>, b: seq<Rec>) {
    forall r | r in a :: r !in b
  }

  // ---- Identities ----

  /** Writes in calls are new: nobody else knows them yet. */
  ghost predicate FreshCalls(nextId: nat, calls: map<nat, Call>, accepted: set<Rec>, dead: set<Rec>, refusals: map<Rec, nat>) {
    && (forall r | r in accepted :: r.id < nextId)
    && (forall r | r in dead :: r.id < nextId)
    && (forall r | r in refusals :: r in accepted)
    && (forall c | c in calls :: calls[c].rec.id < nextId && calls[c].rec !in accepted)
    && (forall c | c in calls && !calls[c].Tripping? :: calls[c].rec !in dead)
    && (forall c, d | c in calls && d in calls && c != d :: calls[c].rec != calls[d].rec)
  }

  /** Records in memory have been accepted and not given up, and each is there once. */
  ghost predicate Distinct(queue: seq<Rec>, hand: seq<Rec>, accepted: set<Rec>, dead: set<Rec>) {
    && NoRepeats(queue) && NoRepeats(hand) && Apart(queue, hand)
    && (forall r | r in queue :: r in accepted && r !in dead)
    && (forall r | r in hand :: r in accepted && r !in dead)
  }

  lemma TakeOneInHand(queue: seq<Rec>, hand: seq<Rec>, accepted: set<Rec>, dead: set<Rec>)
    requires Distinct(queue, hand, accepted, dead) && queue != []
    ensures Distinct(queue[1..], hand + [queue[0]], accepted, dead)
  {
    assert forall r | r in queue[1..] :: r in queue;
    assert queue[0] in queue && queue[0] !in hand;
  }

  lemma AcceptInQueue(queue: seq<Rec>, hand: seq<Rec>, accepted: set<Rec>, dead: set<Rec>, r: Rec)
    requires Distinct(queue, hand, accepted, dead) && r !in accepted && r !in dead
    ensures Distinct(queue + [r], hand, accepted + {r}, dead) && Distinct(queue, hand, accepted + {r}, dead)
    ensures Distinct(queue, hand, accepted, dead + {r})
  {
    assert r !in queue && r !in hand;
  }

  /** Moving the first record of the hand to its end. */
  lemma RotateHand(queue: seq<Rec>, todo: seq<Rec>, failed: seq<Rec>, accepted: set<Rec>, dead: set<Rec>)
    requires Distinct(queue, todo + failed, accepted, dead) && todo != []
    ensures Distinct(queue, todo[1..] + (failed + [todo[0]]), accepted, dead)
  {
    var hand, hand' := todo + failed, todo[1..] + (failed + [todo[0]]);
    assert forall i | 0 <= i < |hand'| :: hand'[i] == hand[if i < |hand| - 1 then i + 1 else 0];
    forall r | r in hand' ensures r in hand {
      var i :| 0 <= i < |hand'| && hand'[i] == r;
      assert hand[if i < |hand| - 1 then i + 1 else 0] == r;
    }
    assert Apart(queue, hand');
  }

  /** Letting go of the first record of the hand, which may then be given up. */
  lemma DropFirst(queue: seq<Rec>, hand: seq<Rec>, accepted: set<Rec>, dead: set<Rec>)
    requires Distinct(queue, hand, accepted, dead) && hand != []
    ensures Distinct(queue, hand[1..], accepted, dead) && Distinct(queue, hand[1..], accepted, dead + {hand[0]})
  {
    assert forall r | r in hand[1..] :: r in hand;
    assert hand[0] !in hand[1..];
    assert hand[0] !in queue;
  }

  ghost predicate Placed(s: State) {
    && FreshCalls(s.nextId, s.calls, s.accepted, s.dead, s.refusals)
    && Distinct(s.queue, InHand(s.worker), s.accepted, s.dead)
  }

  lemma CallKeepsPlaces(cfg: Config, s: State, c: nat, e: CallStep)
    requires Placed(s) && CallEnabled(cfg, s, c, e)
    ensures Placed(CallNext(cfg, s, c, e))
  {
    hide Trip, StateOf, Allow, Distinct, FreshCalls;
    match e
    case AllowStep(table) =>
      NewCallIsFresh(s.nextId, s.calls, s.accepted, s.dead, s.refusals, c, table);
    case TripStep =>
      CallMovesOn(s.nextId, s.calls, s.accepted, s.dead, s.refusals, c);
    case SendStep | AppendStep(_) =>
      CallMovesOn(s.nextId, s.calls, s.accepted, s.dead, s.refusals, c);
      AcceptInQueue(s.queue, InHand(s.worker), s.accepted, s.dead, s.calls[c].rec);
  }

  lemma NewCallIsFresh(nextId: nat, calls: map<nat, Call>, accepted: set<Rec>, dead: set<Rec>, refusals: map<Rec, nat>, c: nat, table: string)
    requires FreshCalls(nextId, calls, accepted, dead, refusals) && c !in calls
    ensures FreshCalls(nextId + 1, calls[c := Admitted(Rec(nextId, table))], accepted, dead, refusals)
  {
  }

  lemma CallMovesOn(nextId: nat, calls: map<nat, Call>, accepted: set<Rec>, dead: set<Rec>, refusals: map<Rec, nat>, c: nat)
    requires FreshCalls(nextId, calls, accepted, dead, refusals) && c in calls
    ensures calls[c].rec !in accepted && (calls[c].Tripping? || calls[c].rec !in dead)
    ensures FreshCalls(nextId, calls - {c}, accepted + {calls[c].rec}, dead, refusals)
    ensures FreshCalls(nextId, calls - {c}, accepted, dead, refusals)
    ensures !calls[c].Tripping? ==> FreshCalls(nextId, calls[c := Spilling(calls[c].rec)], accepted, dead, refusals)
    ensures FreshCalls(nextId, calls[c := Tripping(calls[c].rec)], accepted, dead + {calls[c].rec}, refusals)
  {
  }

  lemma DrainKeepsPlaces(cfg: Config, s: State, e: DrainStep)
    requires Placed(s) && DrainEnabled(cfg, s, e)
    ensures Placed(DrainNext(cfg, s, e))
  {
    hide FreshCalls, Distinct;
    if e.DrainDone? {
      assert s.worker.batch + [] == s.worker.batch;
    } else {
      TakeOneInHand(s.queue, InHand(s.worker), s.accepted, s.dead);
      assert [] + [s.queue[0]] == [s.queue[0]];
    }
  }

  lemma TryKeepsPlaces(cfg: Config, s: State, e: TryStep)
    requires Placed(s) && TryEnabled(s, e)
    ensures Placed(TryNext(cfg, s, e))
  {
    hide OnSuccess, Distinct, FreshCalls;
    match e
    case BackendWrite(ok) => WriteKeepsPlaces(cfg, s, ok);
    case Confirm =>
    case EndPass => NothingTodo(s.worker.failed);
  }

  lemma WriteKeepsPlaces(cfg: Config, s: State, ok: bool)
    requires Placed(s) && TryEnabled(s, BackendWrite(ok))
    ensures Placed(TryNext(cfg, s, BackendWrite(ok)))
  {
    hide Distinct, FreshCalls;
    var w := s.worker;
    TodoFirst(w.todo, w.failed);
    if ok {
      DropFirst(s.queue, w.todo + w.failed, s.accepted, s.dead);
    } else {
      HandIsAccepted(s.queue, w.todo + w.failed, s.accepted, s.dead);
      RotateHand(s.queue, w.todo, w.failed, s.accepted, s.dead);
      RefusalKeepsFresh(s.nextId, s.calls, s.accepted, s.dead, s.refusals, w.todo[0], Refusals(s.refusals, w.todo[0]) + 1);
    }
  }

  lemma TodoFirst(todo: seq<Rec>, failed: seq<Rec>)
    requires todo != []
    ensures todo + failed != [] && todo[0] in todo + failed && (todo + failed)[1..] == todo[1..] + failed
  {
    assert (todo + failed)[0] == todo[0];
  }

  lemma NothingTodo(failed: seq<Rec>)
    ensures [] + failed == failed && failed + [] == failed
  {
  }

  lemma HandIsAccepted(queue: seq<Rec>, hand: seq<Rec>, accepted: set<Rec>, dead: set<Rec>)
    requires Distinct(queue, hand, accepted, dead)
    ensures forall r | r in hand :: r in accepted
  {
  }

  lemma RefusalKeepsFresh(nextId: nat, calls: map<nat, Call>, accepted: set<Rec>, dead: set<Rec>, refusals: map<Rec, nat>, r: Rec, n: nat)
    requires FreshCalls(nextId, calls, accepted, dead, refusals) && r in accepted
    ensures FreshCalls(nextId, calls, accepted, dead, refusals[r := n])
    ensures FreshCalls(nextId, calls, accepted, dead + {r}, refusals)
  {
  }

  lemma SpoolKeepsPlaces(cfg: Config, s: State, e: SpoolStep)
    requires Placed(s) && SpoolEnabled(s, e)
    ensures Placed(SpoolNext(cfg, s, e))
  {
    hide OnFailure, Trip, Distinct, FreshCalls;
    if e.SpoolOne? {
      DropFirst(s.queue, s.worker.left, s.accepted, s.dead);
      HandIsAccepted(s.queue, InHand(s.worker), s.accepted, s.dead);
      RefusalKeepsFresh(s.nextId, s.calls, s.accepted, s.dead, s.refusals, s.worker.left[0], 0);
    }
  }

  lemma ReplayKeepsPlaces(cfg: Config, s: State, e: ReplayStep)
    requires Placed(s) && ReplayEnabled(s, e)
    ensures Placed(ReplayNext(cfg, s, e))
  {
    hide OnSuccess, FreshCalls, Distinct;
  }

  // ---- No accepted write is lost ----

  ghost predicate Kept(accepted: set<Rec>, queue: seq<Rec>, hand: seq<Rec>, wal: seq<Rec>, applied: set<Rec>, dead: set<Rec>) {
    forall r | r in accepted :: r in queue || r in hand || r in wal || r in applied || r in dead
  }

  /** The part of the log that a replay has gone through is in the backend. */
  ghost predicate Replayed(w: Worker, wal: seq<Rec>, applied: set<Rec>) {
    match w
    case Replaying(done) => done <= |wal| && forall j | 0 <= j < done :: wal[j] in applied
    case ReplayConfirming(done) => done < |wal| && forall j | 0 <= j <= done :: wal[j] in applied
    case _ => true
  }

  ghost predicate NothingLost(s: State) {
    && Kept(s.accepted, s.queue, InHand(s.worker), s.wal, s.applied, s.dead)
    && Replayed(s.worker, s.wal, s.applied)
  }

  lemma CallLosesNothing(cfg: Config, s: State, c: nat, e: CallStep)
    requires NothingLost(s) && CallEnabled(cfg, s, c, e)
    ensures NothingLost(CallNext(cfg, s, c, e))
  {
    hide Trip, StateOf, Allow;
  }

  lemma DrainLosesNothing(cfg: Config, s: State, e: DrainStep)
    requires NothingLost(s) && DrainEnabled(cfg, s, e)
    ensures NothingLost(DrainNext(cfg, s, e))
  {
  }

  lemma TryLosesNothing(cfg: Config, s: State, e: TryStep)
    requires NothingLost(s) && TryEnabled(s, e)
    ensures NothingLost(TryNext(cfg, s, e))
  {
    hide OnSuccess, Refusals;
  }

  lemma SpoolLosesNothing(cfg: Config, s: State, e: SpoolStep)
    requires NothingLost(s) && SpoolEnabled(s, e)
    ensures NothingLost(SpoolNext(cfg, s, e))
  {
    hide OnFailure, Trip;
  }

  lemma ReplayLosesNothing(cfg: Config, s: State, e: ReplayStep)
    requires NothingLost(s) && ReplayEnabled(s, e)
    ensures NothingLost(ReplayNext(cfg, s, e))
  {
    hide OnSuccess;
  }

  // ---- A write is given up only after every retry ----

  ghost predicate AllRefused(rs: seq<Rec>, refusals: map<Rec, nat>, n: nat) {
    forall r | r in rs :: Refusals(refusals, r) == n
  }

  ghost predicate HandCounted(cfg: Config, w: Worker, refusals: map<Rec, nat>) {
    match w
    case Draining(batch) => AllRefused(batch, refusals, 0)
    case Trying(a, todo, failed) => a <= cfg.maxRetry && AllRefused(todo, refusals, a) && AllRefused(failed, refusals, a + 1)
    case Confirming(a, _, todo, failed) => a <= cfg.maxRetry && AllRefused(todo, refusals, a) && AllRefused(failed, refusals, a + 1)
    case Reopening(batch, _, _) => AllRefused(batch, refusals, cfg.maxRetry + 1)
    case Spooling(left, _) => AllRefused(left, refusals, cfg.maxRetry + 1)
    case SpoolTripping(_, left, _) => AllRefused(left, refusals, cfg.maxRetry + 1)
    case _ => true
  }

  ghost predicate GivenUpLate(cfg: Config, accepted: set<Rec>, dead: set<Rec>, refusals: map<Rec, nat>, walRefused: set<Rec>) {
    forall r | r in accepted && r in dead ::
      Refusals(refusals, r) == cfg.maxRetry + 1 && (r in walRefused || !cfg.walEnabled)
  }

  ghost predicate Counted(cfg: Config, s: State) {
    && AllRefused(s.queue, s.refusals, 0)
    && HandCounted(cfg, s.worker, s.refusals)
    && GivenUpLate(cfg, s.accepted, s.dead, s.refusals, s.walRefused)
  }

  lemma CallCounts(cfg: Config, s: State, c: nat, e: CallStep)
    requires Placed(s) && Counted(cfg, s) && CallEnabled(cfg, s, c, e)
    ensures Counted(cfg, CallNext(cfg, s, c, e))
  {
    hide Trip, StateOf, Allow, Distinct;
  }

  lemma DrainCounts(cfg: Config, s: State, e: DrainStep)
    requires Counted(cfg, s) && DrainEnabled(cfg, s, e)
    ensures Counted(cfg, DrainNext(cfg, s, e))
  {
    hide GivenUpLate;
  }

  lemma TryCounts(cfg: Config, s: State, e: TryStep)
    requires Placed(s) && Counted(cfg, s) && TryEnabled(s, e)
    ensures Counted(cfg, TryNext(cfg, s, e))
  {
    hide OnSuccess, FreshCalls, Distinct, AllRefused, GivenUpLate;
    if e.BackendWrite? {
      OnceInMemory(s.queue, s.worker.todo, s.worker.failed, s.accepted, s.dead);
      OneRefusal(cfg, s.queue, s.worker.todo, s.worker.failed, s.refusals, s.worker.attempt, s.accepted, s.dead, s.walRefused);
    }
    NoneRefused(s.refusals, s.worker);
  }

  lemma NoneRefused(refusals: map<Rec, nat>, w: Worker)
    ensures w.Trying? ==> AllRefused([], refusals, w.attempt + 2)
  {
  }

  lemma OneRefusal(cfg: Config, queue: seq<Rec>, todo: seq<Rec>, failed: seq<Rec>, refusals: map<Rec, nat>, a: nat,
                   accepted: set<Rec>, dead: set<Rec>, walRefused: set<Rec>)
    requires todo != [] && todo[0] !in queue && todo[0] !in todo[1..] && todo[0] !in failed && todo[0] !in dead
    requires AllRefused(queue, refusals, 0) && AllRefused(todo, refusals, a) && AllRefused(failed, refusals, a + 1)
    requires GivenUpLate(cfg, accepted, dead, refusals, walRefused)
    ensures AllRefused(todo[1..], refusals, a)
    ensures var refusals' := refusals[todo[0] := Refusals(refusals, todo[0]) + 1];
            && AllRefused(queue, refusals', 0) && AllRefused(todo[1..], refusals', a) && AllRefused(failed + [todo[0]], refusals', a + 1)
            && GivenUpLate(cfg, accepted, dead, refusals', walRefused)
  {
  }

  lemma OnceInMemory(queue: seq<Rec>, todo: seq<Rec>, failed: seq<Rec>, accepted: set<Rec>, dead: set<Rec>)
    requires Distinct(queue, todo + failed, accepted, dead) && todo != []
    ensures todo[0] !in queue && todo[0] !in todo[1..] && todo[0] !in failed && todo[0] !in dead
  {
    var hand := todo + failed;
    assert hand[0] == todo[0] && todo[0] in hand;
    assert forall i | 0 <= i < |failed| :: failed[i] == hand[|todo| + i];
    assert forall i | 0 <= i < |todo| - 1 :: todo[1..][i] == hand[i + 1];
  }

  lemma SpoolCounts(cfg: Config, s: State, e: SpoolStep)
    requires Counted(cfg, s) && SpoolEnabled(s, e)
    ensures Counted(cfg, SpoolNext(cfg, s, e))
  {
    hide OnFailure, Trip, Refusals;
  }

  lemma ReplayCounts(cfg: Config, s: State, e: ReplayStep)
    requires Counted(cfg, s) && ReplayEnabled(s, e)
    ensures Counted(cfg, ReplayNext(cfg, s, e))
  {
    hide OnSuccess, GivenUpLate, AllRefused;
  }

  // ---- A half-open breaker always has its probe on the way ----

  /** Everywhere the outcome of a write can still reach the breaker from. */
  ghost predicate OnTheWay(s: State, r: Rec) {
    || (exists c :: c in s.calls && s.calls[c].rec == r)
    || r in s.queue
    || WorkerWillReport(s.worker, r)
    || r in UnreplayedLog(s.worker, s.wal)
  }

  ghost predicate WorkerWillReport(w: Worker, r: Rec) {
    match w
    case Draining(batch) => r in batch
    case Trying(_, todo, failed) => r in todo || r in failed
    case Confirming(_, rec, todo, failed) => r == rec || r in todo || r in failed
    case Reopening(batch, _, reopened) => r in batch && r.table !in reopened
    case _ => false
  }

  function UnreplayedLog(w: Worker, wal: seq<Rec>): seq<Rec> {
    match w
    case Replaying(done) => if done <= |wal| then wal[done..] else []
    case ReplayConfirming(done) => if done <= |wal| then wal[done..] else []
    case _ => wal
  }

  ghost predicate Reopened(w: Worker) {
    w.Reopening? ==> w.done <= |w.batch| && forall j | 0 <= j < w.done :: w.batch[j].table in w.reopened
  }

  ghost predicate Probed(s: State) {
    && Reopened(s.worker)
    && forall t | StateOf(s.breakers, t) == HalfOpen ::
         t in s.probe && s.probe[t].table == t && OnTheWay(s, s.probe[t])
  }

  lemma CallKeepsProbe(cfg: Config, s: State, c: nat, e: CallStep)
    requires Probed(s) && CallEnabled(cfg, s, c, e)
    ensures Probed(CallNext(cfg, s, c, e))
  {
    var s' := CallNext(cfg, s, c, e);
    forall t | StateOf(s'.breakers, t) == HalfOpen
      ensures t in s'.probe && s'.probe[t].table == t && OnTheWay(s', s'.probe[t])
    {
      if StateOf(s.breakers, t) == HalfOpen {
        CallStaysOnTheWay(cfg, s, c, e, s.probe[t]);
      } else {
        assert s'.calls[c].rec == s'.probe[t];
      }
    }
  }

  /** A step of one call moves its own write along and leaves every other where it was. */
  lemma CallStaysOnTheWay(cfg: Config, s: State, c: nat, e: CallStep, r: Rec)
    requires CallEnabled(cfg, s, c, e) && OnTheWay(s, r)
    ensures OnTheWay(CallNext(cfg, s, c, e), r) || (e.TripStep? && s.calls[c].rec == r)
  {
    hide Trip, StateOf, Allow;
    var s' := CallNext(cfg, s, c, e);
    if d :| d in s.calls && s.calls[d].rec == r {
      assert d != c ==> d in s'.calls && s'.calls[d].rec == r;
      assert d == c && c in s'.calls ==> s'.calls[c].rec == r;
    }
  }

  lemma DrainKeepsProbe(cfg: Config, s: State, e: DrainStep)
    requires Probed(s) && DrainEnabled(cfg, s, e)
    ensures Probed(DrainNext(cfg, s, e))
  {
  }

  lemma TryKeepsProbe(cfg: Config, s: State, e: TryStep)
    requires Probed(s) && TryEnabled(s, e)
    ensures Probed(TryNext(cfg, s, e))
  {
  }

  lemma SpoolKeepsProbe(cfg: Config, s: State, e: SpoolStep)
    requires Probed(s) && SpoolEnabled(s, e)
    ensures Probed(SpoolNext(cfg, s, e))
  {
  }

  lemma ReplayKeepsProbe(cfg: Config, s: State, e: ReplayStep)
    requires Probed(s) && ReplayEnabled(s, e)
    ensures Probed(ReplayNext(cfg, s, e))
  {
    var s' := ReplayNext(cfg, s, e);
    forall t | StateOf(s'.breakers, t) == HalfOpen
      ensures t in s'.probe && s'.probe[t].table == t && OnTheWay(s', s'.probe[t])
    {
      assert StateOf(s.breakers, t) == HalfOpen;
    }
  }

  // ---- Every state of every run ----

  ghost predicate Inv(cfg: Config, s: State) {
    Placed(s) && NothingLost(s) && Counted(cfg, s) && Probed(s)
  }

  lemma StepKeepsInv(cfg: Config, s: State, e: Event)
    requires Inv(cfg, s) && Enabled(cfg, s, e)
    ensures Inv(cfg, Next(cfg, s, e))
  {
    hide Placed, NothingLost, Counted, Probed;
    match e
    case Caller(c, step) =>
      CallKeepsPlaces(cfg, s, c, step);
      CallLosesNothing(cfg, s, c, step);
      CallCounts(cfg, s, c, step);
      CallKeepsProbe(cfg, s, c, step);
    case Drain(step) =>
      DrainKeepsPlaces(cfg, s, step);
      DrainLosesNothing(cfg, s, step);
      DrainCounts(cfg, s, step);
      DrainKeepsProbe(cfg, s, step);
    case Try(step) =>
      TryKeepsPlaces(cfg, s, step);
      TryLosesNothing(cfg, s, step);
      TryCounts(cfg, s, step);
      TryKeepsProbe(cfg, s, step);
    case Spool(step) =>
      SpoolKeepsPlaces(cfg, s, step);
      SpoolLosesNothing(cfg, s, step);
      SpoolCounts(cfg, s, step);
      SpoolKeepsProbe(cfg, s, step);
    case Replay(step) =>
      ReplayKeepsPlaces(cfg, s, step);
      ReplayLosesNothing(cfg, s, step);
      ReplayCounts(cfg, s, step);
      ReplayKeepsProbe(cfg, s, step);
    case Clock(t) =>
      ClockKeepsInv(cfg, s, t);
  }

  lemma ClockKeepsInv(cfg: Config, s: State, t: int)
    requires Inv(cfg, s)
    ensures Inv(cfg, s.(now := t))
  {
    hide FreshCalls, Distinct, Kept, Replayed, HandCounted, GivenUpLate, AllRefused, Reopened;
    var s' := s.(now := t);
    forall r ensures OnTheWay(s', r) <==> OnTheWay(s, r) {
    }
  }

  lemma {:induction false} RunKeepsInv(cfg: Config, s: State, events: seq<Event>)
    requires Inv(cfg, s) && CanRun(cfg, s, events)
    ensures Inv(cfg, Final(cfg, s, events))
    decreases |events|
  {
    hide Inv, Next, Enabled;
    if events != [] {
      StepKeepsInv(cfg, s, events[0]);
      RunKeepsInv(cfg, Next(cfg, s, events[0]), events[1..]);
    }
  }

  lemma InitInv(cfg: Config)
    ensures Inv(cfg, Init())
  {
  }

  /** In every run, each write that was reported stored is still held somewhere, in the backend, or dead-lettered. */
  lemma NoAcceptedWriteIsLost(cfg: Config, events: seq<Event>)
    requires CanRun(cfg, Init(), events)
    ensures var s := Final(cfg, Init(), events);
            forall r | r in s.accepted ::
              r in s.queue || r in InHand(s.worker) || r in s.wal || r in s.applied || r in s.dead
  {
    InitInv(cfg);
    RunKeepsInv(cfg, Init(), events);
  }

  /** It is dead-lettered only after MaxRetry + 1 refusals by the backend, and with no log to keep it. */
  lemma DeadLetterIsLastResort(cfg: Config, events: seq<Event>)
    requires CanRun(cfg, Init(), events)
    ensures var s := Final(cfg, Init(), events);
            forall r | r in s.accepted && r in s.dead ::
              Refusals(s.refusals, r) == cfg.maxRetry + 1 && (r in s.walRefused || !cfg.walEnabled)
  {
    InitInv(cfg);
    RunKeepsInv(cfg, Init(), events);
  }

  /** Some write of the table is in a call, queued, in the worker's batch or logged. */
  ghost predicate Pending(s: State, t: string) {
    || (exists c :: c in s.calls && s.calls[c].rec.table == t)
    || (exists r :: r in s.queue && r.table == t)
    || (exists r :: WorkerWillReport(s.worker, r) && r.table == t)
    || (exists r :: r in s.wal && r.table == t)
  }

  /** A table is never half-open with nothing pending: once its writes have drained it is closed or open. */
  lemma HalfOpenHasPendingWrite(cfg: Config, events: seq<Event>, t: string)
    requires CanRun(cfg, Init(), events)
    requires StateOf(Final(cfg, Init(), events).breakers, t) == HalfOpen
    ensures Pending(Final(cfg, Init(), events), t)
  {
    hide Final, CanRun;
    InitInv(cfg);
    RunKeepsInv(cfg, Init(), events);
    var s := Final(cfg, Init(), events);
    var r := s.probe[t];
    assert OnTheWay(s, r) && r.table == t;
    assert forall x | x in UnreplayedLog(s.worker, s.wal) :: x in s.wal;
  }

  // ---- One probe per half-open episode ----

  predicate Admits(cfg: Config, s: State, e: Event, t: string) {
    match e
    case Caller(_, AllowStep(table)) => table == t && Allow(s.breakers, t, s.now, cfg.cooldown).admitted
    case _ => false
  }

  /** How many writes of the table the breaker lets through during a run. */
  ghost function Admissions(cfg: Config, s: State, events: seq<Event>, t: string): nat
    requires CanRun(cfg, s, events)
    decreases |events|
  {
    if events == [] then 0
    else (if Admits(cfg, s, events[0], t) then 1 else 0) + Admissions(cfg, Next(cfg, s, events[0]), events[1..], t)
  }

  /** The table is half-open before each of the events and after the last. */
  ghost predicate HalfOpenThroughout(cfg: Config, s: State, events: seq<Event>, t: string)
    requires CanRun(cfg, s, events)
    decreases |events|
  {
    && StateOf(s.breakers, t) == HalfOpen
    && (events != [] ==> HalfOpenThroughout(cfg, Next(cfg, s, events[0]), events[1..], t))
  }

  lemma {:induction false} NoMoreWhileHalfOpen(cfg: Config, s: State, events: seq<Event>, t: string)
    requires CanRun(cfg, s, events) && HalfOpenThroughout(cfg, s, events, t)
    ensures Admissions(cfg, s, events, t) == 0
    decreases |events|
  {
    hide Next, Enabled;
    if events != [] {
      NoMoreWhileHalfOpen(cfg, Next(cfg, s, events[0]), events[1..], t);
    }
  }

  /** From the step that makes a table half-open to the end of the episode exactly one write gets through. */
  lemma OneProbePerEpisode(cfg: Config, s: State, e: Event, events: seq<Event>, t: string)
    requires CanRun(cfg, s, [e] + events) && StateOf(s.breakers, t) != HalfOpen
    requires Enabled(cfg, s, e) && CanRun(cfg, Next(cfg, s, e), events)
    requires HalfOpenThroughout(cfg, Next(cfg, s, e), events, t)
    ensures Admissions(cfg, s, [e] + events, t) == 1
  {
    assert ([e] + events)[1..] == events;
    NoMoreWhileHalfOpen(cfg, Next(cfg, s, e), events, t);
    OnlyAdmissionHalfOpens(cfg, s, e, t);
  }

  /** Only letting a probe through makes a table half-open. */
  lemma OnlyAdmissionHalfOpens(cfg: Config, s: State, e: Event, t: string)
    requires Enabled(cfg, s, e)
    ensures StateOf(Next(cfg, s, e).breakers, t) in {StateOf(s.breakers, t), Closed, Open} || Admits(cfg, s, e, t)
  {
    match e
    case Caller(c, step) =>
    case Try(step) => assert StateOf(TryNext(cfg, s, step).breakers, t) in {StateOf(s.breakers, t), Closed};
    case Spool(step) => assert StateOf(SpoolNext(cfg, s, step).breakers, t) in {StateOf(s.breakers, t), Open};
    case Replay(step) => assert StateOf(ReplayNext(cfg, s, step).breakers, t) in {StateOf(s.breakers, t), Closed};
    case _ =>
  }
}

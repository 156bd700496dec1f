/** The store's queue over whole runs: it stays within its bounds, and writes reach the backend in the order they were queued. */
module StoreOrder {
  import opened Breaker
  import opened Store

  // ---- Bounds ----

  /** How many records the worker has taken and not yet placed. */
  function InHand(w: Worker): nat {
    match w
    case Draining(batch) => |batch|
    case Trying(_, todo, failed) => |todo| + |failed|
    case Confirming(_, _, todo, failed) => |todo| + |failed| + 1
    case Reopening(batch, _, _) => |batch|
    case Spooling(left, _) => |left|
    case SpoolTripping(_, left, _) => |left|
    case _ => 0
  }

  ghost predicate Bounded(cfg: Config, s: State) {
    && |s.queue| <= cfg.queueSize
    && (InHand(s.worker) <= 1 || InHand(s.worker) <= cfg.maxBatch)
    && (s.worker.Trying? || s.worker.Confirming? ==> s.worker.attempt <= cfg.maxRetry)
  }

  lemma StepKeepsBounds(cfg: Config, s: State, e: Event)
    requires Bounded(cfg, s) && Enabled(cfg, s, e)
    ensures Bounded(cfg, Next(cfg, s, e))
  {
    hide Bounded, CallNext, DrainNext, TryNext, SpoolNext, ReplayNext;
    match e
    case Caller(c, step) => CallKeepsBounds(cfg, s, c, step);
    case Drain(step) => DrainKeepsBounds(cfg, s, step);
    case Try(step) => TryKeepsBounds(cfg, s, step);
    case Spool(step) => SpoolKeepsBounds(cfg, s, step);
    case Replay(step) => ReplayKeepsBounds(cfg, s, step);
    case Clock(t) => ClockKeepsBounds(cfg, s, t);
  }

  lemma CallKeepsBounds(cfg: Config, s: State, c: nat, e: CallStep)
    requires Bounded(cfg, s) && CallEnabled(cfg, s, c, e)
    ensures Bounded(cfg, CallNext(cfg, s, c, e))
  {
    hide Allow, Trip, InHand;
  }

  lemma DrainKeepsBounds(cfg: Config, s: State, e: DrainStep)
    requires Bounded(cfg, s) && DrainEnabled(cfg, s, e)
    ensures Bounded(cfg, DrainNext(cfg, s, e))
  {
  }

  lemma TryKeepsBounds(cfg: Config, s: State, e: TryStep)
    requires Bounded(cfg, s) && TryEnabled(s, e)
    ensures Bounded(cfg, TryNext(cfg, s, e))
  {
    hide OnSuccess;
  }

  lemma SpoolKeepsBounds(cfg: Config, s: State, e: SpoolStep)
    requires Bounded(cfg, s) && SpoolEnabled(s, e)
    ensures Bounded(cfg, SpoolNext(cfg, s, e))
  {
    hide OnFailure, Trip;
  }

  lemma ReplayKeepsBounds(cfg: Config, s: State, e: ReplayStep)
    requires Bounded(cfg, s) && ReplayEnabled(s, e)
    ensures Bounded(cfg, ReplayNext(cfg, s, e))
  {
    hide OnSuccess;
  }

  lemma ClockKeepsBounds(cfg: Config, s: State, t: int)
    requires Bounded(cfg, s)
    ensures Bounded(cfg, s.(now := t))
  {
  }

  lemma {:induction false} RunKeepsBounds(cfg: Config, s: State, events: seq<Event>)
    requires Bounded(cfg, s) && CanRun(cfg, s, events)
    ensures Bounded(cfg, Final(cfg, s, events))
    decreases |events|
  {
    hide Bounded, Next, Enabled;
    if events != [] {
      StepKeepsBounds(cfg, s, events[0]);
      RunKeepsBounds(cfg, Next(cfg, s, events[0]), events[1..]);
    }
  }

  /** In every run the queue holds at most its size, a batch at most `maxBatch` records (or the one it began with), and no pass is beyond the last retry. */
  lemma QueueAndBatchAreBounded(cfg: Config, events: seq<Event>)
    requires CanRun(cfg, Init(), events)
    ensures Bounded(cfg, Final(cfg, Init(), events))
  {
    hide Final, CanRun;
    RunKeepsBounds(cfg, Init(), events);
  }

  // ---- Order ----

  /** The record a step puts into the queue, if there is room. */
  function Queued(cfg: Config, s: State, e: Event): seq<Rec> {
    if e.Caller? && e.call.SendStep? && e.c in s.calls && |s.queue| < cfg.queueSize then [s.calls[e.c].rec] else []
  }

  /** The records queued in the course of a run, in order. */
  ghost function Sent(cfg: Config, s: State, events: seq<Event>): seq<Rec>
    requires CanRun(cfg, s, events)
    decreases |events|
  {
    if events == [] then []
    else Queued(cfg, s, events[0]) + Sent(cfg, Next(cfg, s, events[0]), events[1..])
  }

  /** The records offered to the backend for the first time, in order; what became of the offer does not matter. */
  ghost function Offered(cfg: Config, s: State, events: seq<Event>): seq<Rec>
    requires CanRun(cfg, s, events)
    decreases |events|
  {
    if events == [] then []
    else FirstOffer(s, events[0]) + Offered(cfg, Next(cfg, s, events[0]), events[1..])
  }

  function FirstOffer(s: State, e: Event): seq<Rec> {
    if e.Try? && e.try_.BackendWrite? && s.worker.Trying? && s.worker.attempt == 0 && s.worker.todo != []
    then [s.worker.todo[0]] else []
  }

  /** The records in hand that were not offered yet. */
  function Ahead(w: Worker): seq<Rec> {
    match w
    case Draining(batch) => batch
    case Trying(attempt, todo, _) => if attempt == 0 then todo else []
    case Confirming(attempt, _, todo, _) => if attempt == 0 then todo else []
    case _ => []
  }

  /** `queued` came in and `offered` went out, at the two ends of one line. */
  ghost predicate InLine(s: State, s': State, queued: seq<Rec>, offered: seq<Rec>) {
    Ahead(s.worker) + s.queue + queued == offered + Ahead(s'.worker) + s'.queue
  }

  lemma CallKeepsOrder(cfg: Config, s: State, c: nat, e: CallStep)
    requires CallEnabled(cfg, s, c, e)
    ensures InLine(s, CallNext(cfg, s, c, e), Queued(cfg, s, Caller(c, e)), [])
  {
    hide Allow, Trip, Ahead;
    var s' := CallNext(cfg, s, c, e);
    assert s'.worker == s.worker && s'.queue == s.queue + Queued(cfg, s, Caller(c, e));
  }

  lemma DrainKeepsOrder(cfg: Config, s: State, e: DrainStep)
    requires DrainEnabled(cfg, s, e)
    ensures InLine(s, DrainNext(cfg, s, e), [], [])
  {
    if !e.DrainDone? {
      assert s.queue == [s.queue[0]] + s.queue[1..];
    }
  }

  lemma TryKeepsOrder(cfg: Config, s: State, e: TryStep)
    requires TryEnabled(s, e)
    ensures InLine(s, TryNext(cfg, s, e), [], FirstOffer(s, Try(e)))
  {
    hide OnSuccess;
    if e.BackendWrite? {
      assert s.worker.todo == [s.worker.todo[0]] + s.worker.todo[1..];
    }
  }

  lemma SpoolKeepsOrder(cfg: Config, s: State, e: SpoolStep)
    requires SpoolEnabled(s, e)
    ensures InLine(s, SpoolNext(cfg, s, e), [], [])
  {
    hide OnFailure, Trip;
  }

  lemma ReplayKeepsOrder(cfg: Config, s: State, e: ReplayStep)
    requires ReplayEnabled(s, e)
    ensures InLine(s, ReplayNext(cfg, s, e), [], [])
  {
    hide OnSuccess;
  }

  lemma ClockKeepsOrder(s: State, t: int)
    ensures InLine(s, s.(now := t), [], [])
  {
  }

  lemma StepKeepsOrder(cfg: Config, s: State, e: Event)
    requires Enabled(cfg, s, e)
    ensures InLine(s, Next(cfg, s, e), Queued(cfg, s, e), FirstOffer(s, e))
  {
    hide InLine, CallNext, DrainNext, TryNext, SpoolNext, ReplayNext;
    match e
    case Caller(c, step) => CallKeepsOrder(cfg, s, c, step);
    case Drain(step) => DrainKeepsOrder(cfg, s, step);
    case Try(step) => TryKeepsOrder(cfg, s, step);
    case Spool(step) => SpoolKeepsOrder(cfg, s, step);
    case Replay(step) => ReplayKeepsOrder(cfg, s, step);
    case Clock(t) => ClockKeepsOrder(s, t);
  }

  /** In every run: what was in hand and in the queue and what was queued since is, in this order, what was offered since, then what is in hand, then what is queued. */
  lemma {:induction false} FirstInFirstOffered(cfg: Config, s: State, events: seq<Event>)
    requires CanRun(cfg, s, events)
    ensures var s' := Final(cfg, s, events);
            Ahead(s.worker) + s.queue + Sent(cfg, s, events) == Offered(cfg, s, events) + Ahead(s'.worker) + s'.queue
    decreases |events|
  {
    hide Next, Enabled, Ahead, FirstOffer, Queued;
    if events != [] {
      var n := Next(cfg, s, events[0]);
      StepKeepsOrder(cfg, s, events[0]);
      FirstInFirstOffered(cfg, n, events[1..]);
      var q := Queued(cfg, s, events[0]);
      Joined(Ahead(s.worker) + s.queue, q, Sent(cfg, n, events[1..]), FirstOffer(s, events[0]), Ahead(n.worker), n.queue,
             Offered(cfg, n, events[1..]), Ahead(Final(cfg, s, events).worker), Final(cfg, s, events).queue);
    }
  }

  lemma Joined(a: seq<Rec>, q: seq<Rec>, later: seq<Rec>, o: seq<Rec>, h: seq<Rec>, n: seq<Rec>, more: seq<Rec>, h': seq<Rec>, n': seq<Rec>)
    requires a + q == o + h + n && h + n + later == more + h' + n'
    ensures a + (q + later) == (o + more) + h' + n'
  {
    assert a + (q + later) == (a + q) + later;
    assert o + h + n + later == o + (h + n + later);
    assert (o + more) + h' + n' == o + (more + h' + n');
  }

  /** From the start: the backend is offered the queued writes in the order they were queued, none left out. */
  lemma BackendSeesQueueOrder(cfg: Config, events: seq<Event>)
    requires CanRun(cfg, Init(), events)
    ensures Offered(cfg, Init(), events) <= Sent(cfg, Init(), events)
    ensures |Sent(cfg, Init(), events)| - |Offered(cfg, Init(), events)| <= cfg.queueSize + if cfg.maxBatch >= 1 then cfg.maxBatch else 1
  {
    hide CanRun, Final, Sent, Offered;
    FirstInFirstOffered(cfg, Init(), events);
    QueueAndBatchAreBounded(cfg, events);
    assert Ahead(Idle) + [] + Sent(cfg, Init(), events) == Sent(cfg, Init(), events);
  }
}

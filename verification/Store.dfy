/**
 The write-back store as a machine of its atomic steps: any number of callers in `Set` and
 `Del`, and one flush worker, share the queue, the log, the breaker and a backend that may
 refuse any write at any time.  A caller or the worker can be overtaken between two steps.
 */
module Store {
  import opened Breaker

  /** One write; `id` tells apart writes to the same key. */
  datatype Rec = Rec(id: nat, table: string)

  datatype Config = Config(queueSize: nat, maxBatch: nat, maxRetry: nat, cooldown: int, walEnabled: bool)

  /** Where a call to `enqueue` stands. */
  datatype Call =
    | Admitted(rec: Rec)      // the breaker let it through
    | Spilling(rec: Rec)      // the queue was full
    | Tripping(rec: Rec)      // dead-lettered, about to trip the breaker

  /** Where the flush worker stands. */
  datatype Worker =
    | Idle
    | Draining(batch: seq<Rec>)
    | Trying(attempt: nat, todo: seq<Rec>, failed: seq<Rec>)
    | Confirming(attempt: nat, rec: Rec, todo: seq<Rec>, failed: seq<Rec>)
    | Reopening(batch: seq<Rec>, done: nat, reopened: set<string>)
    | Spooling(left: seq<Rec>, tripped: set<string>)
    | SpoolTripping(rec: Rec, left: seq<Rec>, tripped: set<string>)
    | ReplayStart
    | Replaying(done: nat)    // holds the log's lock
    | ReplayConfirming(done: nat)

  datatype State = State(
    queue: seq<Rec>,
    wal: seq<Rec>,
    breakers: Breakers,
    now: int,
    calls: map<nat, Call>,
    worker: Worker,
    nextId: nat,
    // bookkeeping of outcomes
    accepted: set<Rec>,          // Set or Del returned success
    applied: set<Rec>,           // the backend took it at least once
    dead: set<Rec>,              // dead-lettered
    refusals: map<Rec, nat>,     // how often the backend refused it in a batch
    walRefused: set<Rec>,        // the log refused it
    probe: map<string, Rec>)     // the write admitted by the latest half-open transition

  /** The atomic sections of `enqueue` and `spill`. */
  datatype CallStep = AllowStep(table: string) | SendStep | AppendStep(walOk: bool) | TripStep

  /** `flushBatch` takes records off the queue one at a time. */
  datatype DrainStep = DrainFirst | DrainMore | DrainDone

  /** The retry loop of `writeBatch`. */
  datatype TryStep = BackendWrite(ok: bool) | Confirm | EndPass

  /** What `writeBatch` does once the retries are used up. */
  datatype SpoolStep = ReopenOne | ReopenDone | SpoolOne(walOk: bool) | SpoolTrip | SpoolDone

  /** `tryReplayWAL`, after a flush or on a tick with nothing queued. */
  datatype ReplayStep =
    TickEmpty | BeginReplay(readOk: bool) | ReplayWrite(ok: bool) | ReplayConfirm | ReplayEnd(truncateOk: bool)

  datatype Event =
    | Caller(c: nat, call: CallStep)
    | Drain(drain: DrainStep)
    | Try(try_: TryStep)
    | Spool(spool: SpoolStep)
    | Replay(replay: ReplayStep)
    | Clock(t: int)

  function Init(): State {
    State([], [], Breakers(map[], map[]), 0, map[], Idle, 0, {}, {}, {}, map[], {}, map[])
  }

  predicate LogLocked(w: Worker) {
    w.Replaying? || w.ReplayConfirming?
  }

  function Refusals(refusals: map<Rec, nat>, r: Rec): nat {
    if r in refusals then refusals[r] else 0
  }

  predicate CallEnabled(cfg: Config, s: State, c: nat, e: CallStep) {
    match e
    case AllowStep(_) => c !in s.calls
    case SendStep => c in s.calls && s.calls[c].Admitted?
    case AppendStep(_) => c in s.calls && s.calls[c].Spilling? && (cfg.walEnabled ==> !LogLocked(s.worker))
    case TripStep => c in s.calls && s.calls[c].Tripping?
  }

  function CallNext(cfg: Config, s: State, c: nat, e: CallStep): State
    requires CallEnabled(cfg, s, c, e)
  {
    match e
    case AllowStep(table) =>
      var v := Allow(s.breakers, table, s.now, cfg.cooldown);
      var rec := Rec(s.nextId, table);
      if !v.admitted then s
      else s.(breakers := v.breakers, calls := s.calls[c := Admitted(rec)], nextId := s.nextId + 1,
              probe := if StateOf(s.breakers, table) == Open then s.probe[table := rec] else s.probe)
    case SendStep =>
      var rec := s.calls[c].rec;
      if |s.queue| < cfg.queueSize
      then s.(queue := s.queue + [rec], calls := s.calls - {c}, accepted := s.accepted + {rec})
      else s.(calls := s.calls[c := Spilling(rec)])
    case AppendStep(walOk) =>
      var rec := s.calls[c].rec;
      if cfg.walEnabled && walOk
      then s.(wal := s.wal + [rec], calls := s.calls - {c}, accepted := s.accepted + {rec})
      else s.(calls := s.calls[c := Tripping(rec)], dead := s.dead + {rec})
    case TripStep =>
      s.(breakers := Trip(s.breakers, s.calls[c].rec.table, s.now), calls := s.calls - {c})
  }

  predicate DrainEnabled(cfg: Config, s: State, e: DrainStep) {
    match e
    case DrainFirst => s.worker.Idle? && s.queue != []
    case DrainMore => s.worker.Draining? && |s.worker.batch| < cfg.maxBatch && s.queue != []
    case DrainDone => s.worker.Draining? && (|s.worker.batch| >= cfg.maxBatch || s.queue == [])
  }

  function DrainNext(cfg: Config, s: State, e: DrainStep): State
    requires DrainEnabled(cfg, s, e)
  {
    match e
    case DrainFirst => s.(worker := Draining([s.queue[0]]), queue := s.queue[1..])
    case DrainMore => s.(worker := Draining(s.worker.batch + [s.queue[0]]), queue := s.queue[1..])
    case DrainDone => s.(worker := Trying(0, s.worker.batch, []))
  }

  predicate TryEnabled(s: State, e: TryStep) {
    match e
    case BackendWrite(_) => s.worker.Trying? && s.worker.todo != []
    case Confirm => s.worker.Confirming?
    case EndPass => s.worker.Trying? && s.worker.todo == []
  }

  function TryNext(cfg: Config, s: State, e: TryStep): State
    requires TryEnabled(s, e)
  {
    var w := s.worker;
    match e
    case BackendWrite(ok) =>
      var rec := w.todo[0];
      if ok then s.(worker := Confirming(w.attempt, rec, w.todo[1..], w.failed), applied := s.applied + {rec})
      else s.(worker := Trying(w.attempt, w.todo[1..], w.failed + [rec]),
              refusals := s.refusals[rec := Refusals(s.refusals, rec) + 1])
    case Confirm =>
      s.(worker := Trying(w.attempt, w.todo, w.failed), breakers := OnSuccess(s.breakers, w.rec.table))
    case EndPass =>
      if w.failed == [] then s.(worker := ReplayStart)
      else if w.attempt < cfg.maxRetry then s.(worker := Trying(w.attempt + 1, w.failed, []))
      else s.(worker := Reopening(w.failed, 0, {}))
  }

  predicate SpoolEnabled(s: State, e: SpoolStep) {
    match e
    case ReopenOne => s.worker.Reopening? && s.worker.done < |s.worker.batch|
    case ReopenDone => s.worker.Reopening? && s.worker.done >= |s.worker.batch|
    case SpoolOne(_) => s.worker.Spooling? && s.worker.left != []
    case SpoolTrip => s.worker.SpoolTripping?
    case SpoolDone => s.worker.Spooling? && s.worker.left == []
  }

  function SpoolNext(cfg: Config, s: State, e: SpoolStep): State
    requires SpoolEnabled(s, e)
  {
    var w := s.worker;
    match e
    case ReopenOne =>
      var table := w.batch[w.done].table;
      s.(worker := Reopening(w.batch, w.done + 1, w.reopened + {table}),
         breakers := if table in w.reopened then s.breakers else OnFailure(s.breakers, table, s.now))
    case ReopenDone => s.(worker := Spooling(w.batch, {}))
    case SpoolOne(walOk) =>
      var rec := w.left[0];
      if cfg.walEnabled && walOk
      then s.(worker := Spooling(w.left[1..], w.tripped), wal := s.wal + [rec])
      else s.(worker := if rec.table in w.tripped then Spooling(w.left[1..], w.tripped)
                        else SpoolTripping(rec, w.left[1..], w.tripped),
              dead := s.dead + {rec},
              walRefused := if cfg.walEnabled then s.walRefused + {rec} else s.walRefused)
    case SpoolTrip =>
      s.(worker := Spooling(w.left, w.tripped + {w.rec.table}), breakers := Trip(s.breakers, w.rec.table, s.now))
    case SpoolDone => s.(worker := ReplayStart)
  }

  predicate ReplayEnabled(s: State, e: ReplayStep) {
    match e
    case TickEmpty => s.worker.Idle? && s.queue == []
    case BeginReplay(_) => s.worker.ReplayStart?
    case ReplayWrite(_) => s.worker.Replaying? && s.worker.done < |s.wal|
    case ReplayConfirm => s.worker.ReplayConfirming? && s.worker.done < |s.wal|
    case ReplayEnd(_) => s.worker.Replaying? && s.worker.done >= |s.wal|
  }

  function ReplayNext(cfg: Config, s: State, e: ReplayStep): State
    requires ReplayEnabled(s, e)
  {
    match e
    case TickEmpty => s.(worker := ReplayStart)
    case BeginReplay(readOk) => s.(worker := if cfg.walEnabled && readOk then Replaying(0) else Idle)
    case ReplayWrite(ok) =>
      if ok then s.(worker := ReplayConfirming(s.worker.done), applied := s.applied + {s.wal[s.worker.done]})
      else s.(worker := Idle)
    case ReplayConfirm =>
      s.(worker := Replaying(s.worker.done + 1), breakers := OnSuccess(s.breakers, s.wal[s.worker.done].table))
    case ReplayEnd(truncateOk) => s.(worker := Idle, wal := if truncateOk then [] else s.wal)
  }

  predicate Enabled(cfg: Config, s: State, e: Event) {
    match e
    case Caller(c, step) => CallEnabled(cfg, s, c, step)
    case Drain(step) => DrainEnabled(cfg, s, step)
    case Try(step) => TryEnabled(s, step)
    case Spool(step) => SpoolEnabled(s, step)
    case Replay(step) => ReplayEnabled(s, step)
    case Clock(t) => t >= s.now
  }

  function Next(cfg: Config, s: State, e: Event): State
    requires Enabled(cfg, s, e)
  {
    match e
    case Caller(c, step) => CallNext(cfg, s, c, step)
    case Drain(step) => DrainNext(cfg, s, step)
    case Try(step) => TryNext(cfg, s, step)
    case Spool(step) => SpoolNext(cfg, s, step)
    case Replay(step) => ReplayNext(cfg, s, step)
    case Clock(t) => s.(now := t)
  }

  /** Every event of the list is enabled when its turn comes. */
  ghost predicate CanRun(cfg: Config, s: State, events: seq<Event>)
    decreases |events|
  {
    events == [] || (Enabled(cfg, s, events[0]) && CanRun(cfg, Next(cfg, s, events[0]), events[1..]))
  }

  ghost function Final(cfg: Config, s: State, events: seq<Event>): State
    requires CanRun(cfg, s, events)
    decreases |events|
  {
    if events == [] then s else Final(cfg, Next(cfg, s, events[0]), events[1..])
  }
}

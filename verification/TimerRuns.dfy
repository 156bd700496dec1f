/**
 The scheduler over whole runs of requests: an account that only says when each task is next
 due, what follows from it, and that the scheduler with its heap keeps to it.
 */
module TimerRuns {
  import opened Common
  import opened TimerHeap
  import opened Timers

  datatype Task = Task(at: int, every: int)

  /** The tasks still to fire, the number the next one gets, and whether new ones are taken. */
  datatype Book = Book(tasks: map<TaskId, Task>, next: TaskId, open: bool)

  /** `Tick` is one pass of the loop, with callbacks that leave the scheduler alone. */
  datatype Request = Add(when: int, every: int) | Drop(t: TaskId) | Tick(now: int) | Close

  function After(b: Book, r: Request): Book {
    match r
    case Add(when, every) =>
      if b.open then Book(b.tasks[b.next := Task(when, every)], b.next + 1, b.open) else b.(next := b.next + 1)
    case Drop(t) => b.(tasks := b.tasks - {t})
    case Tick(now) => b.(tasks := Ticked(b.tasks, b.open, now))
    case Close => b.(open := false)
  }

  /** A due task is gone, unless it is periodic and the scheduler open: then it is due one interval from now. */
  function Ticked(tasks: map<TaskId, Task>, open: bool, now: int): map<TaskId, Task> {
    map t | t in tasks && (tasks[t].at > now || (open && tasks[t].every > 0)) ::
      if tasks[t].at > now then tasks[t] else Task(now + tasks[t].every, tasks[t].every)
  }

  function AfterAll(b: Book, rs: seq<Request>): Book {
    if rs == [] then b else After(AfterAll(b, rs[..|rs| - 1]), rs[|rs| - 1])
  }

  function Begin(): Book {
    Book(map[], 1, true)
  }

  predicate Fires(b: Book, r: Request, t: TaskId) {
    r.Tick? && t in b.tasks && b.tasks[t].at <= r.now
  }

  // ---- What follows from the account ----

  /** Nobody gives the task up, closes the scheduler or lets `due` pass. */
  ghost predicate Undisturbed(rs: seq<Request>, t: TaskId, due: int) {
    forall r | r in rs :: r != Drop(t) && r != Close && (r.Tick? ==> r.now < due)
  }

  lemma {:induction false} StaysDue(b: Book, rs: seq<Request>, t: TaskId)
    requires t in b.tasks && t < b.next && Undisturbed(rs, t, b.tasks[t].at)
    ensures var b' := AfterAll(b, rs); t in b'.tasks && b'.tasks[t] == b.tasks[t] && t < b'.next && b'.open == b.open
  {
    if rs != [] {
      var n := |rs| - 1;
      assert rs[n] in rs;
      assert forall r | r in rs[..n] :: r in rs;
      StaysDue(b, rs[..n], t);
    }
  }

  /** A task fires at the first tick at or after its time, and not before. */
  lemma FiresOnTime(b: Book, rs: seq<Request>, t: TaskId, now: int)
    requires t in b.tasks && t < b.next && Undisturbed(rs, t, b.tasks[t].at)
    ensures Fires(AfterAll(b, rs), Tick(now), t) <==> now >= b.tasks[t].at
  {
    StaysDue(b, rs, t);
  }

  /** A periodic task that fired at `x` fires next at the first tick at or after `x` and one interval. */
  lemma FiresEveryInterval(b: Book, x: int, rs: seq<Request>, t: TaskId, now: int)
    requires Fires(b, Tick(x), t) && t < b.next && b.open && b.tasks[t].every > 0
    requires Undisturbed(rs, t, x + b.tasks[t].every)
    ensures Fires(AfterAll(After(b, Tick(x)), rs), Tick(now), t) <==> now >= x + b.tasks[t].every
  {
    FiresOnTime(After(b, Tick(x)), rs, t, now);
  }

  /** A task that is out is out for good. */
  lemma {:induction false} GoneForGood(b: Book, rs: seq<Request>, t: TaskId, now: int)
    requires t !in b.tasks && t < b.next
    ensures t !in AfterAll(b, rs).tasks && t < AfterAll(b, rs).next && !Fires(AfterAll(b, rs), Tick(now), t)
  {
    if rs != [] {
      GoneForGood(b, rs[..|rs| - 1], t, now);
    }
  }

  /** A task that was given up, or fired and is not periodic, or fired after the end, never fires again. */
  lemma NeverAgain(b: Book, r: Request, rs: seq<Request>, t: TaskId, now: int)
    requires t < b.next && (r == Drop(t) || (Fires(b, r, t) && (b.tasks[t].every <= 0 || !b.open)))
    ensures !Fires(AfterAll(After(b, r), rs), Tick(now), t)
  {
    GoneForGood(After(b, r), rs, t, now);
  }

  // ---- The scheduler keeps to the account ----

  ghost predicate Mirrors(b: Book, armed: set<TaskId>, fireAt: map<TaskId, int>, interval: map<TaskId, int>, nextId: TaskId, closed: bool) {
    && b.tasks.Keys == armed && b.next == nextId && b.open == !closed
    && forall t | t in b.tasks :: t in fireAt && t in interval && b.tasks[t] == Task(fireAt[t], interval[t])
  }

  lemma TickMirrors(b: Book, armed: set<TaskId>, fireAt: map<TaskId, int>, interval: map<TaskId, int>, nextId: TaskId, closed: bool,
                    keys: set<TaskId>, now: int, due: seq<TaskId>, k: nat, cancelled: set<TaskId>,
                    armed': set<TaskId>, fireAt': map<TaskId, int>, interval': map<TaskId, int>)
    requires Mirrors(b, armed, fireAt, interval, nextId, closed) && armed !! cancelled
    requires forall x :: x in due <==> x in armed && x in fireAt && fireAt[x] <= now
    requires k == if closed then 0 else |due|
    requires armed' == Armed(armed, keys, due, k, interval, keys, cancelled)
    requires Timed(armed', due, |due|, interval, fireAt', fireAt, now) && Extends(interval, interval')
    ensures Mirrors(After(b, Tick(now)), armed', fireAt', interval', nextId, closed)
  {
    hide Armed;
    var tasks := After(b, Tick(now)).tasks;
    assert due[..|due|] == due;
    forall t ensures t in tasks <==> t in armed' {
      ArmedIff(armed, keys, due, k, interval, keys, cancelled, t);
    }
    forall t | t in tasks ensures t in fireAt' && t in interval' && tasks[t] == Task(fireAt'[t], interval'[t]) {
      assert t in armed';
    }
  }

  /** Callbacks that do nothing cancel, start and close nothing. */
  lemma IdleActs(idle: nat -> seq<Action>, n: nat, closed: bool, keys: set<TaskId>, before: set<TaskId>, after: set<TaskId>)
    requires (forall i: nat :: idle(i) == []) && Cancels(keys, before, after, idle, n) && before <= keys && after <= keys
    ensures !ShutBy(idle, n) && OpenFor(idle, closed, n) == (if closed then 0 else n) && after == before
  {
    assert forall t | t in keys :: t in after <==> t in before;
  }

  /** Exactly the tasks that are due, each once, in the order of their times. */
  ghost predicate AsDue(b: Book, r: Request, fired: seq<TaskId>) {
    && (forall t :: t in fired <==> Fires(b, r, t))
    && forall i, j | 0 <= i < j < |fired| ::
         fired[i] != fired[j] && fired[i] in b.tasks && fired[j] in b.tasks && b.tasks[fired[i]].at <= b.tasks[fired[j]].at
  }

  method Serve(s: Scheduler, ghost b: Book, r: Request) returns (fired: seq<TaskId>)
    requires s.Valid() && Mirrors(b, Elems(s.heap), s.fireAt, s.interval, s.nextId, s.closed)
    modifies s
    ensures s.Valid() && Mirrors(After(b, r), Elems(s.heap), s.fireAt, s.interval, s.nextId, s.closed)
    ensures AsDue(b, r, fired)
  {
    hide Tidy, Sound, Unslotted, NotIn, Extends;
    fired := [];
    TidyFacts(s.heap, s.index, s.fireAt, s.interval, s.cancelled, s.nextId);
    match r {
      case Add(when, every) =>
        var t, wake := s.Add(when, every);
      case Drop(t) =>
        if t in s.index {
          s.Cancel(t);
        }
      case Tick(now) =>
        ghost var stale;
        fired, stale := Turn(s, b, now);
      case Close =>
        s.Close();
    }
  }

  method Turn(s: Scheduler, ghost b: Book, now: int) returns (fired: seq<TaskId>, ghost stale: seq<bool>)
    requires s.Valid() && Mirrors(b, Elems(s.heap), s.fireAt, s.interval, s.nextId, s.closed)
    modifies s
    ensures s.Valid() && Mirrors(After(b, Tick(now)), Elems(s.heap), s.fireAt, s.interval, s.nextId, s.closed)
    ensures AsDue(b, Tick(now), fired)
  {
    hide Tidy, Armed, Timed, OpenFor, After, Extends, Cancels, ShutBy;
    TidyFacts(s.heap, s.index, s.fireAt, s.interval, s.cancelled, s.nextId);
    ghost var armed, at, every, keys, c := Elems(s.heap), s.fireAt, s.interval, s.index.Keys, s.cancelled;
    assert forall x :: x in s.heap <==> x in armed;
    var idle := (i: nat) => [];
    fired, stale := s.Pass(now, idle);
    TidyFacts(s.heap, s.index, s.fireAt, s.interval, s.cancelled, s.nextId);
    IdleActs(idle, |fired|, old(s.closed), keys, c, s.cancelled);
    TickMirrors(b, armed, at, every, s.nextId, s.closed, keys, now, fired, OpenFor(idle, old(s.closed), |fired|), c,
                Elems(s.heap), s.fireAt, s.interval);
    assert forall i | 0 <= i < |fired| :: fired[i] in fired;
  }

  /** From the start, any requests: every pass fires exactly the tasks that are due by the account, in the order of their times, each once. */
  method ServeAll(rs: seq<Request>) returns (fired: seq<seq<TaskId>>)
    ensures |fired| == |rs|
    ensures forall i | 0 <= i < |rs| :: AsDue(AfterAll(Begin(), rs[..i]), rs[i], fired[i])
  {
    hide Tidy, After, AsDue;
    var s := new Scheduler();
    fired := [];
    for n := 0 to |rs|
      invariant fresh(s) && s.Valid() && |fired| == n
      invariant Mirrors(AfterAll(Begin(), rs[..n]), Elems(s.heap), s.fireAt, s.interval, s.nextId, s.closed)
      invariant forall i | 0 <= i < n :: AsDue(AfterAll(Begin(), rs[..i]), rs[i], fired[i])
    {
      ghost var b := AfterAll(Begin(), rs[..n]);
      var now := Serve(s, b, rs[n]);
      assert rs[..n + 1][..n] == rs[..n];
      fired := fired + [now];
    }
  }
}

/** The timer scheduler: tasks are added, cancelled from any slot, extracted when due and re-armed. */
module Timers {
  import opened Common
  import opened TimerHeap

  ghost predicate NotIn(h: seq<TaskId>, cancelled: set<TaskId>) {
    forall t | t in h :: t !in cancelled
  }

  /** A task outside the heap has slot -1. */
  ghost predicate Unslotted(h: seq<TaskId>, index: map<TaskId, int>) {
    forall t | t in index && t !in h :: index[t] == -1
  }

  /** The due tasks in nondecreasing fire time, none twice. */
  ghost predicate InFiringOrder(due: seq<TaskId>, at: map<TaskId, int>) {
    && (forall t | t in due :: t in at)
    && (forall i, j | 0 <= i < j < |due| :: due[i] != due[j] && at[due[i]] <= at[due[j]])
  }

  ghost predicate NoLater(due: seq<TaskId>, h: seq<TaskId>, at: map<TaskId, int>) {
    forall t, x | t in due && x in h :: t in at && x in at && at[t] <= at[x] && t != x
  }

  lemma FirstFires(h: seq<TaskId>, index: map<TaskId, int>, at: map<TaskId, int>)
    requires Sound(h, index, at) && h != []
    ensures forall x | x in h :: x in at && at[h[0]] <= at[x]
  {
    forall x | x in h ensures x in at && at[h[0]] <= at[x] {
      var i :| 0 <= i < |h| && h[i] == x;
      FirstIsEarliest(Keys(h, at, |h|), i);
    }
  }

  lemma SoundFacts(h: seq<TaskId>, index: map<TaskId, int>, at: map<TaskId, int>)
    requires Sound(h, index, at)
    ensures forall i | 0 <= i < |h| :: h[i] in at
    ensures forall x | x in h :: x in at && x in index && 0 <= index[x] < |h| && h[index[x]] == x
  {
  }

  /** After a task left the heap, the slots outside it are still -1. */
  lemma OneOut(h: seq<TaskId>, index: map<TaskId, int>, h': seq<TaskId>, index': map<TaskId, int>, t: TaskId)
    requires Unslotted(h, index) && SameElsewhere(h, index, index') && t in index' && index'[t] == -1
    requires forall x :: x in h' <==> x in h && x != t
    ensures Unslotted(h', index') && index'.Keys == index.Keys
  {
  }

  lemma OneIn(h: seq<TaskId>, index: map<TaskId, int>, h': seq<TaskId>, index': map<TaskId, int>, t: TaskId)
    requires Unslotted(h, index) && SameElsewhere(h', index, index')
    requires forall x :: x in h' <==> x in h || x == t
    ensures Unslotted(h', index') && index'.Keys == index.Keys
  {
  }

  /** Fire times of tasks outside the heap do not matter to it. */
  lemma OtherTimes(h: seq<TaskId>, index: map<TaskId, int>, at: map<TaskId, int>, t: TaskId, when: int)
    requires Sound(h, index, at) && t !in h
    ensures Sound(h, index, at[t := when])
  {
    assert Keys(h, at[t := when], |h|) == Keys(h, at, |h|);
  }

  lemma OtherSlots(h: seq<TaskId>, index: map<TaskId, int>, at: map<TaskId, int>, t: TaskId)
    requires Sound(h, index, at) && Unslotted(h, index) && t !in h
    ensures Sound(h, index[t := -1], at) && Unslotted(h, index[t := -1])
  {
    hide IsHeap;
  }

  lemma NoneDue(h: seq<TaskId>, at: map<TaskId, int>)
    ensures InFiringOrder([], at) && NoLater([], h, at)
  {
  }

  lemma NextDue(due: seq<TaskId>, h: seq<TaskId>, h': seq<TaskId>, at: map<TaskId, int>, t: TaskId)
    requires InFiringOrder(due, at) && NoLater(due, h, at) && t in h && t in at
    requires forall x | x in h :: x in at && at[t] <= at[x]
    requires forall x :: x in h' <==> x in h && x != t
    ensures InFiringOrder(due + [t], at) && NoLater(due + [t], h', at)
  {
  }

  /** Pops every task that is due: exactly those with fire time up to `now`, earliest first. */
  method Extract(h0: seq<TaskId>, index0: map<TaskId, int>, at: map<TaskId, int>, cancelled: set<TaskId>, now: int)
    returns (h: seq<TaskId>, index: map<TaskId, int>, due: seq<TaskId>)
    requires Sound(h0, index0, at) && NotIn(h0, cancelled) && Unslotted(h0, index0)
    ensures Sound(h, index, at) && NotIn(h, cancelled) && Unslotted(h, index) && index.Keys == index0.Keys
    ensures forall x :: x in h <==> x in h0 && x in at && at[x] > now
    ensures forall x :: x in due <==> x in h0 && x in at && at[x] <= now
    ensures InFiringOrder(due, at) && Elems(h) == Elems(h0) - Elems(due)
  {
    hide Sound, SameElsewhere, InFiringOrder, NoLater;
    h, index, due := h0, index0, [];
    NoneDue(h, at);
    SoundFacts(h, index, at);
    while h != [] && at[h[0]] <= now
      invariant Sound(h, index, at) && NotIn(h, cancelled) && Unslotted(h, index) && index.Keys == index0.Keys
      invariant (forall i | 0 <= i < |h| :: h[i] in at) && InFiringOrder(due, at) && NoLater(due, h, at)
      invariant forall x :: x in h0 <==> x in h || x in due
      invariant forall x | x in due :: x in at && at[x] <= now
      decreases |h|
    {
      FirstFires(h, index, at);
      var h', index', t := Pop(h, index, at);
      OneOut(h, index, h', index', t);
      SoundFacts(h', index', at);
      NextDue(due, h, h', at, t);
      h, index := h', index';
      if t !in cancelled {
        due := due + [t];
      }
    }
    if h != [] {
      FirstFires(h, index, at);
    }
    SoundFacts(h0, index0, at);
  }

  /** What a callback may do: cancel a task, arm a new one, or close the scheduler. */
  datatype Action = Stop(t: TaskId) | Start(when: int, every: int) | Shut

  ghost predicate NoStart(actions: seq<Action>) {
    forall a | a in actions :: !a.Start?
  }

  /** One of the first `n` callbacks cancels the task. */
  ghost predicate StoppedBy(actions: nat -> seq<Action>, n: nat, t: TaskId) {
    exists j: nat | j < n :: Stop(t) in actions(j)
  }

  /** One of the first `n` callbacks closes the scheduler. */
  ghost predicate ShutBy(actions: nat -> seq<Action>, n: nat) {
    exists j: nat | j < n :: Shut in actions(j)
  }

  lemma NoneActed(actions: nat -> seq<Action>)
    ensures !ShutBy(actions, 0) && forall t :: !StoppedBy(actions, 0, t)
  {
  }

  lemma OneMoreActed(actions: nat -> seq<Action>, n: nat)
    ensures ShutBy(actions, n + 1) <==> ShutBy(actions, n) || Shut in actions(n)
    ensures forall t :: StoppedBy(actions, n + 1, t) <==> StoppedBy(actions, n, t) || Stop(t) in actions(n)
  {
  }

  /** Exactly the tasks cancelled so far: those that were, and those a callback cancelled. */
  ghost predicate Cancels(keys: set<TaskId>, before: set<TaskId>, after: set<TaskId>, actions: nat -> seq<Action>, n: nat) {
    forall t | t in keys :: t in after <==> t in before || StoppedBy(actions, n, t)
  }

  lemma NoneCancelled(keys: set<TaskId>, before: set<TaskId>, actions: nat -> seq<Action>)
    ensures Cancels(keys, before, before, actions, 0) && !ShutBy(actions, 0)
  {
    NoneActed(actions);
  }

  lemma OneMoreCancelled(keys: set<TaskId>, before: set<TaskId>, mid: set<TaskId>, after: set<TaskId>, actions: nat -> seq<Action>, n: nat)
    requires Cancels(keys, before, mid, actions, n)
    requires forall t | t in keys :: t in after <==> t in mid || Stop(t) in actions(n)
    ensures Cancels(keys, before, after, actions, n + 1) && (ShutBy(actions, n + 1) <==> ShutBy(actions, n) || Shut in actions(n))
  {
    hide StoppedBy, ShutBy;
    OneMoreActed(actions, n);
  }

  /** Every task belongs to the scheduler's tables, and a cancelled one is not armed. */
  ghost predicate Tidy(heap: seq<TaskId>, index: map<TaskId, int>, fireAt: map<TaskId, int>, interval: map<TaskId, int>,
                       cancelled: set<TaskId>, nextId: TaskId) {
    && Sound(heap, index, fireAt) && Unslotted(heap, index) && NotIn(heap, cancelled)
    && fireAt.Keys == index.Keys == interval.Keys
    && (forall t | t in index :: t < nextId) && cancelled <= index.Keys
  }

  lemma TidyFacts(heap: seq<TaskId>, index: map<TaskId, int>, fireAt: map<TaskId, int>, interval: map<TaskId, int>,
                  cancelled: set<TaskId>, nextId: TaskId)
    requires Tidy(heap, index, fireAt, interval, cancelled, nextId)
    ensures Sound(heap, index, fireAt) && Unslotted(heap, index) && NotIn(heap, cancelled)
    ensures Elems(heap) <= index.Keys && Elems(heap) !! cancelled && cancelled <= index.Keys && nextId !in index
    ensures fireAt.Keys == index.Keys == interval.Keys
  {
    SoundFacts(heap, index, fireAt);
    forall x | x in Elems(heap) ensures x !in cancelled {
      assert x in heap;
    }
  }

  lemma Enrolled(heap: seq<TaskId>, index: map<TaskId, int>, fireAt: map<TaskId, int>, interval: map<TaskId, int>,
                 cancelled: set<TaskId>, nextId: TaskId, when: int, every: int)
    requires Tidy(heap, index, fireAt, interval, cancelled, nextId)
    ensures Tidy(heap, index[nextId := -1], fireAt[nextId := when], interval[nextId := every], cancelled, nextId + 1)
    ensures nextId !in heap
  {
    hide Sound;
    SoundFacts(heap, index, fireAt);
    OtherTimes(heap, index, fireAt, nextId, when);
    OtherSlots(heap, index, fireAt[nextId := when], nextId);
  }

  lemma TidyCancelled(heap: seq<TaskId>, index: map<TaskId, int>, fireAt: map<TaskId, int>, interval: map<TaskId, int>,
                      cancelled: set<TaskId>, nextId: TaskId, t: TaskId)
    requires Tidy(heap, index, fireAt, interval, cancelled, nextId) && t in index && t !in heap
    ensures Tidy(heap, index, fireAt, interval, cancelled + {t}, nextId)
  {
    hide Sound;
  }

  lemma Pushed(heap: seq<TaskId>, index: map<TaskId, int>, fireAt: map<TaskId, int>, interval: map<TaskId, int>,
               cancelled: set<TaskId>, nextId: TaskId, t: TaskId, heap': seq<TaskId>, index': map<TaskId, int>)
    requires Tidy(heap, index, fireAt, interval, cancelled, nextId) && t in index && t !in cancelled
    requires Sound(heap', index', fireAt) && SameElsewhere(heap', index, index')
    requires forall x :: x in heap' <==> x in heap || x == t
    ensures Tidy(heap', index', fireAt, interval, cancelled, nextId) && Elems(heap') == Elems(heap) + {t}
    ensures index'.Keys == index.Keys
  {
    hide Sound;
    OneIn(heap, index, heap', index', t);
  }

  lemma Pulled(heap: seq<TaskId>, index: map<TaskId, int>, fireAt: map<TaskId, int>, interval: map<TaskId, int>,
               cancelled: set<TaskId>, nextId: TaskId, t: TaskId, heap': seq<TaskId>, index': map<TaskId, int>)
    requires Tidy(heap, index, fireAt, interval, cancelled, nextId) && t in index'
    requires Sound(heap', index', fireAt) && SameElsewhere(heap, index, index') && index'[t] == -1
    requires forall x :: x in heap' <==> x in heap && x != t
    ensures Tidy(heap', index', fireAt, interval, cancelled + {t}, nextId) && Elems(heap') == Elems(heap) - {t}
    ensures index'.Keys == index.Keys
  {
    hide Sound;
    OneOut(heap, index, heap', index', t);
  }

  lemma NotArmed(heap: seq<TaskId>, index: map<TaskId, int>, fireAt: map<TaskId, int>, interval: map<TaskId, int>,
                 cancelled: set<TaskId>, nextId: TaskId, t: TaskId)
    requires Tidy(heap, index, fireAt, interval, cancelled, nextId) && t in index
    ensures t in heap <==> 0 <= index[t] < |heap|
    ensures 0 <= index[t] < |heap| ==> heap[index[t]] == t
    ensures t !in heap ==> Tidy(heap, index, fireAt, interval, cancelled + {t}, nextId)
  {
    SoundFacts(heap, index, fireAt);
  }

  lemma Retimed(heap: seq<TaskId>, index: map<TaskId, int>, fireAt: map<TaskId, int>, interval: map<TaskId, int>,
                cancelled: set<TaskId>, nextId: TaskId, t: TaskId, when: int)
    requires Tidy(heap, index, fireAt, interval, cancelled, nextId) && t in index && t !in heap
    ensures Tidy(heap, index[t := -1], fireAt[t := when], interval, cancelled, nextId)
  {
    hide Sound;
    OtherTimes(heap, index, fireAt, t, when);
    OtherSlots(heap, index, fireAt[t := when], t);
  }

  class Scheduler {
    var heap: seq<TaskId>
    var fireAt: map<TaskId, int>
    var interval: map<TaskId, int>
    var index: map<TaskId, int>
    var cancelled: set<TaskId>
    var nextId: TaskId
    var closed: bool

    ghost predicate Valid()
      reads this
    {
      Tidy(heap, index, fireAt, interval, cancelled, nextId)
    }

    constructor ()
      ensures Valid() && heap == [] && !closed && cancelled == {} && index == map[] && nextId == 1
    {
      heap, fireAt, interval, index := [], map[], map[], map[];
      cancelled, nextId, closed := {}, 1, false;
    }

    /** Closing stops the loop and nothing else: armed tasks stay where they are. */
    method Close()
      modifies `closed
      ensures closed
    {
      closed := true;
    }

    /** Arms a new task and wakes the loop exactly if it is now strictly the first; a closed scheduler gives back one already cancelled. */
    method Add(when: int, every: int) returns (t: TaskId, wake: bool)
      requires Valid()
      modifies `heap, `fireAt, `interval, `index, `cancelled, `nextId
      ensures Valid() && t !in old(index) && index.Keys == old(index.Keys) + {t} && t == old(nextId) && nextId == t + 1
      ensures cancelled == old(cancelled) + if closed then {t} else {}
      ensures fireAt == old(fireAt)[t := when] && interval == old(interval)[t := every]
      ensures Elems(heap) == Elems(old(heap)) + if closed then {} else {t}
      ensures wake <==> !closed && forall x | x in old(heap) :: x in old(fireAt) && when < old(fireAt)[x]
    {
      hide Tidy, Elems;
      t := Enroll(when, every);
      if closed {
        TidyCancelled(heap, index, fireAt, interval, cancelled, nextId, t);
        cancelled := cancelled + {t};
        return t, false;
      }
      wake := Arm(t);
    }

    /** A new task, not yet armed. */
    method Enroll(when: int, every: int) returns (t: TaskId)
      requires Valid()
      modifies `fireAt, `interval, `index, `nextId
      ensures Valid() && t !in old(index) && t in index && t !in heap && t !in cancelled && index.Keys == old(index.Keys) + {t}
      ensures t == old(nextId) && nextId == t + 1
      ensures fireAt == old(fireAt)[t := when] && interval == old(interval)[t := every]
      ensures forall x | x in heap :: x in old(index)
    {
      hide Tidy, Sound, Unslotted, NotIn;
      TidyFacts(heap, index, fireAt, interval, cancelled, nextId);
      Enrolled(heap, index, fireAt, interval, cancelled, nextId, when, every);
      t := nextId;
      nextId := nextId + 1;
      fireAt, interval, index := fireAt[t := when], interval[t := every], index[t := -1];
    }

    /** Pushes a task that is not armed, and tells whether it is now strictly the first. */
    method Arm(t: TaskId) returns (first: bool)
      requires Valid() && t in index && t !in heap && t !in cancelled
      modifies `heap, `index
      ensures Valid() && index.Keys == old(index.Keys) && Elems(heap) == Elems(old(heap)) + {t}
      ensures t in fireAt && (first <==> forall x | x in old(heap) :: x in fireAt && fireAt[t] < fireAt[x])
    {
      hide Tidy, Sound, SameElsewhere, Unslotted, NotIn;
      TidyFacts(heap, index, fireAt, interval, cancelled, nextId);
      var h, ix := Push(heap, index, fireAt, t);
      Pushed(heap, index, fireAt, interval, cancelled, nextId, t, h, ix);
      WakesIff(heap, index, fireAt, h, ix, t);
      heap, index := h, ix;
      first := heap[0] == t;
    }

    /** Cancels a task wherever it is; it leaves the heap at once. */
    method Cancel(t: TaskId)
      requires Valid() && t in index
      modifies `heap, `index, `cancelled
      ensures Valid() && cancelled == old(cancelled) + {t} && index.Keys == old(index).Keys
      ensures Elems(heap) == Elems(old(heap)) - {t}
    {
      hide Tidy, Sound, SameElsewhere, Unslotted, NotIn;
      TidyFacts(heap, index, fireAt, interval, cancelled, nextId);
      NotArmed(heap, index, fireAt, interval, cancelled, nextId, t);
      if t in cancelled {
        assert t !in Elems(heap);
        return;
      }
      if index[t] >= 0 && index[t] < |heap| {
        var h, ix, out := Remove(heap, index, fireAt, index[t]);
        Pulled(heap, index, fireAt, interval, cancelled, nextId, t, h, ix);
        heap, index := h, ix;
      }
      cancelled := cancelled + {t};
    }

    /** Puts a fired periodic task back, unless it was cancelled meanwhile. */
    method Rearm(t: TaskId, when: int)
      requires Valid() && t in index && t !in heap
      modifies `heap, `fireAt, `index
      ensures Valid() && index.Keys == old(index).Keys
      ensures fireAt == if closed || t in cancelled then old(fireAt) else old(fireAt)[t := when]
      ensures Elems(heap) == Elems(old(heap)) + if closed || t in cancelled then {} else {t}
    {
      hide Tidy, Sound, SameElsewhere, Unslotted, NotIn;
      if closed || t in cancelled {
        return;
      }
      Retimed(heap, index, fireAt, interval, cancelled, nextId, t, when);
      fireAt, index := fireAt[t := when], index[t := -1];
      var first := Arm(t);
    }

    /** What a callback does: tasks it cancels leave the heap, tasks it starts join unless the scheduler is closed. */
    method Perform(actions: seq<Action>)
      requires Valid()
      modifies `heap, `fireAt, `interval, `index, `cancelled, `nextId, `closed
      ensures Valid() && old(cancelled) <= cancelled && old(index.Keys) <= index.Keys
      ensures Elems(heap) == Elems(old(heap)) + (index.Keys - old(index.Keys)) - cancelled
      ensures Extends(old(fireAt), fireAt) && Extends(old(interval), interval)
      ensures closed <==> old(closed) || Shut in actions
      ensures forall t | t in old(index.Keys) :: t in cancelled <==> t in old(cancelled) || Stop(t) in actions
      ensures NoStart(actions) ==> index.Keys == old(index.Keys) && nextId == old(nextId)
    {
      hide Tidy, Elems;
      TidyFacts(heap, index, fireAt, interval, cancelled, nextId);
      for i := 0 to |actions|
        invariant Valid() && old(cancelled) <= cancelled && old(index.Keys) <= index.Keys
        invariant Elems(heap) == Elems(old(heap)) + (index.Keys - old(index.Keys)) - cancelled
        invariant Extends(old(fireAt), fireAt) && Extends(old(interval), interval)
        invariant closed <==> old(closed) || Shut in actions[..i]
        invariant NoStart(actions) ==> index.Keys == old(index.Keys) && nextId == old(nextId)
        invariant forall t | t in old(index.Keys) :: t in cancelled <==> t in old(cancelled) || Stop(t) in actions[..i]
      {
        assert actions[..i + 1] == actions[..i] + [actions[i]];
        Act(actions[i]);
        assert Elems(heap) == Elems(old(heap)) + (index.Keys - old(index.Keys)) - cancelled;
      }
      assert actions[..|actions|] == actions;
    }

    method Act(a: Action)
      requires Valid()
      modifies `heap, `fireAt, `interval, `index, `cancelled, `nextId, `closed
      ensures Valid() && old(cancelled) <= cancelled && old(index.Keys) <= index.Keys
      ensures Elems(heap) == Elems(old(heap)) + (index.Keys - old(index.Keys)) - cancelled
      ensures Extends(old(fireAt), fireAt) && Extends(old(interval), interval)
      ensures closed <==> old(closed) || a == Shut
      ensures !a.Start? ==> index.Keys == old(index.Keys) && nextId == old(nextId)
      ensures forall t | t in old(index.Keys) :: t in cancelled <==> t in old(cancelled) || a == Stop(t)
    {
      hide Tidy, Elems;
      TidyFacts(heap, index, fireAt, interval, cancelled, nextId);
      match a {
        case Stop(t) =>
          if t in index {
            Cancel(t);
          }
        case Start(when, every) =>
          var t, wake := Add(when, every);
          assert Elems(heap) == Elems(old(heap)) + (index.Keys - old(index.Keys)) - cancelled;
        case Shut =>
          Close();
      }
    }

    /** One due task fires, and is due again one interval from now if it is periodic and the scheduler is open. */
    method Fire(t: TaskId, now: int, actions: seq<Action>)
      requires Valid() && t in index && t !in heap
      modifies `heap, `fireAt, `interval, `index, `cancelled, `nextId, `closed
      ensures Valid() && old(cancelled) <= cancelled && old(index.Keys) <= index.Keys
      ensures t in old(interval) && Extends(old(interval), interval)
      ensures Elems(heap) == Elems(old(heap)) + Again(t, old(interval)[t], closed) + (index.Keys - old(index.Keys)) - cancelled
      ensures forall x | x in old(fireAt) && x != t :: x in fireAt && fireAt[x] == old(fireAt)[x]
      ensures t in heap ==> t in fireAt && fireAt[t] == now + old(interval)[t]
      ensures closed <==> old(closed) || Shut in actions
      ensures forall x | x in old(index.Keys) :: x in cancelled <==> x in old(cancelled) || Stop(x) in actions
      ensures NoStart(actions) ==> index.Keys == old(index.Keys) && nextId == old(nextId)
    {
      hide Tidy;
      TidyFacts(heap, index, fireAt, interval, cancelled, nextId);
      Perform(actions);
      TidyFacts(heap, index, fireAt, interval, cancelled, nextId);
      assert t !in Elems(heap);
      if interval[t] > 0 && t !in cancelled {
        Rearm(t, now + interval[t]);
      }
    }

    /** The due tasks, taken out of the heap. */
    method TakeDue(now: int) returns (due: seq<TaskId>)
      requires Valid()
      modifies `heap, `index
      ensures Valid() && InFiringOrder(due, fireAt) && index.Keys == old(index.Keys) && fireAt.Keys == index.Keys == interval.Keys
      ensures forall x :: x in due <==> x in old(heap) && x in fireAt && fireAt[x] <= now
      ensures Elems(heap) == Elems(old(heap)) - Elems(due) && Elems(heap) !! cancelled
      ensures forall i | 0 <= i < |due| :: due[i] in index && due[i] in interval && due[i] !in cancelled && due[i] !in due[..i]
    {
      hide Tidy, Sound, InFiringOrder;
      TidyFacts(heap, index, fireAt, interval, cancelled, nextId);
      var h, ix;
      h, ix, due := Extract(heap, index, fireAt, cancelled, now);
      Extracted(heap, index, fireAt, interval, cancelled, nextId, h, ix);
      heap, index := h, ix;
      TidyFacts(heap, index, fireAt, interval, cancelled, nextId);
      DueOnce(due, fireAt);
      assert forall i | 0 <= i < |due| :: due[i] in due;
    }

    /**
     One pass: the due tasks fire in order, callbacks may cancel any task, start new ones and
     close the scheduler, and each periodic one that fired before that is due again one interval
     from now.  A due task fires although it was cancelled or the scheduler closed (`stale`)
     exactly when an earlier callback of the pass did so, or the scheduler was closed already.
     */
    method Pass(now: int, actions: nat -> seq<Action>) returns (due: seq<TaskId>, ghost stale: seq<bool>)
      requires Valid()
      modifies `heap, `fireAt, `interval, `index, `cancelled, `nextId, `closed
      ensures Valid() && InFiringOrder(due, old(fireAt)) && old(cancelled) <= cancelled && old(index.Keys) <= index.Keys
      ensures forall x :: x in due <==> x in old(heap) && x in old(fireAt) && old(fireAt)[x] <= now
      ensures Extends(old(interval), interval)
      ensures Elems(heap) == Armed(Elems(old(heap)), old(index.Keys), due, OpenFor(actions, old(closed), |due|), old(interval), index.Keys, cancelled)
      ensures Timed(Elems(heap), due, |due|, old(interval), fireAt, old(fireAt), now)
      ensures closed <==> old(closed) || ShutBy(actions, |due|)
      ensures Cancels(old(index.Keys), old(cancelled), cancelled, actions, |due|)
      ensures |stale| == |due| && IsStale(stale, due, actions, old(closed))
      ensures (forall j: nat :: NoStart(actions(j))) ==> index.Keys == old(index.Keys) && nextId == old(nextId)
    {
      hide Tidy, InFiringOrder, Armed, Timed, Periodic, Again, ShutBy, StoppedBy, Cancels, OpenFor, IsStale, NoStart;
      due := TakeDue(now);
      ghost var keys := index.Keys;
      NoneFired(Elems(heap), Elems(old(heap)), keys, due, old(interval), cancelled);
      NoneTimed(Elems(heap), due, interval, fireAt, now);
      NoneCancelled(keys, cancelled, actions);
      NoneStale(actions, closed, due);
      stale := [];
      for i := 0 to |due|
        invariant Valid() && old(cancelled) <= cancelled && keys <= index.Keys && Extends(old(interval), interval)
        invariant Elems(heap) == Armed(Elems(old(heap)), keys, due, OpenFor(actions, old(closed), i), old(interval), index.Keys, cancelled)
        invariant Timed(Elems(heap), due, i, old(interval), fireAt, old(fireAt), now)
        invariant Cancels(keys, old(cancelled), cancelled, actions, i) && (closed <==> old(closed) || ShutBy(actions, i))
        invariant !closed ==> OpenFor(actions, old(closed), i) == i
        invariant (forall j: nat :: NoStart(actions(j))) ==> index.Keys == keys && nextId == old(nextId)
        invariant |stale| == i && IsStale(stale, due, actions, old(closed))
      {
        CancelledIff(keys, old(cancelled), cancelled, actions, i, due[i]);
        OneMoreStale(stale, due, actions, old(closed), closed || due[i] in cancelled);
        stale := stale + [closed || due[i] in cancelled];
        NotYetArmed(Elems(old(heap)), keys, due, i, OpenFor(actions, old(closed), i), old(interval), index.Keys, cancelled);
        ghost var h, c, k, f := Elems(heap), cancelled, index.Keys, fireAt;
        Fire(due[i], now, actions(i));
        OneMoreCancelled(keys, old(cancelled), c, cancelled, actions, i);
        OneMoreOpen(actions, old(closed), i);
        OneMoreArmed(Elems(old(heap)), keys, due, i, OpenFor(actions, old(closed), i), old(interval), k, c, index.Keys, cancelled, closed);
        OneMoreTimed(h, Elems(heap), due, i, old(interval), f, fireAt, old(fireAt), now, index.Keys - k, cancelled, closed);
      }
    }
  }

  /** How many of the first `i` callbacks leave the scheduler open. */
  ghost function OpenFor(actions: nat -> seq<Action>, closed: bool, i: nat): (n: nat)
    ensures n <= i && (n > 0 ==> !closed && !ShutBy(actions, n)) && (n < i ==> closed || ShutBy(actions, n + 1))
  {
    if i == 0 || closed then 0 else if ShutBy(actions, i) then OpenFor(actions, closed, i - 1) else i
  }

  /** Which of the due tasks fired although they were cancelled or the scheduler was closed. */
  ghost predicate IsStale(stale: seq<bool>, due: seq<TaskId>, actions: nat -> seq<Action>, closed: bool)
    requires |stale| <= |due|
  {
    forall i | 0 <= i < |stale| :: stale[i] <==> closed || ShutBy(actions, i) || StoppedBy(actions, i, due[i])
  }

  lemma NoneStale(actions: nat -> seq<Action>, closed: bool, due: seq<TaskId>)
    ensures OpenFor(actions, closed, 0) == 0 && IsStale([], due, actions, closed)
  {
  }

  lemma OneMoreOpen(actions: nat -> seq<Action>, closed: bool, i: nat)
    ensures OpenFor(actions, closed, i + 1) == if closed || ShutBy(actions, i + 1) then OpenFor(actions, closed, i) else i + 1
  {
  }

  lemma OneMoreStale(stale: seq<bool>, due: seq<TaskId>, actions: nat -> seq<Action>, closed: bool, b: bool)
    requires |stale| < |due| && IsStale(stale, due, actions, closed)
    requires b <==> closed || ShutBy(actions, |stale|) || StoppedBy(actions, |stale|, due[|stale|])
    ensures IsStale(stale + [b], due, actions, closed)
  {
  }

  lemma CancelledIff(keys: set<TaskId>, before: set<TaskId>, cancelled: set<TaskId>, actions: nat -> seq<Action>, n: nat, t: TaskId)
    requires Cancels(keys, before, cancelled, actions, n) && t in keys && t !in before
    ensures t in cancelled <==> StoppedBy(actions, n, t)
  {
  }

  /** The armed tasks once the due ones are out and the first `k` of them have fired on an open scheduler. */
  ghost function Armed(before: set<TaskId>, keys: set<TaskId>, due: seq<TaskId>, k: nat, interval: map<TaskId, int>,
                       now: set<TaskId>, cancelled: set<TaskId>): set<TaskId>
    requires k <= |due|
  {
    before - Elems(due) + Periodic(Elems(due[..k]), interval) + (now - keys) - cancelled
  }

  /** Who is armed after a pass: not cancelled, and armed before without being due, or periodic and fired in time, or new. */
  lemma ArmedIff(before: set<TaskId>, keys: set<TaskId>, due: seq<TaskId>, k: nat, interval: map<TaskId, int>,
                 now: set<TaskId>, cancelled: set<TaskId>, t: TaskId)
    requires k <= |due|
    ensures t in Armed(before, keys, due, k, interval, now, cancelled) <==>
            && t !in cancelled
            && (|| (t in before && t !in due)
                || (t in interval && interval[t] > 0 && exists i | 0 <= i < k :: due[i] == t)
                || (t in now && t !in keys))
  {
    assert forall i | 0 <= i < k :: due[..k][i] == due[i];
  }

  lemma NoneFired(heap: set<TaskId>, before: set<TaskId>, keys: set<TaskId>, due: seq<TaskId>, interval: map<TaskId, int>,
                  cancelled: set<TaskId>)
    requires heap == before - Elems(due) && heap !! cancelled
    ensures heap == Armed(before, keys, due, 0, interval, keys, cancelled)
  {
  }

  lemma NoneTimed(heap: set<TaskId>, due: seq<TaskId>, interval: map<TaskId, int>, fireAt: map<TaskId, int>, now: int)
    ensures Timed(heap, due, 0, interval, fireAt, fireAt, now)
  {
  }

  lemma NotYetArmed(before: set<TaskId>, keys: set<TaskId>, due: seq<TaskId>, i: nat, k: nat, interval: map<TaskId, int>,
                    now: set<TaskId>, cancelled: set<TaskId>)
    requires k <= i < |due| && due[i] in keys && due[i] !in due[..i]
    ensures due[i] !in Armed(before, keys, due, k, interval, now, cancelled)
  {
    assert forall x | x in due[..k] :: x in due[..i];
  }

  lemma OneMoreArmed(before: set<TaskId>, keys: set<TaskId>, due: seq<TaskId>, i: nat, k: nat, interval: map<TaskId, int>,
                     now: set<TaskId>, cancelled: set<TaskId>, now': set<TaskId>, cancelled': set<TaskId>, closed: bool)
    requires k <= i < |due| && (!closed ==> k == i) && due[i] in interval && cancelled <= cancelled' && keys <= now <= now'
    ensures Armed(before, keys, due, if closed then k else i + 1, interval, now', cancelled') ==
            Armed(before, keys, due, k, interval, now, cancelled) + Again(due[i], interval[due[i]], closed) + (now' - now) - cancelled'
  {
    if !closed {
      assert due[..i + 1] == due[..i] + [due[i]];
      assert Periodic(Elems(due[..i + 1]), interval) == Periodic(Elems(due[..i]), interval) + Again(due[i], interval[due[i]], closed);
    }
  }

  /** Fired tasks that are armed again have their new time, and others the time they had. */
  ghost predicate Timed(heap: set<TaskId>, due: seq<TaskId>, i: nat, interval: map<TaskId, int>,
                        fireAt: map<TaskId, int>, before: map<TaskId, int>, now: int)
    requires i <= |due|
  {
    && (forall x | x in heap && x in due[..i] :: x in fireAt && x in interval && fireAt[x] == now + interval[x])
    && (forall x | x in before && x !in due :: x in fireAt && fireAt[x] == before[x])
  }

  lemma OneMoreTimed(heap: set<TaskId>, heap': set<TaskId>, due: seq<TaskId>, i: nat, interval: map<TaskId, int>,
                     fireAt: map<TaskId, int>, fireAt': map<TaskId, int>, before: map<TaskId, int>, now: int,
                     begun: set<TaskId>, cancelled: set<TaskId>, closed: bool)
    requires i < |due| && due[i] in interval && Timed(heap, due, i, interval, fireAt, before, now)
    requires heap' == heap + Again(due[i], interval[due[i]], closed) + begun - cancelled
    requires forall x | x in due :: x !in begun
    requires forall x | x in fireAt && x != due[i] :: x in fireAt' && fireAt'[x] == fireAt[x]
    requires due[i] in heap' ==> due[i] in fireAt' && fireAt'[due[i]] == now + interval[due[i]]
    ensures Timed(heap', due, i + 1, interval, fireAt', before, now)
  {
    assert due[..i + 1] == due[..i] + [due[i]];
    forall x | x in heap' && x in due[..i + 1] ensures x in fireAt' && x in interval && fireAt'[x] == now + interval[x] {
      if x != due[i] {
        assert x in due[..i] && x in due;
      }
    }
  }

  lemma WakesIff(h: seq<TaskId>, index: map<TaskId, int>, at: map<TaskId, int>, h': seq<TaskId>, index': map<TaskId, int>, t: TaskId)
    requires Sound(h, index, at) && Sound(h', index', at) && t !in h && t in at
    requires (forall x :: x in h' <==> x in h || x == t) && h' != []
    requires h == [] || h'[0] == h[0] || (h[0] in at && at[t] < at[h[0]])
    ensures h'[0] == t <==> forall x | x in h :: x in at && at[t] < at[x]
  {
    hide Sound;
    SoundFacts(h, index, at);
    FirstFires(h', index', at);
    if h != [] {
      FirstFires(h, index, at);
    }
  }

  /** Nothing known before is changed. */
  ghost predicate Extends(a: map<TaskId, int>, b: map<TaskId, int>) {
    forall x | x in a :: x in b && b[x] == a[x]
  }

  /** A task armed again after it fired. */
  function Again(t: TaskId, every: int, closed: bool): set<TaskId> {
    if every > 0 && !closed then {t} else {}
  }

  function Periodic(ts: set<TaskId>, interval: map<TaskId, int>): set<TaskId> {
    set t | t in ts && t in interval && interval[t] > 0
  }

  lemma Extracted(heap: seq<TaskId>, index: map<TaskId, int>, fireAt: map<TaskId, int>, interval: map<TaskId, int>,
                  cancelled: set<TaskId>, nextId: TaskId, heap': seq<TaskId>, index': map<TaskId, int>)
    requires Tidy(heap, index, fireAt, interval, cancelled, nextId)
    requires Sound(heap', index', fireAt) && NotIn(heap', cancelled) && Unslotted(heap', index') && index'.Keys == index.Keys
    ensures Tidy(heap', index', fireAt, interval, cancelled, nextId)
  {
    hide Sound;
  }

  lemma DueOnce(due: seq<TaskId>, at: map<TaskId, int>)
    requires InFiringOrder(due, at)
    ensures forall i | 0 <= i < |due| :: due[i] !in due[..i]
  {
  }

  lemma TwoDue(due: seq<TaskId>, at: map<TaskId, int>, a: TaskId, b: TaskId)
    requires InFiringOrder(due, at) && a in at && b in at && at[a] < at[b]
    requires forall x :: x in due <==> x == a || x == b
    ensures due == [a, b]
  {
    assert a in due && b in due;
    var i :| 0 <= i < |due| && due[i] == a;
    var j :| 0 <= j < |due| && due[j] == b;
    assert forall k | 0 <= k < |due| :: due[k] in due && (due[k] == a <==> k == i) && (due[k] == b <==> k == j);
    assert i < j;
    assert due[0] == a && due[|due| - 1] == b;
    assert due[1] == b;
  }

  /** The first callback cancels the second task and closes the scheduler; the second callback runs all the same. */
  method CancelledTaskFires() returns (due: seq<TaskId>, cancelled: bool, closed: bool, ghost stale: seq<bool>)
    ensures |due| == 2 && cancelled && closed && stale == [false, true]
  {
    hide Tidy, InFiringOrder, Armed, Timed, OpenFor, Extends;
    var s := new Scheduler();
    var a, wakeA := s.Add(1, 0);
    var b, wakeB := s.Add(2, 0);
    ghost var at := s.fireAt;
    assert Elems(s.heap) == {a, b};
    assert forall x :: x in s.heap <==> x in Elems(s.heap);
    var actions := (i: nat) => if i == 0 then [Stop(b), Shut] else [];
    due, stale := s.Pass(2, actions);
    TwoDue(due, at, a, b);
    NoneActed(actions);
    OneMoreActed(actions, 0);
    cancelled, closed := b in s.cancelled, s.closed;
  }
}

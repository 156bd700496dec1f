/** The breaker object, and what any sequence of calls makes of it. */
module BreakerRuns {
  import opened Breaker

  // ---- Any sequence of calls ----

  datatype Call =
    | Ask(table: string, now: int)
    | Failure(table: string, now: int)
    | Force(table: string, now: int)
    | Success(table: string)

  function After(b: Breakers, c: Call, cooldown: int): Breakers {
    match c
    case Ask(table, now) => Allow(b, table, now, cooldown).breakers
    case Failure(table, now) => OnFailure(b, table, now)
    case Force(table, now) => Trip(b, table, now)
    case Success(table) => OnSuccess(b, table)
  }

  function AfterAll(b: Breakers, calls: seq<Call>, cooldown: int): Breakers {
    if calls == [] then b else After(AfterAll(b, calls[..|calls| - 1], cooldown), calls[|calls| - 1], cooldown)
  }

  /** Whether call `i` is a write that is let through. */
  predicate Admits(b: Breakers, calls: seq<Call>, cooldown: int, i: nat)
    requires i < |calls|
  {
    calls[i].Ask? && Allow(AfterAll(b, calls[..i], cooldown), calls[i].table, calls[i].now, cooldown).admitted
  }

  /** Call `i` asks for the table at least a cooldown after it opened. */
  predicate Due(b: Breakers, table: string, calls: seq<Call>, cooldown: int, i: nat)
    requires table in b.openAt && i < |calls|
  {
    calls[i].table == table && calls[i].Ask? && calls[i].now - b.openAt[table] >= cooldown
  }

  /** Tables do not disturb one another. */
  lemma OthersUntouched(b: Breakers, c: Call, cooldown: int, table: string)
    requires c.table != table
    ensures var b' := After(b, c, cooldown);
            && StateOf(b', table) == StateOf(b, table)
            && (table in b'.openAt <==> table in b.openAt)
            && (table in b.openAt ==> b'.openAt[table] == b.openAt[table])
  {
  }

  lemma {:induction false} OpenUntilDue(b: Breakers, table: string, calls: seq<Call>, cooldown: int, i: nat)
    requires StateOf(b, table) == Open && table in b.openAt && i <= |calls|
    requires forall c | c in calls && c.table == table :: c.Ask?
    ensures var b' := AfterAll(b, calls[..i], cooldown);
            && table in b'.openAt && b'.openAt[table] == b.openAt[table]
            && StateOf(b', table) == if exists j | 0 <= j < i :: Due(b, table, calls, cooldown, j) then HalfOpen else Open
  {
    hide AfterAll, After;
    if i == 0 {
      NoCalls(b, cooldown);
      assert calls[..0] == [];
    } else {
      OpenUntilDue(b, table, calls, cooldown, i - 1);
      OneMoreCall(b, calls, cooldown, i - 1);
      var before, c := AfterAll(b, calls[..i - 1], cooldown), calls[i - 1];
      if c.table != table {
        OthersUntouched(before, c, cooldown, table);
      } else {
        AskedWhile(before, table, c.now, cooldown);
        assert Due(b, table, calls, cooldown, i - 1) <==> c.now - b.openAt[table] >= cooldown;
      }
    }
  }

  lemma NoCalls(b: Breakers, cooldown: int)
    ensures AfterAll(b, [], cooldown) == b
  {
  }

  lemma OneMoreCall(b: Breakers, calls: seq<Call>, cooldown: int, i: nat)
    requires i < |calls|
    ensures AfterAll(b, calls[..i + 1], cooldown) == After(AfterAll(b, calls[..i], cooldown), calls[i], cooldown)
  {
    assert calls[..i + 1][..i] == calls[..i];
  }

  lemma AskedWhile(b: Breakers, table: string, now: int, cooldown: int)
    requires table in b.openAt
    ensures var b' := After(b, Ask(table, now), cooldown);
            && b'.openAt == b.openAt
            && (StateOf(b, table) == HalfOpen ==> StateOf(b', table) == HalfOpen)
            && (StateOf(b, table) == Open ==> StateOf(b', table) == if now - b.openAt[table] >= cooldown then HalfOpen else Open)
  {
  }

  /**
   While an open table is neither reported on nor forced, whatever happens to other tables,
   exactly one write is let through: the first that comes a cooldown after it opened.
   */
  lemma OnlyTheFirstDueWriteProbes(b: Breakers, table: string, calls: seq<Call>, cooldown: int, i: nat)
    requires StateOf(b, table) == Open && table in b.openAt && i < |calls| && calls[i].table == table
    requires forall c | c in calls && c.table == table :: c.Ask?
    ensures Admits(b, calls, cooldown, i) <==>
            Due(b, table, calls, cooldown, i) && forall j | 0 <= j < i :: !Due(b, table, calls, cooldown, j)
  {
    hide AfterAll;
    OpenUntilDue(b, table, calls, cooldown, i);
    assert calls[i] in calls;
  }

  /** Once a probe succeeds the table admits every write; once it fails the table waits a full cooldown again. */
  lemma ProbeDecides(b: Breakers, table: string, at: int, now: int, cooldown: int)
    requires StateOf(b, table) == HalfOpen
    ensures Allow(OnSuccess(b, table), table, now, cooldown).admitted
    ensures Allow(OnFailure(b, table, at), table, now, cooldown).admitted <==> now - at >= cooldown
    ensures !Allow(b, table, now, cooldown).admitted
  {
  }

  /** The breaker object, updated in place. */
  class TableBreaker {
    const cooldown: int
    var states: map<string, BreakerState>
    var openAt: map<string, int>

    ghost function View(): Breakers
      reads this
    {
      Breakers(states, openAt)
    }

    constructor (cooldown: int)
      ensures View() == Breakers(map[], map[]) && this.cooldown == cooldown
    {
      this.cooldown := cooldown;
      states, openAt := map[], map[];
    }

    method AllowWrite(table: string, now: int) returns (admitted: bool)
      requires WellFormed(View())
      modifies `states
      ensures Verdict(admitted, View()) == Allow(old(View()), table, now, cooldown)
      ensures WellFormed(View())
    {
      var st := if table in states then states[table] else Closed;
      match st
      case Closed =>
        return true;
      case HalfOpen =>
        return false;
      case Open =>
        if now - openAt[table] >= cooldown {
          states := states[table := HalfOpen];
          return true;
        }
        return false;
    }

    method ReportFailure(table: string, now: int)
      requires WellFormed(View())
      modifies this
      ensures View() == OnFailure(old(View()), table, now) && WellFormed(View())
    {
      if table in states && states[table] == HalfOpen {
        states := states[table := Open];
        openAt := openAt[table := now];
      }
    }

    method ForceOpen(table: string, now: int)
      requires WellFormed(View())
      modifies this
      ensures View() == Trip(old(View()), table, now) && WellFormed(View())
    {
      states := states[table := Open];
      openAt := openAt[table := now];
    }

    method ReportSuccess(table: string)
      requires WellFormed(View())
      modifies this
      ensures View() == OnSuccess(old(View()), table) && WellFormed(View())
    {
      states := states - {table};
      openAt := openAt - {table};
    }

    /** A run of calls, as the store makes them; the answers to the writes among them. */
    method Serve(calls: seq<Call>) returns (admitted: seq<bool>)
      requires WellFormed(View())
      modifies this
      ensures WellFormed(View()) && View() == AfterAll(old(View()), calls, cooldown)
      ensures |admitted| == |calls| && forall i | 0 <= i < |calls| :: admitted[i] == Admits(old(View()), calls, cooldown, i)
    {
      hide Allow, OnFailure, Trip, OnSuccess, WellFormed;
      admitted := [];
      NoCalls(View(), cooldown);
      for i := 0 to |calls|
        invariant WellFormed(View()) && View() == AfterAll(old(View()), calls[..i], cooldown)
        invariant |admitted| == i && forall j | 0 <= j < i :: admitted[j] == Admits(old(View()), calls, cooldown, j)
      {
        OneMoreCall(old(View()), calls, cooldown, i);
        var ok := false;
        match calls[i] {
          case Ask(table, now) => ok := AllowWrite(table, now);
          case Failure(table, now) => ReportFailure(table, now);
          case Force(table, now) => ForceOpen(table, now);
          case Success(table) => ReportSuccess(table);
        }
        admitted := admitted + [ok];
      }
      assert calls[..|calls|] == calls;
    }
  }
}

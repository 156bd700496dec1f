/** The per-table circuit breaker: closed, open, half-open with a single probe. */
module Breaker {
  datatype BreakerState = Closed | Open | HalfOpen

  /** Only tables that are not closed have an entry. */
  datatype Breakers = Breakers(states: map<string, BreakerState>, openAt: map<string, int>)

  function StateOf(b: Breakers, table: string): BreakerState {
    if table in b.states then b.states[table] else Closed
  }

  ghost predicate WellFormed(b: Breakers) {
    forall t | t in b.states :: b.states[t] == Closed || t in b.openAt
  }

  datatype Verdict = Verdict(admitted: bool, breakers: Breakers)

  function Allow(b: Breakers, table: string, now: int, cooldown: int): Verdict {
    match StateOf(b, table)
    case Closed => Verdict(true, b)
    case HalfOpen => Verdict(false, b)
    case Open =>
      if table !in b.openAt || now - b.openAt[table] >= cooldown
      then Verdict(true, b.(states := b.states[table := HalfOpen]))
      else Verdict(false, b)
  }

  function OnFailure(b: Breakers, table: string, now: int): Breakers {
    if StateOf(b, table) == HalfOpen then Trip(b, table, now) else b
  }

  function Trip(b: Breakers, table: string, now: int): Breakers {
    Breakers(b.states[table := Open], b.openAt[table := now])
  }

  function OnSuccess(b: Breakers, table: string): Breakers {
    Breakers(b.states - {table}, b.openAt - {table})
  }
}

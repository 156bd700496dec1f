/**
 The rules of a Dou Dizhu play phase as a judge of action logs, and what holds of every
 log that obeys them.
 */
module GameRules {
  import opened Common
  import opened Cards

  const SEATS := 3

  datatype Act = Play(seat: nat, cards: seq<Card>) | Pass(seat: nat)

  datatype Lead = Lead(seat: nat, cards: seq<Card>)

  /** The table after a log: the play to beat, the passes since, whose turn it is, the trick's plays. */
  datatype Table = Table(lead: Option<Lead>, passes: nat, turn: nat, trick: seq<seq<Card>>)

  function After(first: nat, log: seq<Act>): Table {
    if log == [] then Table(None, 0, first, [])
    else Then(After(first, log[..|log| - 1]), log[|log| - 1])
  }

  function Then(t: Table, a: Act): Table {
    match a
    case Play(s, cards) => Table(Some(Lead(s, cards)), 0, (s + 1) % SEATS, t.trick + [cards])
    case Pass(s) =>
      if t.passes + 1 >= 2 && t.lead.Some? then Table(None, 0, t.lead.value.seat, [])
      else Table(t.lead, t.passes + 1, (s + 1) % SEATS, t.trick)
  }

  /** Only the player in turn may act; a leader must play; a play must be a hand and beat the last one. */
  ghost predicate LegalNext(t: Table, a: Act) {
    && a.seat == t.turn
    && match a
       case Pass(_) => t.lead.Some?
       case Play(_, cards) => HandOf(cards).typ != Invalid && (t.lead.Some? ==> Beats(cards, t.lead.value.cards))
  }

  ghost predicate Legal(first: nat, log: seq<Act>) {
    log == [] ||
    (Legal(first, log[..|log| - 1]) && LegalNext(After(first, log[..|log| - 1]), log[|log| - 1]))
  }

  lemma AfterStep(first: nat, log: seq<Act>, a: Act)
    ensures After(first, log + [a]) == Then(After(first, log), a)
    ensures Legal(first, log) && LegalNext(After(first, log), a) ==> Legal(first, log + [a])
  {
    assert (log + [a])[..|log|] == log;
  }

  lemma EmptyLog(first: nat)
    ensures After(first, []) == Table(None, 0, first, [])
  {
  }

  // ---- Whose turn ----

  ghost predicate TurnFollows(t: Table) {
    && t.turn < SEATS
    && (t.lead.None? ==> t.passes == 0 && t.trick == [])
    && (t.lead.Some? ==>
          && t.passes <= 1
          && t.lead.value.seat < SEATS
          && t.turn == (t.lead.value.seat + 1 + t.passes) % SEATS
          && t.trick != [] && t.trick[|t.trick| - 1] == t.lead.value.cards)
  }

  /** The turn is always the leader's seat plus one plus the passes, and at most one pass stands. */
  lemma {:induction false} TurnArithmetic(first: nat, log: seq<Act>)
    requires first < SEATS && Legal(first, log)
    ensures TurnFollows(After(first, log))
  {
    if log != [] {
      TurnArithmetic(first, log[..|log| - 1]);
    }
  }

  /** Nobody is asked to beat their own play. */
  lemma NeverAgainstYourself(first: nat, log: seq<Act>)
    requires first < SEATS && Legal(first, log) && After(first, log).lead.Some?
    ensures After(first, log).turn != After(first, log).lead.value.seat
  {
    TurnArithmetic(first, log);
  }

  /** A play stands until both others have passed: after it, and after one pass, the next in turn must still beat it. */
  lemma PlayStands(first: nat, log: seq<Act>, seat: nat, cards: seq<Card>, p: Act)
    requires first < SEATS && Legal(first, log + [Play(seat, cards)]) && p.Pass?
    ensures After(first, log + [Play(seat, cards)]).lead == Some(Lead(seat, cards))
    ensures After(first, log + [Play(seat, cards)]).turn == (seat + 1) % 3
    ensures After(first, log + [Play(seat, cards)] + [p]).lead == Some(Lead(seat, cards))
    ensures Legal(first, log + [Play(seat, cards)] + [p]) ==> After(first, log + [Play(seat, cards)] + [p]).turn == (seat + 2) % 3
  {
    hide LegalNext;
    var l1 := log + [Play(seat, cards)];
    AfterStep(first, log, Play(seat, cards));
    AfterStep(first, l1, p);
    if Legal(first, l1 + [p]) {
      TurnArithmetic(first, l1 + [p]);
    }
  }

  /** When both others pass, the lead returns to the player they passed to. */
  lemma LeadReturns(first: nat, log: seq<Act>, seat: nat, cards: seq<Card>, p: Act, q: Act)
    requires first < SEATS && Legal(first, log + [Play(seat, cards)] + [p] + [q]) && p.Pass? && q.Pass?
    ensures p.seat == (seat + 1) % SEATS && q.seat == (seat + 2) % SEATS
    ensures After(first, log + [Play(seat, cards)] + [p] + [q]) == Table(None, 0, seat, [])
  {
    var l1 := log + [Play(seat, cards)];
    var l2, l3 := l1 + [p], l1 + [p] + [q];
    assert l3[..|l2|] == l2 && l2[..|l1|] == l1;
    AfterStep(first, log, Play(seat, cards));
    AfterStep(first, l1, p);
    AfterStep(first, l2, q);
    assert l1[..|log|] == log;
    TurnArithmetic(first, log);
  }

  // ---- Tricks ascend ----

  ghost predicate Ascending(trick: seq<seq<Card>>) {
    forall i, j | 0 <= i < j < |trick| :: Beats(trick[j], trick[i])
  }

  lemma AscendingGrows(trick: seq<seq<Card>>, cards: seq<Card>)
    requires Ascending(trick) && (trick != [] ==> Beats(cards, trick[|trick| - 1]))
    ensures Ascending(trick + [cards])
  {
    var k := |trick| - 1;
    forall i | 0 <= i < |trick| ensures Beats(cards, trick[i]) {
      if i < k {
        assert Beats(trick[k], trick[i]);
        BeatsIsTransitive(cards, trick[k], trick[i]);
      }
    }
  }

  /** Inside a trick every play beats every earlier one. */
  lemma {:induction false} TrickAscends(first: nat, log: seq<Act>)
    requires first < SEATS && Legal(first, log)
    ensures Ascending(After(first, log).trick)
  {
    if log != [] {
      var before, a := log[..|log| - 1], log[|log| - 1];
      TrickAscends(first, before);
      TurnArithmetic(first, before);
      if a.Play? {
        AscendingGrows(After(first, before).trick, a.cards);
      }
    }
  }

  // ---- Counting ----

  function Plays(log: seq<Act>): nat {
    if log == [] then 0 else Plays(log[..|log| - 1]) + if log[|log| - 1].Play? then 1 else 0
  }

  function CardsPlayed(log: seq<Act>): multiset<Card> {
    if log == [] then multiset{}
    else CardsPlayed(log[..|log| - 1]) + CardsOf(log[|log| - 1])
  }

  function CardsOf(a: Act): multiset<Card> {
    match a
    case Play(_, cards) => multiset(cards)
    case Pass(_) => multiset{}
  }

  /** At most two passes per play. */
  lemma {:induction false} PassesAreBounded(first: nat, log: seq<Act>)
    requires first < SEATS && Legal(first, log)
    ensures |log| + (if After(first, log).lead.Some? then 2 - After(first, log).passes else 0) <= 3 * Plays(log)
  {
    if log != [] {
      TurnArithmetic(first, log[..|log| - 1]);
      PassesAreBounded(first, log[..|log| - 1]);
    }
  }

  lemma {:induction false} EveryPlayUsesACard(first: nat, log: seq<Act>)
    requires Legal(first, log)
    ensures Plays(log) <= |CardsPlayed(log)|
  {
    if log != [] {
      EveryPlayUsesACard(first, log[..|log| - 1]);
      var a := log[|log| - 1];
      if a.Play? {
        assert a.cards != [];
      }
    }
  }

  /** A game cannot go on for ever: 54 cards allow at most 162 actions. */
  lemma GameIsFinite(first: nat, log: seq<Act>)
    requires first < SEATS && Legal(first, log) && CardsPlayed(log) <= multiset(Deck())
    ensures |log| <= 162
  {
    PassesAreBounded(first, log);
    EveryPlayUsesACard(first, log);
    SubMultisetIsSmaller(CardsPlayed(log), multiset(Deck()));
  }

  lemma SubMultisetIsSmaller<T>(a: multiset<T>, b: multiset<T>)
    requires a <= b
    ensures |a| <= |b|
  {
    assert b == a + (b - a);
  }
}

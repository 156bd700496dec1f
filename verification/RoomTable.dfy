/** The table of a room in play, as the room's own fields record it, and after the game has ended. */
module RoomTable {
  import opened Common
  import opened Cards
  import opened Dealing
  import opened GameRules
  import opened RoomState

  datatype Played = Played(uid: string, cards: seq<Card>, typ: HandType)

  /** The room's own record of the table agrees with the log's. */
  ghost predicate TableMatches(t: Table, order: seq<string>, cur: nat, lastPlayed: Option<Played>, passCount: nat) {
    && |order| == SEATS
    && cur == t.turn < SEATS
    && passCount == t.passes
    && match t.lead
       case None => lastPlayed == None
       case Some(l) => l.seat < SEATS && lastPlayed == Some(Played(order[l.seat], l.cards, HandOf(l.cards).typ))
  }

  /** What the room's record tells about the play to beat. */
  lemma TableFacts(t: Table, order: seq<string>, cur: nat, lastPlayed: Option<Played>, passCount: nat)
    requires TableMatches(t, order, cur, lastPlayed, passCount) && TurnFollows(t) && NoRepeats(order)
    ensures cur == t.turn < |order| == SEATS && lastPlayed.Some? == t.lead.Some? && passCount == t.passes <= 1
    ensures lastPlayed.Some? ==>
              && lastPlayed.value.uid != order[cur]
              && lastPlayed.value.cards == t.lead.value.cards
              && lastPlayed.value.typ == HandOf(lastPlayed.value.cards).typ
  {
    if t.lead.Some? {
      LastPlayerIsAnother(t, order);
    }
  }

  lemma FreshTable(t: Table, order: seq<string>)
    requires |order| == SEATS && TurnFollows(t) && t.lead == None
    ensures TableMatches(t, order, t.turn, None, 0)
  {
  }

  lemma PlayedTable(t: Table, order: seq<string>, seat: nat, cards: seq<Card>)
    requires |order| == SEATS && seat < SEATS
    requires t.lead == Some(Lead(seat, cards)) && t.passes == 0 && t.turn == NextSeat(seat)
    ensures TableMatches(t, order, NextSeat(seat), Some(Played(order[seat], cards, HandOf(cards).typ)), 0)
  {
  }

  /** After one pass the next seat answers the same play; after two the player of it leads afresh. */
  lemma PassedTable(t: Table, order: seq<string>, cur: nat, lastPlayed: Option<Played>, passCount: nat)
    requires TableMatches(t, order, cur, lastPlayed, passCount) && TurnFollows(t) && NoRepeats(order) && lastPlayed.Some?
    ensures var t' := Then(t, Pass(cur));
            && lastPlayed.value.uid in order
            && (passCount == 0 ==> t'.lead.Some? && TableMatches(t', order, NextSeat(cur), lastPlayed, 1))
            && (passCount == 1 ==> t'.lead == None && t'.turn < SEATS)
            && (passCount == 1 ==> forall i | 0 <= i < SEATS :: order[i] == lastPlayed.value.uid <==> i == t'.turn)
  {
  }

  lemma BeatingPlayIsLegal(t: Table, seat: nat, cards: seq<Card>)
    requires seat == t.turn && HandOf(cards).typ != Invalid
    requires t.lead.Some? ==> Beats(cards, t.lead.value.cards)
    ensures LegalNext(t, Play(seat, cards))
  {
  }

  // ---- A turn is due ----

  /** The player at `cur` is to act in a legal game in which everybody still holds cards. */
  ghost predicate Due(order: seq<string>, hands: map<string, seq<Card>>, first: nat, log: seq<Act>,
                      cur: nat, lastPlayed: Option<Played>, passCount: nat) {
    GameOk(order, hands, first, log) && HandsLeft(hands) && TableMatches(After(first, log), order, cur, lastPlayed, passCount)
  }

  /** The same before `nextTurn` has cleared the table for a free lead. */
  ghost predicate Ready(order: seq<string>, hands: map<string, seq<Card>>, first: nat, log: seq<Act>,
                        cur: nat, lastPlayed: Option<Played>, passCount: nat, free: bool) {
    && GameOk(order, hands, first, log) && HandsLeft(hands)
    && if free then log != [] && cur == After(first, log).turn && After(first, log).lead == None
       else TableMatches(After(first, log), order, cur, lastPlayed, passCount) && (After(first, log).lead == None ==> log == [])
  }

  /** The landlord holds the bottom cards and is to lead. */
  lemma PlayBegins(order: seq<string>, hands: map<string, seq<Card>>, first: nat)
    requires Seated(order, hands) && HandsSorted(hands) && HandsLeft(hands) && Held(order, hands) == multiset(Deck()) && first < SEATS
    ensures Ready(order, hands, first, [], first, None, 0, false)
  {
    GameBegins(order, hands, first);
  }

  lemma ReadyIsDue(order: seq<string>, hands: map<string, seq<Card>>, first: nat, log: seq<Act>,
                   cur: nat, lastPlayed: Option<Played>, passCount: nat, free: bool)
    requires Ready(order, hands, first, log, cur, lastPlayed, passCount, free)
    ensures Due(order, hands, first, log, cur, if free then None else lastPlayed, if free then 0 else passCount)
    ensures !free && lastPlayed == None ==> log == []
    ensures log == [] ==> lastPlayed == None && !free
  {
    GameFacts(order, hands, first, log);
    EmptyLog(first);
    if free {
      FreshTable(After(first, log), order);
    }
  }

  lemma DueFacts(order: seq<string>, hands: map<string, seq<Card>>, first: nat, log: seq<Act>,
                 cur: nat, lastPlayed: Option<Played>, passCount: nat)
    requires Due(order, hands, first, log, cur, lastPlayed, passCount)
    ensures |order| == SEATS && cur < SEATS && Seated(order, hands) && passCount <= 1 && NextSeat(cur) < SEATS
    ensures order[cur] in hands && hands[order[cur]] != [] && DistinctIds(hands[order[cur]])
    ensures lastPlayed.Some? ==>
              && lastPlayed.value.uid != order[cur] && lastPlayed.value.uid in order
              && lastPlayed.value.typ == HandOf(lastPlayed.value.cards).typ
  {
    hide HandOf;
    GameFacts(order, hands, first, log);
    TableFacts(After(first, log), order, cur, lastPlayed, passCount);
  }

  /** A pass hands the turn on, and a second one hands the lead back. */
  lemma DuePass(order: seq<string>, hands: map<string, seq<Card>>, first: nat, log: seq<Act>,
                cur: nat, lastPlayed: Option<Played>, passCount: nat)
    requires Due(order, hands, first, log, cur, lastPlayed, passCount) && lastPlayed.Some?
    ensures var log' := log + [Pass(cur)];
            && (passCount == 0 ==> Ready(order, hands, first, log', NextSeat(cur), lastPlayed, 1, false))
            && (passCount == 1 ==> forall i: nat | i < |order| && order[i] == lastPlayed.value.uid ::
                  Ready(order, hands, first, log', i, lastPlayed, 2, true))
  {
    hide GameOk, HandsLeft, HandOf, After, NextSeat;
    GameFacts(order, hands, first, log);
    TableFacts(After(first, log), order, cur, lastPlayed, passCount);
    PassKeepsGame(order, hands, first, log);
    PassedTable(After(first, log), order, cur, lastPlayed, passCount);
  }

  /** After an accepted play: its player has won, or the next seat answers. */
  ghost predicate OnTable(order: seq<string>, hands: map<string, seq<Card>>, first: nat, log: seq<Act>, cur: nat, lastPlayed: Option<Played>) {
    && cur < |order| && order[cur] in hands && lastPlayed.Some? && lastPlayed.value.uid in order
    && GameOk(order, hands, first, log) && log != [] && log[|log| - 1] == Play(cur, lastPlayed.value.cards)
    && (hands[order[cur]] != [] ==> Ready(order, hands, first, log, NextSeat(cur), lastPlayed, 0, false))
  }

  /** What the rules ask of the chosen cards. */
  ghost predicate Beating(hand: seq<Card>, lastPlayed: Option<Played>, ids: set<int>) {
    && HandOf(Chosen(hand, ids)).typ != Invalid
    && (lastPlayed.Some? ==> Beats(Chosen(hand, ids), lastPlayed.value.cards))
  }

  lemma DuePlay(order: seq<string>, hands: map<string, seq<Card>>, first: nat, log: seq<Act>,
                cur: nat, lastPlayed: Option<Played>, passCount: nat, ids: set<int>)
    requires Due(order, hands, first, log, cur, lastPlayed, passCount)
    requires cur < |order| && order[cur] in hands && Beating(hands[order[cur]], lastPlayed, ids)
    ensures var cards := Chosen(hands[order[cur]], ids);
            var hands' := hands[order[cur] := Kept(hands[order[cur]], ids)];
            && OnTable(order, hands', first, log + [Play(cur, cards)], cur, Some(Played(order[cur], cards, HandOf(cards).typ)))
            && Seated(order, hands') && Seated(order, hands) && HandTotal(order, hands') < HandTotal(order, hands)
  {
    hide GameOk, HandsLeft, HandOf, After, Chosen, Kept, Beats, Seated, HandTotal, NextSeat, LegalNext;
    var u := order[cur];
    var cards := Chosen(hands[u], ids);
    GameFacts(order, hands, first, log);
    TableFacts(After(first, log), order, cur, lastPlayed, passCount);
    SeatFacts(order, hands, first, log, cur);
    BeatingPlayIsLegal(After(first, log), cur, cards);
    PlayResult(order, hands, first, log, cur, ids);
    PlayedTable(After(first, log + [Play(cur, cards)]), order, cur, cards);
    OthersHoldCards(hands, u, Kept(hands[u], ids));
    if Kept(hands[u], ids) != [] {
      NoHandEmpty(hands[u := Kept(hands[u], ids)], u);
    }
  }

  /** Cards returned in any sorted order leave the turn as it was. */
  lemma DueAgain(order: seq<string>, hands: map<string, seq<Card>>, first: nat, log: seq<Act>,
                 cur: nat, lastPlayed: Option<Played>, passCount: nat, u: string, hand: seq<Card>)
    requires Due(order, hands, first, log, cur, lastPlayed, passCount) && u in hands
    requires SortedByRank(hand) && multiset(hand) == multiset(hands[u])
    ensures Due(order, hands[u := hand], first, log, cur, lastPlayed, passCount) && SameHands(hands, hands[u := hand])
  {
    hide GameOk, HandsLeft, TableMatches, After, SameHands;
    PutBackResult(order, hands, first, log, u, hand);
  }

  // ---- After the end ----

  /** All that a finished room keeps: every card is in a hand, in the game's log or played late. */
  ghost predicate AfterEnd(order: seq<string>, hands: map<string, seq<Card>>, played: multiset<Card>, late: multiset<Card>,
                           cur: nat, lastPlayed: Option<Played>, passCount: nat) {
    && Seated(order, hands) && HandsSorted(hands)
    && Held(order, hands) + played + late == multiset(Deck())
    && cur < SEATS && passCount <= 1
    && (if lastPlayed.Some? then lastPlayed.value.uid in order else passCount == 0)
  }

  lemma EndFacts(order: seq<string>, hands: map<string, seq<Card>>, played: multiset<Card>, late: multiset<Card>,
                 cur: nat, lastPlayed: Option<Played>, passCount: nat)
    requires AfterEnd(order, hands, played, late, cur, lastPlayed, passCount)
    ensures |order| == SEATS && Seated(order, hands) && cur < SEATS && passCount <= 1 && NextSeat(cur) < SEATS
    ensures order[cur] in hands && DistinctIds(hands[order[cur]])
    ensures if lastPlayed.Some? then lastPlayed.value.uid in order else passCount == 0
  {
    HandIsPartOfDeck(order, hands, played + late, order[cur]);
    HandHasDistinctIds(hands[order[cur]]);
  }

  lemma LateNext(order: seq<string>, hands: map<string, seq<Card>>, played: multiset<Card>, late: multiset<Card>,
                 cur: nat, lastPlayed: Option<Played>)
    requires AfterEnd(order, hands, played, late, cur, lastPlayed, 0)
    ensures AfterEnd(order, hands, played, late, NextSeat(cur), lastPlayed, 0)
  {
  }

  lemma PlayedMore(log: seq<Act>, a: Act)
    ensures CardsPlayed(log + [a]) == CardsPlayed(log) + CardsOf(a)
  {
    assert (log + [a])[..|log|] == log;
  }

  lemma LatePass(order: seq<string>, hands: map<string, seq<Card>>, played: multiset<Card>, late: seq<Act>,
                 cur: nat, lastPlayed: Option<Played>, passCount: nat)
    requires AfterEnd(order, hands, played, CardsPlayed(late), cur, lastPlayed, passCount) && lastPlayed.Some?
    ensures var late' := CardsPlayed(late + [Pass(cur)]);
            && AfterEnd(order, hands, played, late', cur, lastPlayed, passCount)
            && (passCount == 0 ==> AfterEnd(order, hands, played, late', NextSeat(cur), lastPlayed, 1))
  {
    PlayedMore(late, Pass(cur));
  }

  lemma LateLead(order: seq<string>, hands: map<string, seq<Card>>, played: multiset<Card>, late: multiset<Card>,
                 cur: nat, lastPlayed: Option<Played>, passCount: nat, lead: nat)
    requires AfterEnd(order, hands, played, late, cur, lastPlayed, passCount) && lead < SEATS
    ensures AfterEnd(order, hands, played, late, lead, None, 0)
  {
  }

  /** Taking cards out of one hand. */
  lemma HandSplits(order: seq<string>, hands: map<string, seq<Card>>, u: string, ids: set<int>)
    requires Seated(order, hands) && HandsSorted(hands) && u in hands
    ensures var hands' := hands[u := Kept(hands[u], ids)];
            && Seated(order, hands') && HandsSorted(hands')
            && Held(order, hands') + multiset(Chosen(hands[u], ids)) == Held(order, hands)
            && HandTotal(order, hands') + |Chosen(hands[u], ids)| == HandTotal(order, hands)
  {
    hide Chosen, Kept, SortedByRank;
    var cards, kept := Chosen(hands[u], ids), Kept(hands[u], ids);
    TakingSplitsTheHand(hands[u], ids);
    KeptStaysSorted(hands[u], ids);
    HandReplaced(order, hands, u, kept);
    assert |multiset(cards)| + |multiset(kept)| == |multiset(hands[u])|;
    assert multiset(hands[u]) <= Held(order, hands);
    CardsMove(Held(order, hands), multiset(hands[u]), multiset(cards), multiset(kept), Held(order, hands[u := kept]));
  }

  lemma LatePlay(order: seq<string>, hands: map<string, seq<Card>>, played: multiset<Card>, late: seq<Act>,
                 cur: nat, lastPlayed: Option<Played>, passCount: nat, ids: set<int>)
    requires AfterEnd(order, hands, played, CardsPlayed(late), cur, lastPlayed, passCount)
    requires order[cur] in hands && HandOf(Chosen(hands[order[cur]], ids)).typ != Invalid
    ensures var cards := Chosen(hands[order[cur]], ids);
            var hands' := hands[order[cur] := Kept(hands[order[cur]], ids)];
            && AfterEnd(order, hands', played, CardsPlayed(late + [Play(cur, cards)]), cur, Some(Played(order[cur], cards, HandOf(cards).typ)), 0)
            && Seated(order, hands') && Seated(order, hands) && HandTotal(order, hands') < HandTotal(order, hands)
  {
    hide HandOf, Chosen, Kept, Deck, SortedByRank, Held, HandTotal, CardsPlayed, NoRepeats;
    var cards := Chosen(hands[order[cur]], ids);
    PlayedMore(late, Play(cur, cards));
    HandHasCards(cards);
    HandSplits(order, hands, order[cur], ids);
  }

  // ---- The outcome ----

  /** The winner by play emptied a hand with the last action; on time the landlord needs no more cards than anyone. */
  ghost predicate Outcome(order: seq<string>, hands: map<string, seq<Card>>, first: nat, log: seq<Act>,
                          won: Option<bool>, expired: bool) {
    && GameOk(order, hands, first, log) && first < |order|
    && if expired then
         order[first] in hands &&
         won == Some(forall u | u in hands && u != order[first] :: |hands[order[first]]| <= |hands[u]|)
       else
         && log != [] && log[|log| - 1].Play? && log[|log| - 1].seat < |order|
         && order[log[|log| - 1].seat] in hands && hands[order[log[|log| - 1].seat]] == []
         && won == Some(log[|log| - 1].seat == first)
  }

  lemma LastCardWins(order: seq<string>, hands: map<string, seq<Card>>, first: nat, log: seq<Act>, cur: nat, lastPlayed: Option<Played>)
    requires OnTable(order, hands, first, log, cur, lastPlayed)
    ensures first < |order| && AfterEnd(order, hands, CardsPlayed(log), CardsPlayed([]), cur, lastPlayed, 0)
    ensures hands[order[cur]] == [] ==> Outcome(order, hands, first, log, Some(order[cur] == order[first]), false)
  {
    hide Ready;
    GameFacts(order, hands, first, log);
  }

  lemma TimeDecides(order: seq<string>, hands: map<string, seq<Card>>, first: nat, log: seq<Act>,
                    cur: nat, lastPlayed: Option<Played>, passCount: nat)
    requires Due(order, hands, first, log, cur, lastPlayed, passCount)
    ensures first < |order| && order[first] in hands && forall u | u in hands :: |hands[u]| <= 54
    ensures AfterEnd(order, hands, CardsPlayed(log), CardsPlayed([]), cur, lastPlayed, passCount)
    ensures Outcome(order, hands, first, log, Some(forall u | u in hands && u != order[first] :: |hands[order[first]]| <= |hands[u]|), true)
  {
    HandSizes(order, hands, first, log);
    GameFacts(order, hands, first, log);
    TableFacts(After(first, log), order, cur, lastPlayed, passCount);
    DueFacts(order, hands, first, log, cur, lastPlayed, passCount);
  }
}

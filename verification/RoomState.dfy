/**
 Hands, seats and the table of a Dou Dizhu room, as values: what a legal game in progress
 is, and that each kind of move keeps it one.
 */
module RoomState {
  import opened Common
  import opened Cards
  import opened Classifier
  import opened Dealing
  import opened GameRules

  method MainRankOf(cards: seq<Card>) returns (r: int)
    ensures r == HandOf(cards).main
  {
    if |cards| == 0 {
      assert forall t, m :: !Shaped(cards, t, m);
      return 0;
    }
    var _, main := Classify(cards);
    r := main;
  }

  // ---- Taking cards by ID ----

  ghost predicate DistinctIds(hand: seq<Card>) {
    forall i, j | 0 <= i < j < |hand| :: hand[i].ID() != hand[j].ID()
  }

  ghost predicate Takeable(hand: seq<Card>, ids: seq<int>) {
    NoRepeats(ids) && forall id | id in ids :: exists c :: c in hand && c.ID() == id
  }

  lemma {:induction false} ElemsCount<T>(s: seq<T>)
    ensures |Elems(s)| <= |s| && (|Elems(s)| == |s| <==> NoRepeats(s))
  {
    if s != [] {
      var n := |s| - 1;
      ElemsCount(s[..n]);
      assert s == s[..n] + [s[n]];
      assert Elems(s) == Elems(s[..n]) + {s[n]};
      if s[n] in s[..n] {
        var i :| 0 <= i < n && s[..n][i] == s[n];
        assert s[i] == s[n];
      }
    }
  }

  lemma TwoOccurrences<T>(s: seq<T>, i: nat, j: nat)
    requires i < j < |s| && s[i] == s[j]
    ensures multiset(s)[s[i]] >= 2
  {
    assert s == s[..i] + [s[i]] + s[i + 1..j] + [s[j]] + s[j + 1..];
  }

  /** A hand dealt from one deck names its cards without ambiguity. */
  lemma HandHasDistinctIds(hand: seq<Card>)
    requires multiset(hand) <= multiset(Deck())
    ensures DistinctIds(hand)
  {
    forall i, j | 0 <= i < j < |hand| ensures hand[i].ID() != hand[j].ID() {
      var c, d := hand[i], hand[j];
      assert c in multiset(hand) && d in multiset(hand);
      DeckHolds(c);
      DeckHolds(d);
      if c.ID() == d.ID() {
        IdsAreInjective(c, d);
        TwoOccurrences(hand, i, j);
      }
    }
  }

  method TakeCards(hand: seq<Card>, ids: seq<int>) returns (ok: bool, taken: seq<Card>, kept: seq<Card>)
    requires DistinctIds(hand)
    ensures ok <==> Takeable(hand, ids)
    ensures ok ==> taken == Chosen(hand, Elems(ids)) && kept == Kept(hand, Elems(ids)) && |taken| == |ids|
    ensures !ok ==> kept == hand
  {
    var want := Elems(ids);
    taken, kept := [], [];
    for i := 0 to |hand|
      invariant want == set id | id in ids && forall k | 0 <= k < i :: hand[k].ID() != id
      invariant taken == Chosen(hand[..i], Elems(ids)) && kept == Kept(hand[..i], Elems(ids))
      invariant |taken| + |want| == |Elems(ids)|
    {
      assert hand[..i + 1][..i] == hand[..i];
      var c := hand[i];
      if c.ID() in want {
        taken := taken + [c];
        want := want - {c.ID()};
      } else {
        kept := kept + [c];
      }
    }
    assert hand[..|hand|] == hand;
    ElemsCount(ids);
    ok := want == {} && |taken| == |ids|;
    if want == {} {
      forall id | id in ids ensures exists c :: c in hand && c.ID() == id {
        assert id !in want;
        var k :| 0 <= k < |hand| && hand[k].ID() == id;
        assert hand[k] in hand;
      }
    }
    if !ok {
      kept := hand;
    }
  }

  // ---- Hands by seat ----

  ghost predicate Seated(order: seq<string>, hands: map<string, seq<Card>>) {
    && |order| == SEATS
    && NoRepeats(order)
    && "" !in order
    && hands.Keys == {order[0], order[1], order[2]}
  }

  ghost function Held(order: seq<string>, hands: map<string, seq<Card>>): multiset<Card>
    requires Seated(order, hands)
  {
    multiset(hands[order[0]]) + multiset(hands[order[1]]) + multiset(hands[order[2]])
  }

  ghost function HandTotal(order: seq<string>, hands: map<string, seq<Card>>): nat
    requires Seated(order, hands)
  {
    |hands[order[0]]| + |hands[order[1]]| + |hands[order[2]]|
  }

  ghost predicate HandsSorted(hands: map<string, seq<Card>>) {
    forall u | u in hands :: SortedByRank(hands[u])
  }

  ghost predicate HandsLeft(hands: map<string, seq<Card>>) {
    forall u | u in hands :: hands[u] != []
  }

  /** Sorted hands of 17 that make up a full deck together with the three bottom cards. */
  ghost predicate Dealt(order: seq<string>, hands: map<string, seq<Card>>, bottom: seq<Card>) {
    && Seated(order, hands)
    && (forall u | u in hands :: |hands[u]| == HAND_PER_PLAYER)
    && |bottom| == LANDLORD_CARDS
    && Held(order, hands) + multiset(bottom) == multiset(Deck())
    && HandsSorted(hands)
  }

  /** The hands and bottom cards of the deck shuffled from `seed`: seat `k` holds every third card from the `k`-th on. */
  ghost predicate DealtFrom(order: seq<string>, hands: map<string, seq<Card>>, bottom: seq<Card>, seed: int) {
    var deck := Shuffled(Deck(), seed, 53);
    && |deck| == 54 && |order| == SEATS
    && (forall k | 0 <= k < SEATS :: order[k] in hands && multiset(hands[order[k]]) == Third(deck, k, 17))
    && bottom == deck[51..]
  }

  /** Replacing one hand changes the cards held by exactly that hand. */
  lemma HandReplaced(order: seq<string>, hands: map<string, seq<Card>>, u: string, hand: seq<Card>)
    requires Seated(order, hands) && u in hands
    ensures Seated(order, hands[u := hand])
    ensures Held(order, hands[u := hand]) + multiset(hands[u]) == Held(order, hands) + multiset(hand)
    ensures HandTotal(order, hands[u := hand]) + |hands[u]| == HandTotal(order, hands) + |hand|
  {
    assert order[0] != order[1] && order[0] != order[2] && order[1] != order[2];
  }

  lemma HandIsPartOfDeck(order: seq<string>, hands: map<string, seq<Card>>, rest: multiset<Card>, u: string)
    requires Seated(order, hands) && u in hands
    requires Held(order, hands) + rest == multiset(Deck())
    ensures multiset(hands[u]) <= multiset(Deck())
  {
    assert multiset(hands[u]) <= Held(order, hands);
  }

  method DealCards(order: seq<string>, seed: int)
    returns (hands: map<string, seq<Card>>, bottom: seq<Card>, next: int)
    requires |order| == SEATS && NoRepeats(order) && "" !in order
    ensures Dealt(order, hands, bottom) && DealtFrom(order, hands, bottom, seed)
    ensures next == SeedAfter(seed, 53)
  {
    hide Shuffled, Deck, SortedByRank, Third, SeedAfter;
    var deck;
    deck, next := ShuffledDeck(seed);
    var h0, h1, h2;
    h0, h1, h2, bottom := DealSorted(deck);
    assert order[0] != order[1] && order[0] != order[2] && order[1] != order[2];
    hands := map[order[0] := h0, order[1] := h1, order[2] := h2];
  }

  // ---- A game in play ----

  /** Legal so far, with every card either held or played. */
  ghost predicate GameOk(order: seq<string>, hands: map<string, seq<Card>>, first: nat, log: seq<Act>) {
    && Seated(order, hands) && HandsSorted(hands)
    && first < SEATS && Legal(first, log)
    && Held(order, hands) + CardsPlayed(log) == multiset(Deck())
  }

  lemma LogGrows(first: nat, log: seq<Act>, a: Act)
    requires Legal(first, log) && LegalNext(After(first, log), a)
    ensures Legal(first, log + [a]) && After(first, log + [a]) == Then(After(first, log), a)
    ensures CardsPlayed(log + [a]) == CardsPlayed(log) + CardsOf(a)
  {
    AfterStep(first, log, a);
    assert (log + [a])[..|log|] == log;
  }

  lemma PassKeepsGame(order: seq<string>, hands: map<string, seq<Card>>, first: nat, log: seq<Act>)
    requires GameOk(order, hands, first, log) && After(first, log).lead.Some?
    ensures var a := Pass(After(first, log).turn);
            && GameOk(order, hands, first, log + [a])
            && After(first, log + [a]) == Then(After(first, log), a)
  {
    LogGrows(first, log, Pass(After(first, log).turn));
  }

  /** Moving the chosen cards from the hand of the player in turn to the table keeps the deck whole. */
  lemma PlayKeepsGame(order: seq<string>, hands: map<string, seq<Card>>, first: nat, log: seq<Act>, ids: set<int>)
    requires GameOk(order, hands, first, log) && After(first, log).turn < SEATS
    requires var u := order[After(first, log).turn];
             LegalNext(After(first, log), Play(After(first, log).turn, Chosen(hands[u], ids)))
    ensures var seat := After(first, log).turn;
            var u := order[seat];
            var a := Play(seat, Chosen(hands[u], ids));
            var hands' := hands[u := Kept(hands[u], ids)];
            && GameOk(order, hands', first, log + [a])
            && After(first, log + [a]) == Then(After(first, log), a)
            && HandTotal(order, hands') + |a.cards| == HandTotal(order, hands)
  {
    hide Chosen, Kept, SortedByRank, Legal, LegalNext, After, Then, CardsPlayed, Deck;
    var seat := After(first, log).turn;
    var u := order[seat];
    var hand := hands[u];
    var a := Play(seat, Chosen(hand, ids));
    LogGrows(first, log, a);
    TakingSplitsTheHand(hand, ids);
    KeptStaysSorted(hand, ids);
    HandReplaced(order, hands, u, Kept(hand, ids));
    assert |multiset(a.cards)| + |multiset(Kept(hand, ids))| == |multiset(hand)|;
    CardsMove(Held(order, hands), multiset(hand), multiset(a.cards), multiset(Kept(hand, ids)),
              Held(order, hands[u := Kept(hand, ids)]));
  }

  lemma CardsMove(held: multiset<Card>, hand: multiset<Card>, taken: multiset<Card>, kept: multiset<Card>, held': multiset<Card>)
    requires hand <= held && taken + kept == hand && held' + hand == held + kept
    ensures held' + taken == held
  {
    assert held' + taken + kept == held + kept;
    forall c ensures (held' + taken)[c] == held[c] {
      assert (held' + hand)[c] == (held + kept)[c];
    }
  }

  /** A hand put back in some sorted order is the same hand. */
  lemma ReturnKeepsGame(order: seq<string>, hands: map<string, seq<Card>>, first: nat, log: seq<Act>, u: string, hand: seq<Card>)
    requires GameOk(order, hands, first, log) && u in hands
    requires SortedByRank(hand) && multiset(hand) == multiset(hands[u])
    ensures GameOk(order, hands[u := hand], first, log)
  {
    HandReplaced(order, hands, u, hand);
  }

  /** The smallest card of a hand is a hand of its own. */
  lemma SingleIsHand(hand: seq<Card>)
    requires hand != [] && DistinctIds(hand)
    ensures Takeable(hand, [hand[0].ID()])
    ensures Chosen(hand, Elems([hand[0].ID()])) == [hand[0]]
    ensures HandOf([hand[0]]) == Hand(Single, hand[0].rank)
  {
    var id := hand[0].ID();
    assert hand[0] in hand;
    ChosenFirst(hand, |hand|);
    assert hand[..|hand|] == hand;
    ShapedIsHandOf([hand[0]], Single, hand[0].rank);
  }

  lemma {:induction false} ChosenFirst(hand: seq<Card>, n: nat)
    requires 1 <= n <= |hand| && DistinctIds(hand)
    ensures Chosen(hand[..n], Elems([hand[0].ID()])) == [hand[0]]
  {
    assert hand[..n][..n - 1] == hand[..n - 1];
    if n > 1 {
      ChosenFirst(hand, n - 1);
    } else {
      assert hand[..1] == [hand[0]];
    }
  }

  // ---- Small facts, for use where the definitions stay hidden ----

  lemma DealtFacts(order: seq<string>, hands: map<string, seq<Card>>, bottom: seq<Card>)
    requires Dealt(order, hands, bottom)
    ensures |order| == SEATS && NoRepeats(order) && "" !in order
    ensures forall s | 0 <= s < SEATS :: order[s] in hands
  {
  }

  lemma GameFacts(order: seq<string>, hands: map<string, seq<Card>>, first: nat, log: seq<Act>)
    requires GameOk(order, hands, first, log)
    ensures |order| == SEATS && NoRepeats(order) && Seated(order, hands)
    ensures forall s | 0 <= s < SEATS :: order[s] in hands
    ensures first < SEATS && Legal(first, log) && TurnFollows(After(first, log))
    ensures forall u | u in hands :: DistinctIds(hands[u])
  {
    hide Legal, After, CardsPlayed, DistinctIds, SortedByRank, Held;
    TurnArithmetic(first, log);
    HandsHaveDistinctIds(order, hands, CardsPlayed(log));
  }

  lemma HandsHaveDistinctIds(order: seq<string>, hands: map<string, seq<Card>>, rest: multiset<Card>)
    requires Seated(order, hands) && Held(order, hands) + rest == multiset(Deck())
    ensures forall u | u in hands :: DistinctIds(hands[u])
  {
    hide Seated, Held, Deck, DistinctIds;
    forall u | u in hands ensures DistinctIds(hands[u]) {
      HandIsPartOfDeck(order, hands, rest, u);
      HandHasDistinctIds(hands[u]);
    }
  }

  lemma GameBegins(order: seq<string>, hands: map<string, seq<Card>>, first: nat)
    requires Seated(order, hands) && HandsSorted(hands) && Held(order, hands) == multiset(Deck()) && first < SEATS
    ensures GameOk(order, hands, first, []) && After(first, []) == Table(None, 0, first, [])
  {
  }

  /** What the player in turn may do: pass if there is a play to beat, or play a hand that beats it. */
  ghost predicate Allowed(hand: seq<Card>, last: Option<seq<Card>>, ids: seq<int>) {
    if ids == [] then last.Some?
    else
      && Takeable(hand, ids)
      && var cards := Chosen(hand, Elems(ids));
         HandOf(cards).typ != Invalid && (last.Some? ==> Beats(cards, last.value))
  }

  lemma LeadingSingleIsAllowed(hand: seq<Card>)
    requires hand != [] && DistinctIds(hand)
    ensures Allowed(hand, None, [hand[0].ID()])
    ensures Chosen(hand, Elems([hand[0].ID()])) == [hand[0]]
  {
    SingleIsHand(hand);
  }

  lemma AllowedCards(hand: seq<Card>, last: Option<seq<Card>>, ids: seq<int>)
    requires ids != []
    ensures Allowed(hand, last, ids) <==>
            && Takeable(hand, ids)
            && HandOf(Chosen(hand, Elems(ids))).typ != Invalid
            && (last.Some? ==> Beats(Chosen(hand, Elems(ids)), last.value))
  {
  }

  lemma AllowedPass(hand: seq<Card>)
    ensures forall last :: Allowed(hand, last, []) <==> last.Some?
  {
  }

  lemma HandHasCards(cards: seq<Card>)
    requires HandOf(cards).typ != Invalid
    ensures cards != []
  {
  }

  ghost predicate OnlyOneMayBeEmpty(hands: map<string, seq<Card>>, uid: string) {
    forall u | u in hands && u != uid :: hands[u] != []
  }

  lemma OthersHoldCards(hands: map<string, seq<Card>>, uid: string, hand: seq<Card>)
    requires HandsLeft(hands)
    ensures OnlyOneMayBeEmpty(hands[uid := hand], uid)
  {
  }

  lemma NoHandEmpty(hands: map<string, seq<Card>>, uid: string)
    requires OnlyOneMayBeEmpty(hands, uid) && uid in hands && hands[uid] != []
    ensures HandsLeft(hands)
  {
  }

  /** With the turn arithmetic, the play to beat is never the player's own. */
  lemma LastPlayerIsAnother(t: Table, order: seq<string>)
    requires |order| == SEATS && NoRepeats(order) && TurnFollows(t) && t.lead.Some?
    ensures order[t.turn] != order[t.lead.value.seat]
  {
  }

  /** The game and the table after a legal play by the player in turn. */
  lemma PlayResult(order: seq<string>, hands: map<string, seq<Card>>, first: nat, log: seq<Act>, seat: nat, ids: set<int>)
    requires GameOk(order, hands, first, log) && seat == After(first, log).turn
    requires seat < |order| && order[seat] in hands
    requires LegalNext(After(first, log), Play(seat, Chosen(hands[order[seat]], ids)))
    ensures var cards := Chosen(hands[order[seat]], ids);
            var hands' := hands[order[seat] := Kept(hands[order[seat]], ids)];
            var log' := log + [Play(seat, cards)];
            && GameOk(order, hands', first, log')
            && After(first, log').lead == Some(Lead(seat, cards))
            && After(first, log').passes == 0
            && After(first, log').turn == NextSeat(seat)
            && Seated(order, hands') && Seated(order, hands)
            && HandTotal(order, hands') < HandTotal(order, hands)
  {
    PlayKeepsGame(order, hands, first, log, ids);
    HandHasCards(Chosen(hands[order[seat]], ids));
    GameFacts(order, hands, first, log);
  }

  function NextSeat(seat: nat): nat {
    (seat + 1) % SEATS
  }

  lemma SeatFacts(order: seq<string>, hands: map<string, seq<Card>>, first: nat, log: seq<Act>, seat: nat)
    requires GameOk(order, hands, first, log) && seat < |order|
    ensures |order| == SEATS && order[seat] in hands && first < SEATS
    ensures order[seat] == order[first] <==> seat == first
    ensures NextSeat(seat) < SEATS
  {
  }

  /** Every player holds the same cards, perhaps in another order. */
  ghost predicate SameHands(a: map<string, seq<Card>>, b: map<string, seq<Card>>) {
    a.Keys == b.Keys && forall u | u in a :: multiset(a[u]) == multiset(b[u])
  }

  lemma PutBackResult(order: seq<string>, hands: map<string, seq<Card>>, first: nat, log: seq<Act>, uid: string, hand: seq<Card>)
    requires GameOk(order, hands, first, log) && HandsLeft(hands) && uid in hands
    requires SortedByRank(hand) && multiset(hand) == multiset(hands[uid])
    ensures GameOk(order, hands[uid := hand], first, log)
    ensures HandsLeft(hands[uid := hand]) && SameHands(hands, hands[uid := hand])
  {
    ReturnKeepsGame(order, hands, first, log, uid, hand);
    assert |multiset(hand)| == |multiset(hands[uid])|;
  }

  lemma HandSizes(order: seq<string>, hands: map<string, seq<Card>>, first: nat, log: seq<Act>)
    requires GameOk(order, hands, first, log)
    ensures forall u | u in hands :: |hands[u]| <= 54
  {
    forall u | u in hands ensures |hands[u]| <= 54 {
      HandIsPartOfDeck(order, hands, CardsPlayed(log), u);
      SubMultisetIsSmaller(multiset(hands[u]), multiset(Deck()));
    }
  }

  /** Whether the landlord holds no more cards than anyone else. */
  method LandlordAhead(hands: map<string, seq<Card>>, landlord: string) returns (ahead: bool)
    requires landlord in hands && |hands[landlord]| <= 0x4000_0000
    ensures ahead <==> forall u | u in hands && u != landlord :: |hands[landlord]| <= |hands[u]|
  {
    var least := 0x4000_0000;
    var left := hands.Keys;
    while left != {}
      invariant left <= hands.Keys
      invariant |hands[landlord]| <= least <==>
                forall u | u in hands && u != landlord && u !in left :: |hands[landlord]| <= |hands[u]|
      decreases left
    {
      var u := Pick(left);
      if u != landlord && |hands[u]| < least {
        least := |hands[u]|;
      }
      left := left - {u};
    }
    ahead := |hands[landlord]| <= least;
  }
}

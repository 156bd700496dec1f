/** Shuffling, dealing and sorting: nothing here adds, drops or duplicates a card. */
module Dealing {
  import opened Common
  import opened Cards

  const HAND_PER_PLAYER := 17
  const LANDLORD_CARDS := 3

  // ---- The shuffle ----

  function WrapInt64(x: int): int {
    (x + 0x8000_0000_0000_0000) % 0x1_0000_0000_0000_0000 - 0x8000_0000_0000_0000
  }

  function NextSeed(seed: int): int {
    WrapInt64(seed * 1103515245 + 12345)
  }

  /** The slot that slot `i` is exchanged with: the seed shifted right by 16, as an unsigned number. */
  function SwapSlot(seed: int, i: nat): (j: nat)
    ensures j <= i
  {
    (seed / 0x1_0000) % 0x1_0000_0000_0000_0000 % (i + 1)
  }

  /** The deck after the exchanges for slots `i` down to 1. */
  function Shuffled<T>(s: seq<T>, seed: int, i: nat): (r: seq<T>)
    requires i < |s|
    decreases i
  {
    if i == 0 then s
    else Shuffled(Swapped(s, i, SwapSlot(NextSeed(seed), i)), NextSeed(seed), i - 1)
  }

  lemma SwapKeepsCards<T>(s: seq<T>, i: nat, j: nat)
    requires i < |s| && j < |s|
    ensures multiset(Swapped(s, i, j)) == multiset(s)
  {
  }

  /** Whatever the seed, a shuffle is a permutation. */
  lemma {:induction false} ShuffleIsPermutation<T>(s: seq<T>, seed: int, i: nat)
    requires i < |s|
    ensures |Shuffled(s, seed, i)| == |s| && multiset(Shuffled(s, seed, i)) == multiset(s)
    decreases i
  {
    if i > 0 {
      var j := SwapSlot(NextSeed(seed), i);
      SwapKeepsCards(s, i, j);
      ShuffleIsPermutation(Swapped(s, i, j), NextSeed(seed), i - 1);
    }
  }

  /** The seed after `n` draws; the room keeps it for its next deal. */
  function SeedAfter(seed: int, n: nat): int
    decreases n
  {
    if n == 0 then seed else SeedAfter(NextSeed(seed), n - 1)
  }

  lemma {:induction false} SeedAfterMore(seed: int, m: nat, n: nat)
    ensures SeedAfter(SeedAfter(seed, m), n) == SeedAfter(seed, m + n)
    decreases m
  {
    if m > 0 {
      SeedAfterMore(NextSeed(seed), m - 1, n);
    }
  }

  /** `next` is the draw after `seed` of the linear congruential generator over 64-bit signed integers. */
  ghost predicate Drawn(seed: int, next: int) {
    && -0x8000_0000_0000_0000 <= next < 0x8000_0000_0000_0000
    && (next - (1103515245 * seed + 12345)) % 0x1_0000_0000_0000_0000 == 0
  }

  lemma NextIsDrawn(seed: int, next: int)
    ensures next == NextSeed(seed) <==> Drawn(seed, next)
  {
    DrawIsUnique(1103515245 * seed + 12345, next);
  }

  lemma DrawIsUnique(x: int, next: int)
    ensures next == WrapInt64(x) <==>
            -0x8000_0000_0000_0000 <= next < 0x8000_0000_0000_0000 && (next - x) % 0x1_0000_0000_0000_0000 == 0
  {
  }

  /** `high` is `next` without its low 16 bits, the sign kept. */
  ghost predicate High(next: int, high: int) {
    0x1_0000 * high <= next < 0x1_0000 * (high + 1)
  }

  /** A negative `high` counts as the unsigned number with the same 64 bits. */
  lemma SlotIs(next: int, high: int, i: nat)
    requires -0x8000_0000_0000_0000 <= next < 0x8000_0000_0000_0000 && High(next, high)
    ensures SwapSlot(next, i) == (if high < 0 then high + 0x1_0000_0000_0000_0000 else high) % (i + 1)
  {
    assert next / 0x1_0000 == high;
  }

  /** `b` is `a` with the cards of slots `i` and `j` exchanged. */
  ghost predicate Exchanged<T>(a: seq<T>, b: seq<T>, i: nat, j: nat) {
    && i < |a| && j < |a| && |b| == |a|
    && b[i] == a[j] && b[j] == a[i]
    && forall k | 0 <= k < |a| && k != i && k != j :: b[k] == a[k]
  }

  /** One exchange of the shuffle: slot `i` with the slot that the next draw names. */
  ghost predicate Turn<T>(a: seq<T>, b: seq<T>, seed: int, next: int, i: nat) {
    && Drawn(seed, next)
    && exists high :: High(next, high) && Exchanged(a, b, i, (if high < 0 then high + 0x1_0000_0000_0000_0000 else high) % (i + 1))
  }

  lemma TurnIsSwap<T>(a: seq<T>, b: seq<T>, seed: int, next: int, i: nat)
    requires Turn(a, b, seed, next, i)
    ensures i < |a| && next == NextSeed(seed) && b == Swapped(a, i, SwapSlot(next, i))
  {
    hide NextSeed, SwapSlot;
    NextIsDrawn(seed, next);
    var high :| High(next, high) && Exchanged(a, b, i, (if high < 0 then high + 0x1_0000_0000_0000_0000 else high) % (i + 1));
    SlotIs(next, high, i);
  }

  /** The shuffle is the one Fisher-Yates run from the top slot down that the draws from `seed` determine. */
  lemma {:induction false} FisherYates<T>(decks: seq<seq<T>>, seeds: seq<int>, i: nat)
    requires |decks| == |seeds| == i + 1 && i < |decks[0]|
    requires forall n | 0 <= n < i :: Turn(decks[n], decks[n + 1], seeds[n], seeds[n + 1], i - n)
    ensures decks[i] == Shuffled(decks[0], seeds[0], i) && seeds[i] == SeedAfter(seeds[0], i)
    decreases i
  {
    hide Turn;
    if i > 0 {
      assert Turn(decks[0], decks[1], seeds[0], seeds[1], i - 0);
      TurnIsSwap(decks[0], decks[1], seeds[0], seeds[1], i);
      forall n | 0 <= n < i - 1 ensures Turn(decks[1..][n], decks[1..][n + 1], seeds[1..][n], seeds[1..][n + 1], i - 1 - n) {
        assert Turn(decks[n + 1], decks[n + 1 + 1], seeds[n + 1], seeds[n + 1 + 1], i - (n + 1));
      }
      FisherYates(decks[1..], seeds[1..], i - 1);
    }
  }

  /** Every exchange draws once, so the seed a shuffle leaves does not depend on the cards. */
  method Shuffle(deck: array<Card>, seed: int) returns (next: int)
    requires deck.Length > 0
    modifies deck
    ensures deck[..] == Shuffled(old(deck[..]), seed, deck.Length - 1)
    ensures next == SeedAfter(seed, deck.Length - 1)
  {
    next := seed;
    var i := deck.Length - 1;
    while i > 0
      invariant 0 <= i < deck.Length
      invariant Shuffled(old(deck[..]), seed, deck.Length - 1) == Shuffled(deck[..], next, i)
      invariant SeedAfter(seed, deck.Length - 1) == SeedAfter(next, i)
    {
      ghost var before := deck[..];
      next := NextSeed(next);
      var j := SwapSlot(next, i);
      deck[i], deck[j] := deck[j], deck[i];
      assert deck[..] == Swapped(before, i, j);
      i := i - 1;
    }
  }

  // ---- Dealing out ----

  /** The first `n` cards that go to seat `k`: every third card from the `k`-th on. */
  function EveryThird(deck: seq<Card>, k: nat, n: nat): seq<Card>
    requires k < 3 && 3 * n <= |deck|
  {
    seq(n, j requires 0 <= j < n => deck[3 * j + k])
  }

  method DealOut(deck: seq<Card>) returns (h0: seq<Card>, h1: seq<Card>, h2: seq<Card>, bottom: seq<Card>)
    requires |deck| == 54
    ensures h0 == EveryThird(deck, 0, HAND_PER_PLAYER)
    ensures h1 == EveryThird(deck, 1, HAND_PER_PLAYER)
    ensures h2 == EveryThird(deck, 2, HAND_PER_PLAYER)
    ensures bottom == deck[51..]
  {
    h0, h1, h2 := [], [], [];
    var i := 0;
    while i < HAND_PER_PLAYER * 3
      invariant 0 <= i <= 51
      invariant |h0| == (i + 2) / 3 && |h1| == (i + 1) / 3 && |h2| == i / 3
      invariant forall j | 0 <= j < |h0| :: h0[j] == deck[3 * j]
      invariant forall j | 0 <= j < |h1| :: h1[j] == deck[3 * j + 1]
      invariant forall j | 0 <= j < |h2| :: h2[j] == deck[3 * j + 2]
    {
      if i % 3 == 0 {
        h0 := h0 + [deck[i]];
      } else if i % 3 == 1 {
        h1 := h1 + [deck[i]];
      } else {
        h2 := h2 + [deck[i]];
      }
      i := i + 1;
    }
    bottom := deck[51..];
  }

  /** The cards go round: card `n` is the `n / 3`-th of seat `n % 3`. */
  lemma CardGoesTo(deck: seq<Card>, n: nat)
    requires |deck| == 54 && n < 51
    ensures |EveryThird(deck, n % 3, 17)| == 17 && EveryThird(deck, n % 3, 17)[n / 3] == deck[n]
  {
    assert 3 * (n / 3) + n % 3 == n;
  }

  /** The same cards, in no order. */
  ghost function Third(deck: seq<Card>, k: nat, n: nat): multiset<Card>
    requires k < 3 && 3 * n <= |deck|
  {
    multiset(EveryThird(deck, k, n))
  }

  ghost function First(deck: seq<Card>, n: nat): multiset<Card>
    requires n <= |deck|
  {
    multiset(deck[..n])
  }

  lemma {:induction false} ThirdsPartition(deck: seq<Card>, n: nat)
    requires 3 * n <= |deck|
    ensures Third(deck, 0, n) + Third(deck, 1, n) + Third(deck, 2, n) == First(deck, 3 * n)
    decreases n
  {
    if n > 0 {
      OneMoreRound(deck, n, 3 * (n - 1));
    }
  }

  lemma {:induction false} OneMoreRound(deck: seq<Card>, n: nat, i: nat)
    requires 1 <= n && 3 * n <= |deck| && i == 3 * (n - 1)
    ensures Third(deck, 0, n) + Third(deck, 1, n) + Third(deck, 2, n) == First(deck, i + 3)
    decreases n, 0
  {
    hide Third, First;
    ThirdsPartition(deck, n - 1);
    OneMoreThird(deck, 0, n);
    OneMoreThird(deck, 1, n);
    OneMoreThird(deck, 2, n);
    ThreeMoreCards(deck, i);
    ThreeMore(Third(deck, 0, n - 1), Third(deck, 1, n - 1), Third(deck, 2, n - 1), First(deck, i), deck[i], deck[i + 1], deck[i + 2]);
  }

  lemma OneMoreThird(deck: seq<Card>, k: nat, n: nat)
    requires 1 <= n && 3 * n <= |deck| && k < 3
    ensures Third(deck, k, n) == Third(deck, k, n - 1) + multiset{deck[3 * (n - 1) + k]}
  {
    assert EveryThird(deck, k, n) == EveryThird(deck, k, n - 1) + [deck[3 * (n - 1) + k]];
  }

  lemma ThreeMoreCards(deck: seq<Card>, i: nat)
    requires i + 3 <= |deck|
    ensures First(deck, i + 3) == First(deck, i) + multiset{deck[i]} + multiset{deck[i + 1]} + multiset{deck[i + 2]}
  {
    assert deck[..i + 1] == deck[..i] + [deck[i]];
    assert deck[..i + 2] == deck[..i + 1] + [deck[i + 1]];
    assert deck[..i + 3] == deck[..i + 2] + [deck[i + 2]];
  }

  lemma ThreeMore(a: multiset<Card>, b: multiset<Card>, c: multiset<Card>, d: multiset<Card>, x: Card, y: Card, z: Card)
    requires a + b + c == d
    ensures (a + multiset{x}) + (b + multiset{y}) + (c + multiset{z}) == d + multiset{x} + multiset{y} + multiset{z}
  {
  }

  /** The three hands and the bottom cards are the whole deck. */
  lemma DealIsPartition(deck: seq<Card>)
    requires |deck| == 54
    ensures multiset(EveryThird(deck, 0, HAND_PER_PLAYER)) + multiset(EveryThird(deck, 1, HAND_PER_PLAYER)) +
            multiset(EveryThird(deck, 2, HAND_PER_PLAYER)) + multiset(deck[51..]) == multiset(deck)
  {
    ThirdsPartition(deck, HAND_PER_PLAYER);
    assert First(deck, 51) == multiset(deck[..51]);
    assert deck == deck[..51] + deck[51..];
  }

  // ---- Sorting a hand ----

  ghost predicate SortedByRank(s: seq<Card>) {
    forall i, j | 0 <= i < j < |s| :: s[i].rank <= s[j].rank
  }

  method InsertByRank(s: seq<Card>, c: Card) returns (r: seq<Card>)
    requires SortedByRank(s)
    ensures SortedByRank(r) && multiset(r) == multiset(s) + multiset{c}
  {
    var j := |s|;
    while j > 0 && c.Less(s[j - 1])
      invariant 0 <= j <= |s|
      invariant j < |s| ==> c.rank <= s[j].rank
    {
      j := j - 1;
    }
    r := s[..j] + [c] + s[j..];
    SortedWithOneMore(s, j, c);
  }

  lemma SortedWithOneMore(s: seq<Card>, j: nat, c: Card)
    requires SortedByRank(s) && j <= |s|
    requires j > 0 ==> s[j - 1].rank <= c.rank
    requires j < |s| ==> c.rank <= s[j].rank
    ensures SortedByRank(s[..j] + [c] + s[j..]) && multiset(s[..j] + [c] + s[j..]) == multiset(s) + multiset{c}
  {
    hide SortedByRank;
    assert multiset(s[..j] + [c] + s[j..]) == multiset(s) + multiset{c} by {
      assert s == s[..j] + s[j..];
    }
    StaysSorted(s, j, c);
  }

  lemma StaysSorted(s: seq<Card>, j: nat, c: Card)
    requires SortedByRank(s) && j <= |s|
    requires j > 0 ==> s[j - 1].rank <= c.rank
    requires j < |s| ==> c.rank <= s[j].rank
    ensures SortedByRank(s[..j] + [c] + s[j..])
  {
    var r := s[..j] + [c] + s[j..];
    forall i, k | 0 <= i < k < |r| ensures r[i].rank <= r[k].rank {
      assert r[i] == if i < j then s[i] else if i == j then c else s[i - 1];
      assert r[k] == if k < j then s[k] else if k == j then c else s[k - 1];
    }
  }

  /** Some ordering of the cards by rank; callers learn nothing about the order of equal ranks. */
  method SortHand(s: seq<Card>) returns (r: seq<Card>)
    ensures SortedByRank(r) && multiset(r) == multiset(s) && |r| == |s|
  {
    r := [];
    for i := 0 to |s|
      invariant SortedByRank(r) && multiset(r) == multiset(s[..i])
    {
      assert s[..i + 1] == s[..i] + [s[i]];
      r := InsertByRank(r, s[i]);
    }
    assert s[..|s|] == s;
    assert |multiset(r)| == |multiset(s)|;
  }

  /** A freshly shuffled deck and the seed for the next one. */
  method ShuffledDeck(seed: int) returns (cards: seq<Card>, next: int)
    ensures cards == Shuffled(Deck(), seed, 53)
    ensures |cards| == 54 && multiset(cards) == multiset(Deck())
    ensures next == SeedAfter(seed, 53)
  {
    var sorted := FullDeck();
    var deck := new Card[54](i requires 0 <= i < 54 => sorted[i]);
    assert deck[..] == Deck();
    next := Shuffle(deck, seed);
    ShuffleIsPermutation(Deck(), seed, 53);
    cards := deck[..];
  }

  /** Three sorted hands of 17 and the three bottom cards. */
  method DealSorted(deck: seq<Card>) returns (h0: seq<Card>, h1: seq<Card>, h2: seq<Card>, bottom: seq<Card>)
    requires |deck| == 54
    ensures |h0| == |h1| == |h2| == HAND_PER_PLAYER && |bottom| == LANDLORD_CARDS
    ensures SortedByRank(h0) && SortedByRank(h1) && SortedByRank(h2)
    ensures multiset(h0) + multiset(h1) + multiset(h2) + multiset(bottom) == multiset(deck)
    ensures multiset(h0) == Third(deck, 0, 17) && multiset(h1) == Third(deck, 1, 17) && multiset(h2) == Third(deck, 2, 17)
    ensures bottom == deck[51..]
  {
    h0, h1, h2, bottom := DealOut(deck);
    DealIsPartition(deck);
    h0 := SortHand(h0);
    h1 := SortHand(h1);
    h2 := SortHand(h2);
  }

  // ---- Taking named cards from a hand ----

  function Chosen(hand: seq<Card>, ids: set<int>): (r: seq<Card>) {
    if hand == [] then []
    else Chosen(hand[..|hand| - 1], ids) +
         if hand[|hand| - 1].ID() in ids then [hand[|hand| - 1]] else []
  }

  function Kept(hand: seq<Card>, ids: set<int>): (r: seq<Card>) {
    if hand == [] then []
    else Kept(hand[..|hand| - 1], ids) +
         if hand[|hand| - 1].ID() in ids then [] else [hand[|hand| - 1]]
  }

  /** Taking cards splits the hand. */
  lemma {:induction false} TakingSplitsTheHand(hand: seq<Card>, ids: set<int>)
    ensures multiset(Chosen(hand, ids)) + multiset(Kept(hand, ids)) == multiset(hand)
  {
    if hand != [] {
      assert hand == hand[..|hand| - 1] + [hand[|hand| - 1]];
      TakingSplitsTheHand(hand[..|hand| - 1], ids);
    }
  }

  lemma {:induction false} KeptFromHand(hand: seq<Card>, ids: set<int>)
    ensures forall c | c in Kept(hand, ids) :: c in hand
  {
    if hand != [] {
      KeptFromHand(hand[..|hand| - 1], ids);
    }
  }

  lemma {:induction false} KeptStaysSorted(hand: seq<Card>, ids: set<int>)
    requires SortedByRank(hand)
    ensures SortedByRank(Kept(hand, ids))
  {
    if hand != [] {
      var n := |hand| - 1;
      var front := hand[..n];
      KeptStaysSorted(front, ids);
      KeptFromHand(front, ids);
      forall i | 0 <= i < |Kept(front, ids)| ensures Kept(front, ids)[i].rank <= hand[n].rank {
        assert Kept(front, ids)[i] in front;
      }
    }
  }
}

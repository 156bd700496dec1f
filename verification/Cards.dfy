/**
 Dou Dizhu cards and hand shapes: what each hand type means, stated over rank counts, and
 the consequences that do not depend on how a hand is recognised.
 */
module Cards {
  datatype Card = Card(suit: int, rank: int, joker: int) {
    function ID(): int {
      if joker >= 0 then 100 + joker else suit * 100 + rank
    }

    predicate Less(o: Card) {
      rank < o.rank
    }
  }

  const LITTLE_JOKER := 16
  const BIG_JOKER := 17
  const HIGHEST_RUN_RANK := 14   // ace; a run holds neither twos nor jokers

  datatype HandType =
    Invalid | Single | Pair | Triple | TripleOne | TriplePair | Straight | Plane | Bomb | Rocket

  // ---- The deck ----

  function DeckCard(i: nat): Card {
    if i < 52 then Card(i / 13, 3 + i % 13, -1) else Card(0, i - 36, i - 52)
  }

  function Deck(): (d: seq<Card>)
    ensures |d| == 54
  {
    seq(54, i requires 0 <= i < 54 => DeckCard(i))
  }

  method FullDeck() returns (deck: seq<Card>)
    ensures deck == Deck()
  {
    deck := [];
    for suit := 0 to 4
      invariant |deck| == 13 * suit
      invariant forall i | 0 <= i < |deck| :: deck[i] == DeckCard(i)
    {
      for rank := 3 to 16
        invariant |deck| == 13 * suit + (rank - 3)
        invariant forall i | 0 <= i < |deck| :: deck[i] == DeckCard(i)
      {
        deck := deck + [Card(suit, rank, -1)];
      }
    }
    deck := deck + [Card(0, LITTLE_JOKER, 0)];
    deck := deck + [Card(0, BIG_JOKER, 1)];
  }

  predicate IsDeckCard(c: Card) {
    || (c.joker == -1 && 0 <= c.suit < 4 && 3 <= c.rank <= 15)
    || (c.suit == 0 && 0 <= c.joker <= 1 && c.rank == LITTLE_JOKER + c.joker)
  }

  lemma DeckHolds(c: Card)
    ensures c in Deck() <==> IsDeckCard(c)
    ensures multiset(Deck())[c] == if IsDeckCard(c) then 1 else 0
  {
    if c in Deck() {
      var i :| 0 <= i < |Deck()| && Deck()[i] == c;
      assert c == DeckCard(i);
    }
    if IsDeckCard(c) {
      var i := if c.joker < 0 then 13 * c.suit + (c.rank - 3) else 52 + c.joker;
      assert Deck()[i] == DeckCard(i) == c;
    }
    assert forall i, j | 0 <= i < j < 54 :: Deck()[i] != Deck()[j] by {
      forall i, j | 0 <= i < j < 54 ensures DeckCard(i) != DeckCard(j) {
        assert i < 52 && j < 52 ==> i == 13 * (i / 13) + i % 13 && j == 13 * (j / 13) + j % 13;
      }
    }
    DistinctMultiplicity(Deck(), c);
  }

  /** The unshuffled deck: four suits of 3 to 15 in rising order, then the little and the big joker. */
  lemma DeckOrder(suit: nat, rank: nat)
    requires suit < 4 && 3 <= rank <= 15
    ensures Deck()[13 * suit + (rank - 3)] == Card(suit, rank, -1) && Deck()[13 * suit + (rank - 3)].ID() == 100 * suit + rank
    ensures Deck()[52] == Card(0, 16, 0) && Deck()[52].ID() == 100
    ensures Deck()[53] == Card(0, 17, 1) && Deck()[53].ID() == 101
  {
    assert (13 * suit + (rank - 3)) / 13 == suit && (13 * suit + (rank - 3)) % 13 == rank - 3;
  }

  lemma {:induction false} DistinctMultiplicity<T>(s: seq<T>, x: T)
    requires forall i, j | 0 <= i < j < |s| :: s[i] != s[j]
    ensures multiset(s)[x] == if x in s then 1 else 0
  {
    if s != [] {
      DistinctMultiplicity(s[..|s| - 1], x);
      assert s == s[..|s| - 1] + [s[|s| - 1]];
    }
  }

  /** Clients name cards by ID; no two cards of the deck share one. */
  lemma IdsAreInjective(c: Card, d: Card)
    requires IsDeckCard(c) && IsDeckCard(d) && c.ID() == d.ID()
    ensures c == d
  {
  }

  // ---- Counting ranks ----

  function Count(cards: seq<Card>, r: int): nat {
    if cards == [] then 0
    else Count(cards[..|cards| - 1], r) + if cards[|cards| - 1].rank == r then 1 else 0
  }

  lemma {:induction false} CountAppend(a: seq<Card>, b: seq<Card>, r: int)
    ensures Count(a + b, r) == Count(a, r) + Count(b, r)
    decreases |b|
  {
    if b == [] {
      assert a + b == a;
    } else {
      assert (a + b)[..|a + b| - 1] == a + b[..|b| - 1];
      CountAppend(a, b[..|b| - 1], r);
    }
  }

  lemma {:induction false} CountsArePermutationInvariant(a: seq<Card>, b: seq<Card>, r: int)
    requires multiset(a) == multiset(b)
    ensures Count(a, r) == Count(b, r)
    decreases |a|
  {
    if a == [] {
      assert |multiset(b)| == 0;
    } else {
      var x := a[|a| - 1];
      assert a == a[..|a| - 1] + [x];
      assert x in multiset(b);
      var j :| 0 <= j < |b| && b[j] == x;
      var rest := b[..j] + b[j + 1..];
      assert b == b[..j] + [x] + b[j + 1..];
      assert multiset(a) == multiset(a[..|a| - 1]) + multiset{x};
      assert multiset(b) == multiset(rest) + multiset{x};
      assert multiset(a[..|a| - 1]) == multiset(a) - multiset{x} == multiset(b) - multiset{x} == multiset(rest);
      CountsArePermutationInvariant(a[..|a| - 1], rest, r);
      CountAppend(b[..j], b[j + 1..], r);
      CountAppend(b[..j], [x], r);
      CountAppend(b[..j] + [x], b[j + 1..], r);
    }
  }

  lemma {:induction false} TwoRanksFit(cards: seq<Card>, r: int, r': int)
    requires r != r'
    ensures Count(cards, r) + Count(cards, r') <= |cards|
  {
    if cards != [] {
      TwoRanksFit(cards[..|cards| - 1], r, r');
    }
  }

  // ---- Hand shapes ----

  /** `len` consecutive ranks from `lo`, each held exactly `k` times, none above the ace. */
  ghost predicate IsRun(cards: seq<Card>, lo: int, len: nat, k: nat) {
    && |cards| == len * k
    && lo + len - 1 <= HIGHEST_RUN_RANK
    && forall r :: Count(cards, r) == if lo <= r < lo + len then k else 0
  }

  /** The cards form a hand of type `t` whose deciding rank is `main`. */
  ghost predicate Shaped(cards: seq<Card>, t: HandType, main: int) {
    match t
    case Invalid => false
    case Single => |cards| == 1 && Count(cards, main) == 1
    case Pair => |cards| == 2 && Count(cards, main) == 2
    case Triple => |cards| == 3 && Count(cards, main) == 3
    case TripleOne => |cards| == 4 && Count(cards, main) == 3
    case TriplePair => |cards| == 5 && Count(cards, main) == 3 && exists r :: Count(cards, r) == 2
    case Straight => exists lo, len :: len >= 5 && IsRun(cards, lo, len, 1) && main == Max(0, lo + len - 1)
    case Plane => exists lo, len :: len >= 2 && IsRun(cards, lo, len, 3) && main == lo + len - 1
    case Bomb => |cards| == 4 && Count(cards, main) == 4
    case Rocket =>
      |cards| == 2 && Count(cards, LITTLE_JOKER) == 1 && Count(cards, BIG_JOKER) == 1 && main == BIG_JOKER
  }

  function Max(a: int, b: int): int {
    if a < b then b else a
  }

  datatype Hand = Hand(typ: HandType, main: int)

  /** What `classify` reports: the shape, or Invalid with rank 0 when there is none. */
  ghost function HandOf(cards: seq<Card>): (h: Hand)
    ensures if h.typ == Invalid then h.main == 0 && forall t, m :: !Shaped(cards, t, m)
            else Shaped(cards, h.typ, h.main)
  {
    if exists t, m :: Shaped(cards, t, m) then
      var t, m :| Shaped(cards, t, m);
      Hand(t, m)
    else Hand(Invalid, 0)
  }

  lemma RunsAgree(cards: seq<Card>, lo: int, len: nat, k: nat, lo': int, len': nat, k': nat)
    requires IsRun(cards, lo, len, k) && IsRun(cards, lo', len', k')
    requires len >= 1 && len' >= 1 && k >= 1 && k' >= 1
    ensures lo == lo' && len == len' && k == k'
  {
    assert Count(cards, lo) == k && Count(cards, lo') == k';
    assert lo == lo';
    if len < len' {
      assert Count(cards, lo + len) == 0;
      assert false;
    } else if len' < len {
      assert Count(cards, lo + len') == 0;
      assert false;
    }
  }

  /** A set of cards has at most one shape and one deciding rank. */
  lemma ShapeIsUnique(cards: seq<Card>, t: HandType, m: int, t': HandType, m': int)
    requires Shaped(cards, t, m) && Shaped(cards, t', m')
    ensures t == t' && m == m'
  {
    if m != m' { TwoRanksFit(cards, m, m'); }
    if t.Rocket? || t'.Rocket? {
      if m != LITTLE_JOKER { TwoRanksFit(cards, m, LITTLE_JOKER); }
      if m' != LITTLE_JOKER { TwoRanksFit(cards, m', LITTLE_JOKER); }
      if m != BIG_JOKER { TwoRanksFit(cards, m, BIG_JOKER); }
      if m' != BIG_JOKER { TwoRanksFit(cards, m', BIG_JOKER); }
    }
    if t.Straight? || t.Plane? {
      var k := if t.Straight? then 1 else 3;
      var lo, len :| len >= 2 && IsRun(cards, lo, len, k) &&
        (if t.Straight? then len >= 5 && m == Max(0, lo + len - 1) else m == lo + len - 1);
      if t'.Straight? || t'.Plane? {
        var k' := if t'.Straight? then 1 else 3;
        var lo', len' :| len' >= 2 && IsRun(cards, lo', len', k') &&
          (if t'.Straight? then len' >= 5 && m' == Max(0, lo' + len' - 1) else m' == lo' + len' - 1);
        RunsAgree(cards, lo, len, k, lo', len', k');
      }
    }
  }

  /** Any shape found is the one `HandOf` names. */
  lemma ShapedIsHandOf(cards: seq<Card>, t: HandType, m: int)
    requires Shaped(cards, t, m)
    ensures HandOf(cards) == Hand(t, m)
  {
    var h := HandOf(cards);
    ShapeIsUnique(cards, t, m, h.typ, h.main);
  }

  /** The hand does not depend on the order of the cards. */
  lemma HandIsPermutationInvariant(a: seq<Card>, b: seq<Card>)
    requires multiset(a) == multiset(b)
    ensures HandOf(a) == HandOf(b)
  {
    assert |a| == |multiset(a)| == |multiset(b)| == |b|;
    forall r ensures Count(a, r) == Count(b, r) {
      CountsArePermutationInvariant(a, b, r);
    }
    RunsCarryOver(a, b);
    RunsCarryOver(b, a);
    assert forall t, m :: Shaped(a, t, m) <==> Shaped(b, t, m);
    var h := HandOf(a);
    if h.typ != Invalid {
      ShapedIsHandOf(b, h.typ, h.main);
    }
  }

  lemma RunsCarryOver(a: seq<Card>, b: seq<Card>)
    requires |a| == |b| && forall r :: Count(a, r) == Count(b, r)
    ensures forall lo, len, k :: IsRun(a, lo, len, k) ==> IsRun(b, lo, len, k)
  {
  }

  // ---- Beating the last play ----

  predicate CanBeat(newType: HandType, newMain: int, newCount: nat,
                    lastType: HandType, lastMain: int, lastCount: nat)
  {
    if newType.Rocket? then true
    else if lastType.Rocket? then false
    else if newType.Bomb? then (if lastType.Bomb? then newMain > lastMain else true)
    else if lastType.Bomb? then false
    else newType == lastType && newCount == lastCount && newMain > lastMain
  }

  ghost predicate Beats(a: seq<Card>, b: seq<Card>) {
    CanBeat(HandOf(a).typ, HandOf(a).main, |a|, HandOf(b).typ, HandOf(b).main, |b|)
  }

  // ---- The order of hands, on the cards ----

  /** Both jokers beat everything, and nothing but both jokers beats them. */
  lemma RocketIsHighest(a: seq<Card>, b: seq<Card>)
    requires |a| == 2 && Count(a, 16) == 1 && Count(a, 17) == 1
    ensures Beats(a, b)
    ensures Beats(b, a) <==> |b| == 2 && Count(b, 16) == 1 && Count(b, 17) == 1
  {
    ShapedIsHandOf(a, Rocket, 17);
    if |b| == 2 && Count(b, 16) == 1 && Count(b, 17) == 1 {
      ShapedIsHandOf(b, Rocket, 17);
    }
  }

  /** Four of a rank beat every hand but the jokers and four of a rank at least as high. */
  lemma BombBeatsIff(a: seq<Card>, m: int, b: seq<Card>)
    requires |a| == 4 && Count(a, m) == 4
    ensures Beats(a, b) <==>
            && !(|b| == 2 && Count(b, 16) == 1 && Count(b, 17) == 1)
            && forall n :: |b| == 4 && Count(b, n) == 4 ==> m > n
  {
    ShapedIsHandOf(a, Bomb, m);
    if |b| == 2 && Count(b, 16) == 1 && Count(b, 17) == 1 {
      ShapedIsHandOf(b, Rocket, 17);
    }
    forall n | |b| == 4 && Count(b, n) == 4 ensures HandOf(b) == Hand(Bomb, n) {
      ShapedIsHandOf(b, Bomb, n);
    }
    var h := HandOf(b);
    assert h.typ == Bomb ==> |b| == 4 && Count(b, h.main) == 4;
    assert h.typ == Rocket ==> |b| == 2 && Count(b, 16) == 1 && Count(b, 17) == 1;
  }

  /** Of two bombs the higher rank wins. */
  lemma HigherBombWins(a: seq<Card>, m: int, b: seq<Card>, n: int)
    requires |a| == 4 && Count(a, m) == 4 && |b| == 4 && Count(b, n) == 4
    ensures Beats(a, b) <==> m > n
  {
    ShapedIsHandOf(a, Bomb, m);
    ShapedIsHandOf(b, Bomb, n);
  }

  /** Any other hand beats exactly those of its own type, with as many cards and a lower deciding rank. */
  lemma PlainBeatsIff(a: seq<Card>, t: HandType, m: int, b: seq<Card>)
    requires Shaped(a, t, m) && t !in {Bomb, Rocket}
    ensures Beats(a, b) <==> |a| == |b| && exists n :: n < m && Shaped(b, t, n)
  {
    ShapedIsHandOf(a, t, m);
    if n :| n < m && Shaped(b, t, n) {
      ShapedIsHandOf(b, t, n);
    }
  }

  /** Cards that form no hand beat nothing. */
  lemma NoHandBeatsNothing(a: seq<Card>, b: seq<Card>)
    requires forall t, m :: !Shaped(a, t, m)
    ensures !Beats(a, b)
  {
  }

  /** In particular one card beats one card of a lower rank, and nothing else. */
  lemma SingleBeatsIff(c: Card, b: seq<Card>)
    ensures Beats([c], b) <==> |b| == 1 && b[0].rank < c.rank
  {
    OneCard(c);
    PlainBeatsIff([c], Single, c.rank, b);
    if |b| == 1 {
      OneCard(b[0]);
      assert b == [b[0]];
      forall n | Shaped(b, Single, n) ensures n == b[0].rank {
        ShapeIsUnique(b, Single, n, Single, b[0].rank);
      }
    }
  }

  lemma OneCard(c: Card)
    ensures Shaped([c], Single, c.rank)
  {
    assert [c][..0] == [];
  }

  // ---- What the shapes are, card by card ----

  /** Five or more single cards in a row are a straight exactly when none is above the ace. */
  lemma StraightIff(cards: seq<Card>, lo: int, len: nat)
    requires len >= 5 && |cards| == len && lo >= 3 && forall r :: Count(cards, r) == if lo <= r < lo + len then 1 else 0
    ensures Shaped(cards, Straight, lo + len - 1) <==> lo + len - 1 <= 14
    ensures HandOf(cards).typ == Straight <==> lo + len - 1 <= 14
  {
    if lo + len - 1 <= 14 {
      assert IsRun(cards, lo, len, 1);
      ShapedIsHandOf(cards, Straight, lo + len - 1);
    }
    forall lo', len' | IsRun(cards, lo', len', 1) ensures lo + len - 1 <= 14 {
      assert Count(cards, lo + len - 1) == 1;
    }
  }

  /** Two or more triples in a row are a plane exactly when none is above the ace. */
  lemma PlaneIff(cards: seq<Card>, lo: int, len: nat)
    requires len >= 2 && |cards| == 3 * len && forall r :: Count(cards, r) == if lo <= r < lo + len then 3 else 0
    ensures HandOf(cards).typ == Plane <==> lo + len - 1 <= 14
    ensures HandOf(cards).typ == Plane ==> HandOf(cards).main == lo + len - 1
  {
    if lo + len - 1 <= 14 {
      assert IsRun(cards, lo, len, 3);
      ShapedIsHandOf(cards, Plane, lo + len - 1);
    }
    forall lo', len' | IsRun(cards, lo', len', 3) ensures lo + len - 1 <= 14 {
      assert Count(cards, lo + len - 1) == 3;
    }
  }

  lemma BeatsIsTransitive(a: seq<Card>, b: seq<Card>, c: seq<Card>)
    requires Beats(a, b) && Beats(b, c)
    ensures Beats(a, c)
  {
  }

  lemma {:induction false} CountedRankIsHeld(cards: seq<Card>, r: int) returns (c: Card)
    requires Count(cards, r) > 0
    ensures c in cards && c.rank == r
  {
    c := cards[|cards| - 1];
    if c.rank != r {
      c := CountedRankIsHeld(cards[..|cards| - 1], r);
    }
  }

  /** Of two plays made with different cards of one deck, at most one beats the other. */
  lemma BeatsIsAsymmetric(a: seq<Card>, b: seq<Card>)
    requires multiset(a) + multiset(b) <= multiset(Deck())
    ensures !(Beats(a, b) && Beats(b, a))
  {
    if HandOf(a).typ.Rocket? && HandOf(b).typ.Rocket? {
      var c := CountedRankIsHeld(a, LITTLE_JOKER);
      var d := CountedRankIsHeld(b, LITTLE_JOKER);
      assert multiset(a)[c] >= 1 && multiset(b)[d] >= 1;
      DeckHolds(c);
      DeckHolds(d);
      assert false;
    }
  }
}

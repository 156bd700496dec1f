/**
 `classify` as the source runs it: over a map of rank counts whose iteration order is
 arbitrary.  Each loop below picks keys in any order.
 */
module Classifier {
  import opened Common
  import opened Cards

  /** `m` holds exactly the ranks present, with their counts. */
  ghost predicate IsTally(m: map<int, nat>, cards: seq<Card>) {
    forall r :: (r in m <==> Count(cards, r) > 0) && (r in m ==> m[r] == Count(cards, r))
  }

  method RankCounts(cards: seq<Card>) returns (m: map<int, nat>)
    ensures IsTally(m, cards)
  {
    m := map[];
    for i := 0 to |cards|
      invariant IsTally(m, cards[..i])
    {
      var r := cards[i].rank;
      assert cards[..i + 1][..i] == cards[..i];
      m := m[r := (if r in m then m[r] else 0) + 1];
    }
    assert cards[..|cards|] == cards;
  }

  /** The first rank met that is counted `k` times, in some iteration order. */
  method RankHeld(m: map<int, nat>, k: nat) returns (found: bool, r: int)
    ensures found ==> r in m && m[r] == k
    ensures !found ==> forall r' | r' in m :: m[r'] != k
  {
    var left := m.Keys;
    found, r := false, 0;
    while left != {}
      invariant left <= m.Keys
      invariant forall r' | r' in m && r' !in left :: m[r'] != k
      decreases left
    {
      r := Pick(left);
      if m[r] == k {
        found := true;
        return;
      }
      left := left - {r};
    }
  }

  method AllSingles(m: map<int, nat>) returns (b: bool)
    ensures b <==> forall r | r in m :: m[r] == 1
  {
    var left := m.Keys;
    while left != {}
      invariant left <= m.Keys
      invariant forall r | r in m && r !in left :: m[r] == 1
      decreases left
    {
      var r := Pick(left);
      if m[r] != 1 {
        return false;
      }
      left := left - {r};
    }
    b := true;
  }

  // ---- Sorted ranks ----

  ghost predicate Increasing(rs: seq<int>) {
    forall i, j | 0 <= i < j < |rs| :: rs[i] < rs[j]
  }

  ghost function Elements(rs: seq<int>): set<int> {
    set r | r in rs
  }

  method InsertSorted(rs: seq<int>, r: int) returns (out: seq<int>)
    requires Increasing(rs) && r !in rs
    ensures Increasing(out) && Elements(out) == Elements(rs) + {r}
  {
    var i := 0;
    while i < |rs| && rs[i] < r
      invariant 0 <= i <= |rs|
      invariant forall j | 0 <= j < i :: rs[j] < r
    {
      i := i + 1;
    }
    out := rs[..i] + [r] + rs[i..];
    WithOneMore(rs, i, r);
  }

  lemma WithOneMore(rs: seq<int>, i: nat, r: int)
    requires i <= |rs|
    ensures Elements(rs[..i] + [r] + rs[i..]) == Elements(rs) + {r}
  {
    var out := rs[..i] + [r] + rs[i..];
    assert out[i] == r;
    forall x | x in rs ensures x in out {
      var j :| 0 <= j < |rs| && rs[j] == x;
      assert out[if j < i then j else j + 1] == x;
    }
  }

  method RanksSorted(m: map<int, nat>) returns (rs: seq<int>)
    ensures Increasing(rs) && Elements(rs) == m.Keys
  {
    rs := [];
    var left := m.Keys;
    while left != {}
      invariant left <= m.Keys && Increasing(rs) && Elements(rs) == m.Keys - left
      decreases left
    {
      var r := Pick(left);
      assert r !in Elements(rs);
      rs := InsertSorted(rs, r);
      left := left - {r};
    }
  }

  lemma HeadIsElement(rs: seq<int>)
    ensures rs != [] ==> rs[0] in rs
  {
  }

  /** An increasing list of a whole interval is that interval in order. */
  lemma {:induction false} IncreasingInterval(rs: seq<int>, lo: int, len: nat)
    requires Increasing(rs) && forall r :: r in rs <==> lo <= r < lo + len
    ensures |rs| == len && forall i | 0 <= i < |rs| :: rs[i] == lo + i
    decreases len
  {
    if len == 0 {
      HeadIsElement(rs);
    } else {
      var hi := lo + len - 1;
      assert hi in rs;
      var last := rs[|rs| - 1];
      assert last in rs && last == hi;
      var front := rs[..|rs| - 1];
      assert rs == front + [last];
      forall r ensures r in front <==> lo <= r < hi {
        assert r in rs <==> r in front || r == last;
        if r in front {
          var i :| 0 <= i < |front| && front[i] == r;
          assert rs[i] < rs[|rs| - 1];
        }
      }
      IncreasingInterval(front, lo, len - 1);
    }
  }

  lemma {:induction false} ConsecutiveIsInterval(rs: seq<int>, n: nat)
    requires 1 <= n <= |rs| && forall i | 1 <= i < |rs| :: rs[i] == rs[i - 1] + 1
    ensures forall i | 0 <= i < n :: rs[i] == rs[0] + i
  {
    if n > 1 {
      ConsecutiveIsInterval(rs, n - 1);
      assert rs[n - 1] == rs[n - 1 - 1] + 1;
    }
  }

  lemma IntervalElements(rs: seq<int>)
    requires rs != [] && forall i | 0 <= i < |rs| :: rs[i] == rs[0] + i
    ensures forall r :: r in rs <==> rs[0] <= r < rs[0] + |rs|
  {
    forall r | rs[0] <= r < rs[0] + |rs| ensures r in rs {
      assert rs[r - rs[0]] == r;
    }
  }

  method Consecutive(rs: seq<int>) returns (b: bool)
    requires rs != []
    ensures b <==> forall i | 0 <= i < |rs| :: rs[i] == rs[0] + i
  {
    for i := 1 to |rs|
      invariant forall j | 1 <= j < i :: rs[j] == rs[j - 1] + 1
    {
      if rs[i] != rs[i - 1] + 1 {
        return false;
      }
    }
    ConsecutiveIsInterval(rs, |rs|);
    b := true;
  }

  // ---- Runs ----

  /** The tally is a run of `len` ranks from `lo`, each held `k` times. */
  ghost predicate TallyRun(m: map<int, nat>, lo: int, len: nat, k: nat) {
    && lo + len - 1 <= HIGHEST_RUN_RANK
    && (forall r :: r in m <==> lo <= r < lo + len)
    && forall r | r in m :: m[r] == k
  }

  lemma TallyRunIsRun(m: map<int, nat>, cards: seq<Card>, lo: int, len: nat, k: nat)
    requires IsTally(m, cards) && k >= 1 && |cards| == len * k
    ensures TallyRun(m, lo, len, k) <==> IsRun(cards, lo, len, k)
  {
    if IsRun(cards, lo, len, k) {
      forall r ensures (r in m <==> lo <= r < lo + len) && (r in m ==> m[r] == k) {
        assert Count(cards, r) == if lo <= r < lo + len then k else 0;
      }
    }
  }

  /** `isStraight`, for a tally of single cards. */
  method IsStraight(m: map<int, nat>, n: nat) returns (b: bool, ghost lo: int)
    requires n >= 1 && forall r | r in m :: m[r] == 1
    ensures b ==> TallyRun(m, lo, n, 1)
    ensures !b ==> forall lo' :: !TallyRun(m, lo', n, 1)
  {
    lo := 0;
    var rs := RanksSorted(m);
    assert forall r :: r in rs <==> r in Elements(rs);
    if |rs| != n {
      b := false;
    } else {
      b := Consecutive(rs);
      lo := rs[0];
      b := b && rs[|rs| - 1] <= HIGHEST_RUN_RANK;
    }
    if b {
      IntervalElements(rs);
    } else {
      forall lo' ensures !TallyRun(m, lo', n, 1) {
        if TallyRun(m, lo', n, 1) {
          IncreasingInterval(rs, lo', n);
        }
      }
    }
  }

  method IsPlane(m: map<int, nat>, k: nat) returns (b: bool, ghost lo: int)
    ensures b ==> k >= 2 && TallyRun(m, lo, k, 3)
    ensures !b ==> k < 2 || forall lo' :: !TallyRun(m, lo', k, 3)
  {
    lo := 0;
    var groups: seq<int> := [];
    var left := m.Keys;
    while left != {}
      invariant left <= m.Keys && Increasing(groups) && Elements(groups) == m.Keys - left
      invariant forall r | r in m && r !in left :: m[r] == 3
      decreases left
    {
      var r := Pick(left);
      if m[r] != 3 {
        return false, 0;
      }
      assert r !in Elements(groups);
      groups := InsertSorted(groups, r);
      left := left - {r};
    }
    assert forall r :: r in groups <==> r in Elements(groups);
    assert forall r :: r in groups <==> r in m;
    if |groups| != k || k < 2 {
      b := false;
    } else {
      b := Consecutive(groups);
      lo := groups[0];
      b := b && groups[|groups| - 1] <= HIGHEST_RUN_RANK;
    }
    if b {
      IntervalElements(groups);
    } else if k >= 2 {
      forall lo' ensures !TallyRun(m, lo', k, 3) {
        if TallyRun(m, lo', k, 3) {
          IncreasingInterval(groups, lo', k);
        }
      }
    }
  }

  /** The greatest rank, or 0 if none is positive; over any iteration order. */
  method MaxRank(m: map<int, nat>) returns (max: int)
    ensures max >= 0 && (max == 0 || max in m)
    ensures forall r | r in m :: r <= max
  {
    max := 0;
    var left := m.Keys;
    while left != {}
      invariant left <= m.Keys && max >= 0 && (max == 0 || max in m)
      invariant forall r | r in m && r !in left :: r <= max
      decreases left
    {
      var r := Pick(left);
      if r > max {
        max := r;
      }
      left := left - {r};
    }
  }

  method PlaneMainRank(m: map<int, nat>) returns (r: int)
    requires exists r' :: r' in m && m[r'] == 3
    ensures r in m && m[r] == 3 && forall r' | r' in m && m[r'] == 3 :: r' <= r
  {
    var groups: seq<int> := [];
    var left := m.Keys;
    while left != {}
      invariant left <= m.Keys && Increasing(groups)
      invariant Elements(groups) == set r' | r' in m && r' !in left && m[r'] == 3
      decreases left
    {
      var r' := Pick(left);
      if m[r'] == 3 {
        assert r' !in Elements(groups);
        groups := InsertSorted(groups, r');
      }
      left := left - {r'};
    }
    ghost var w :| w in m && m[w] == 3;
    assert w in Elements(groups);
    r := groups[|groups| - 1];
    assert r in Elements(groups);
    forall r' | r' in m && m[r'] == 3 ensures r' <= r {
      assert r' in Elements(groups);
    }
  }

  // ---- The classifier ----

  /** The first rank held three or more times that makes a triple hand of `n` cards, if any. */
  method TripleHand(m: map<int, nat>, n: nat) returns (typ: HandType, main: int)
    ensures typ in {Invalid, Triple, TripleOne, TriplePair}
    ensures typ == Triple ==> n == 3 && main in m && m[main] >= 3
    ensures typ == TripleOne ==> n == 4 && main in m && m[main] >= 3
    ensures typ == TriplePair ==> n == 5 && main in m && m[main] >= 3 && exists r :: r in m && r != main && m[r] == 2
    ensures typ == Invalid && n in {3, 4} ==> forall r | r in m :: m[r] < 3
    ensures typ == Invalid && n == 5 ==>
              forall r, r' | r in m && r' in m && r != r' && m[r'] == 2 :: m[r] < 3
  {
    var left := m.Keys;
    while left != {}
      invariant left <= m.Keys
      invariant n in {3, 4} ==> forall r | r in m && r !in left :: m[r] < 3
      invariant n == 5 ==> forall r, r' | r in m && r' in m && r !in left && r != r' && m[r'] == 2 :: m[r] < 3
      decreases left
    {
      var r := Pick(left);
      left := left - {r};
      if m[r] >= 3 {
        if n == 3 {
          return Triple, r;
        } else if n == 4 {
          return TripleOne, r;
        } else if n == 5 {
          var others := m - {r};
          var pair, r' := RankHeld(others, 2);
          assert forall q | q in m && q != r :: q in others && others[q] == m[q];
          if pair {
            return TriplePair, r;
          }
        }
      }
    }
    typ, main := Invalid, 0;
  }

  lemma {:induction false} CountAtMostAll(cards: seq<Card>, r: int)
    ensures Count(cards, r) <= |cards|
  {
    if cards != [] { CountAtMostAll(cards[..|cards| - 1], r); }
  }

  lemma TripleIsHand(cards: seq<Card>, m: map<int, nat>, typ: HandType, main: int)
    requires IsTally(m, cards) && main in m && m[main] >= 3
    requires |cards| == 4 ==> forall r | r in m :: m[r] != 4
    requires || (typ == Triple && |cards| == 3) || (typ == TripleOne && |cards| == 4)
             || (typ == TriplePair && |cards| == 5 && exists r :: r in m && r != main && m[r] == 2)
    ensures HandOf(cards) == Hand(typ, main)
  {
    CountAtMostAll(cards, main);
    if typ == TriplePair {
      var r :| r in m && r != main && m[r] == 2;
      TwoRanksFit(cards, main, r);
      assert Count(cards, r) == 2;
    }
    ShapedIsHandOf(cards, typ, main);
  }

  /** Some test of the classifier succeeds on a tally of `n` cards. */
  ghost predicate SomeTestPasses(m: map<int, nat>, n: nat) {
    || (n == 2 && LITTLE_JOKER in m && m[LITTLE_JOKER] == 1 && BIG_JOKER in m && m[BIG_JOKER] == 1)
    || (n == 2 && exists r :: r in m && m[r] == 2)
    || (n == 4 && exists r :: r in m && m[r] == 4)
    || (n in {3, 4} && exists r :: r in m && m[r] >= 3)
    || (n == 5 && exists r, r' :: r in m && r' in m && r != r' && m[r'] == 2 && m[r] >= 3)
    || (n >= 5 && exists lo :: TallyRun(m, lo, n, 1))
    || (n >= 6 && n % 3 == 0 && exists lo :: TallyRun(m, lo, n / 3, 3))
  }

  lemma ShapePassesSomeTest(cards: seq<Card>, m: map<int, nat>, t: HandType, main: int)
    requires IsTally(m, cards) && |cards| >= 2 && Shaped(cards, t, main)
    ensures SomeTestPasses(m, |cards|)
  {
    match t
    case Straight =>
      var lo, len :| len >= 5 && IsRun(cards, lo, len, 1);
      TallyRunIsRun(m, cards, lo, len, 1);
    case Plane =>
      var lo, len :| len >= 2 && IsRun(cards, lo, len, 3);
      TallyRunIsRun(m, cards, lo, len, 3);
      assert |cards| % 3 == 0 && |cards| / 3 == len;
    case TriplePair =>
      var r :| Count(cards, r) == 2;
      assert main in m && r in m;
    case Rocket =>
      assert LITTLE_JOKER in m && BIG_JOKER in m;
    case Pair | Triple | TripleOne | Bomb =>
      assert main in m;
    case Invalid | Single =>
  }

  lemma FailedTestsMeanInvalid(cards: seq<Card>, m: map<int, nat>)
    requires IsTally(m, cards) && |cards| >= 2 && !SomeTestPasses(m, |cards|)
    ensures HandOf(cards) == Hand(Invalid, 0)
  {
    var h := HandOf(cards);
    if h.typ != Invalid {
      ShapePassesSomeTest(cards, m, h.typ, h.main);
    }
  }

  method Classify(cards: seq<Card>) returns (typ: HandType, main: int)
    ensures Hand(typ, main) == HandOf(cards)
  {
    var n := |cards|;
    if n == 0 {
      assert forall t, m :: !Shaped(cards, t, m);
      return Invalid, 0;
    }
    var m := RankCounts(cards);
    if n == 2 && LITTLE_JOKER in m && m[LITTLE_JOKER] == 1 && BIG_JOKER in m && m[BIG_JOKER] == 1 {
      ShapedIsHandOf(cards, Rocket, BIG_JOKER);
      return Rocket, BIG_JOKER;
    }
    if n == 1 {
      ShapedIsHandOf(cards, Single, cards[0].rank);
      return Single, cards[0].rank;
    }
    if n == 2 {
      var pair, r := RankHeld(m, 2);
      if pair {
        ShapedIsHandOf(cards, Pair, r);
        return Pair, r;
      }
    }
    if n == 4 {
      var bomb, r := RankHeld(m, 4);
      if bomb {
        ShapedIsHandOf(cards, Bomb, r);
        return Bomb, r;
      }
    }
    if n >= 3 {
      typ, main := TripleHand(m, n);
      if typ != Invalid {
        TripleIsHand(cards, m, typ, main);
        return;
      }
    }
    if n >= 5 {
      var singles := AllSingles(m);
      if singles {
        var straight, lo := IsStraight(m, n);
        if straight {
          main := MaxRank(m);
          TallyRunIsRun(m, cards, lo, n, 1);
          assert lo in m && lo + n - 1 in m;
          ShapedIsHandOf(cards, Straight, main);
          return Straight, main;
        }
      }
    }
    if n >= 6 && n % 3 == 0 {
      var plane, lo := IsPlane(m, n / 3);
      if plane {
        TallyRunIsRun(m, cards, lo, n / 3, 3);
        assert lo + n / 3 - 1 in m;
        main := PlaneMainRank(m);
        ShapedIsHandOf(cards, Plane, main);
        return Plane, main;
      }
    }
    FailedTestsMeanInvalid(cards, m);
    return Invalid, 0;
  }
}

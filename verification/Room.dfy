/**
 One Dou Dizhu room with its three seats taken: dealing, bidding with redeals, and play
 with passes, free leads, rejected plays and autoplay for absent players.

 Whether a player is online is asked of the outside world each time; the answers are a
 function of how often it was asked, and may differ from one question to the next.
 */
module DouDizhu {
  import opened Common
  import opened Cards
  import opened Classifier
  import opened Dealing
  import opened Bidding
  import opened GameRules
  import opened RoomState
  import opened RoomTable

  const MAX_REDEALS := 2

  datatype Stage = Waiting | Bidding | Playing

  datatype Message = Call(score: int) | PlayCards(ids: seq<int>)

  /** The calls of the current round and what they have led to so far. */
  ghost predicate Round(order: seq<string>, calls: seq<int>, maxScore: nat, maxBidder: string, redeals: nat, bids: seq<int>) {
    && |order| == SEATS && |calls| <= SEATS
    && maxScore <= 3 && Leads(order, calls, maxScore, maxBidder)
    && redeals <= MAX_REDEALS
    && BidLog(bids, calls, redeals)
  }

  /** All calls so far: redealt rounds in which nobody called, then the calls of this round. */
  ghost predicate BidLog(bids: seq<int>, calls: seq<int>, redeals: nat) {
    && |bids| == SEATS * redeals + |calls|
    && bids[SEATS * redeals..] == calls
    && NobodyCalled(bids[..SEATS * redeals])
  }

  lemma LogOneCall(bids: seq<int>, calls: seq<int>, redeals: nat, score: int)
    requires BidLog(bids, calls, redeals)
    ensures BidLog(bids + [score], calls + [score], redeals)
  {
    assert (bids + [score])[..SEATS * redeals] == bids[..SEATS * redeals];
    assert (bids + [score])[SEATS * redeals..] == calls + [score];
  }

  lemma LogRedeal(bids: seq<int>, calls: seq<int>, redeals: nat)
    requires BidLog(bids, calls, redeals) && |calls| == SEATS && NobodyCalled(calls)
    ensures BidLog(bids, [], redeals + 1)
  {
    assert bids[..SEATS * (redeals + 1)] == bids[..SEATS * redeals] + calls;
  }

  lemma CallKeepsRound(order: seq<string>, calls: seq<int>, maxScore: nat, maxBidder: string, redeals: nat,
                       bids: seq<int>, score: int)
    requires Round(order, calls, maxScore, maxBidder, redeals, bids) && |calls| < SEATS
    ensures Round(order, calls + [score],
                  if LegalScore(score) > maxScore then LegalScore(score) else maxScore,
                  if LegalScore(score) > maxScore then order[|calls|] else maxBidder,
                  redeals, bids + [score])
  {
    hide BidLog;
    LogOneCall(bids, calls, redeals, score);
    CallTakesLead(order, calls, maxScore, maxBidder, score);
  }

  /** A round in which nobody called goes into the log, and a new one begins. */
  lemma SilentRound(order: seq<string>, calls: seq<int>, maxScore: nat, maxBidder: string, redeals: nat, bids: seq<int>)
    requires Round(order, calls, maxScore, maxBidder, redeals, bids) && (maxScore == 3 || |calls| == SEATS) && "" !in order
    requires maxScore == 0 || maxBidder == ""
    ensures BidLog(bids, [], redeals + 1)
  {
    hide BidLog;
    LogRedeal(bids, calls, redeals);
  }

  lemma RoundFacts(order: seq<string>, calls: seq<int>, maxScore: nat, maxBidder: string, redeals: nat, bids: seq<int>)
    requires Round(order, calls, maxScore, maxBidder, redeals, bids)
    ensures |order| == SEATS && maxScore <= 3
  {
  }

  /** The landlord is the earliest highest caller, or seat 0 once every round went without a call. */
  ghost predicate LandlordRule(calls: seq<int>, first: nat, baseScore: nat, redeals: nat, bids: seq<int>) {
    && first < SEATS
    && |calls| <= SEATS && redeals <= MAX_REDEALS && BidLog(bids, calls, redeals)
    && 1 <= baseScore <= 3
    && if NobodyCalled(calls) then
         first == 0 && baseScore == 1 && redeals == MAX_REDEALS && |calls| == SEATS
       else
         IsWinner(calls, first) && baseScore == LegalScore(calls[first]) && (baseScore == 3 || |calls| == SEATS)
  }

  /** The deal after `redeals` earlier ones: each of them has used up 53 draws from the room's first seed. */
  ghost predicate DealOf(order: seq<string>, hands: map<string, seq<Card>>, bottom: seq<Card>, start: int, seed: int, redeals: nat) {
    DealtFrom(order, hands, bottom, SeedAfter(start, 53 * redeals)) && seed == SeedAfter(start, 53 * (redeals + 1))
  }

  lemma DealLeaves(order: seq<string>, hands: map<string, seq<Card>>, bottom: seq<Card>, start: int, seed: int, redeals: nat)
    requires DealOf(order, hands, bottom, start, seed, redeals)
    ensures seed == SeedAfter(start, 53 * (redeals + 1))
  {
  }

  lemma SameHandsReflexive(h: map<string, seq<Card>>)
    ensures SameHands(h, h)
  {
  }

  lemma CallFacts(order: seq<string>, landlord: string, calls: seq<int>, first: nat, baseScore: nat, redeals: nat, bids: seq<int>)
    requires CalledBy(order, landlord, calls, first, baseScore, redeals, bids)
    ensures first < |order| && landlord == order[first]
  {
  }

  /** Every answer from the `n`-th on is "offline". */
  ghost predicate AbsentFrom(absent: nat -> bool, n: nat) {
    forall i: nat | i >= n :: absent(i)
  }

  lemma StillAbsent(absent: nat -> bool, n: nat)
    requires AbsentFrom(absent, n)
    ensures absent(n) && AbsentFrom(absent, n + 1)
  {
  }

  /**
   Where a turn leads from the log `log0`: no further while the next player is answered online,
   and to the end of the game if every answer is "offline".
   */
  ghost predicate Onward(absent: nat -> bool, asked: nat, log0: seq<Act>, log: seq<Act>, finished: bool, late: seq<Act>) {
    late == [] && log0 <= log && (!absent(asked) ==> log == log0) && (AbsentFrom(absent, asked) ==> finished)
  }

  lemma OnlineWaits(absent: nat -> bool, asked: nat, log: seq<Act>)
    requires !absent(asked)
    ensures Onward(absent, asked, log, log, false, [])
  {
  }

  lemma WonAtOnce(absent: nat -> bool, asked: nat, log: seq<Act>)
    ensures Onward(absent, asked, log, log, true, [])
  {
  }

  lemma OfflineGoesOn(absent: nat -> bool, asked: nat, log0: seq<Act>, act: Act, log: seq<Act>, finished: bool, late: seq<Act>)
    requires absent(asked) && Onward(absent, asked + 1, log0 + [act], log, finished, late)
    ensures Onward(absent, asked, log0, log, finished, late)
  {
    if AbsentFrom(absent, asked) {
      StillAbsent(absent, asked);
    }
  }

  lemma OnwardFacts(absent: nat -> bool, asked: nat, log0: seq<Act>, log: seq<Act>, finished: bool, late: seq<Act>)
    requires Onward(absent, asked, log0, log, finished, late)
    ensures late == [] && log0 <= log && (!absent(asked) ==> log == log0) && (AbsentFrom(absent, asked) ==> finished)
  {
    hide AbsentFrom;
  }

  /** The landlord, and nobody else, got the bottom cards. */
  ghost predicate TookBottom(before: map<string, seq<Card>>, after: map<string, seq<Card>>, landlord: string, bottom: seq<Card>) {
    && landlord in before && after.Keys == before.Keys
    && multiset(after[landlord]) == multiset(before[landlord]) + multiset(bottom)
    && forall u | u in before && u != landlord :: after[u] == before[u]
  }

  /** The bidding made the player of seat `first` the landlord. */
  ghost predicate CalledBy(order: seq<string>, landlord: string, calls: seq<int>, first: nat, baseScore: nat, redeals: nat, bids: seq<int>) {
    first < |order| && landlord == order[first] && LandlordRule(calls, first, baseScore, redeals, bids)
  }

  lemma RuleSeats(order: seq<string>, calls: seq<int>, first: nat, baseScore: nat, redeals: nat, bids: seq<int>)
    requires LandlordRule(calls, first, baseScore, redeals, bids) && first < |order|
    ensures first < SEATS && CalledBy(order, order[first], calls, first, baseScore, redeals, bids)
  {
  }

  class Room {
    const order: seq<string>          // uids by seat
    ghost const start: int            // the seed the room was created with
    var hands: map<string, seq<Card>>
    var stage: Stage
    var seed: int
    var landlord3: seq<Card>
    var redeals: nat
    var finished: bool

    var bidIndex: nat
    var maxScore: nat
    var maxBidder: string
    var bidCount: nat

    var landlord: string
    var cur: nat
    var lastPlayed: Option<Played>
    var baseScore: nat
    var passCount: nat
    var timer: Option<string>         // whose turn timer is armed
    var landlordWon: Option<bool>

    const absent: nat -> bool         // the answers to "is this player offline?", one by one
    var asked: nat                    // how many of them were used

    ghost var calls: seq<int>         // raw calls of the current round
    ghost var bids: seq<int>          // calls over all rounds
    ghost var first: nat              // the landlord's seat
    ghost var log: seq<Act>           // accepted actions of the play stage
    ghost var expired: bool           // ended by the room's time limit
    ghost var leftOpen: bool          // the landlord was offline when play began
    ghost var endHands: map<string, seq<Card>>   // the hands when the game ended
    ghost var late: seq<Act>          // what late timers did after the end

    // ---- Invariants ----

    /** A call by the player at `bidIndex` is due. */
    ghost predicate InBidding()
      reads this
    {
      && Dealt(order, hands, landlord3) && DealOf(order, hands, landlord3, start, seed, redeals)
      && stage == Stage.Bidding && !finished && !expired && log == [] && late == []
      && bidIndex == bidCount == |calls| < SEATS
      && maxScore < 3 && Round(order, calls, maxScore, maxBidder, redeals, bids)
    }

    ghost predicate ValidBidding()
      reads this
    {
      InBidding() && timer == Some(order[bidIndex])
    }

    /** The player at `cur` is to act. */
    ghost predicate TurnDue()
      reads `stage, `finished, `expired, `late, `landlord, `calls, `first, `baseScore, `redeals, `bids
      reads `hands, `log, `cur, `lastPlayed, `passCount
    {
      && stage == Playing && !finished && !expired && late == [] && CalledBy(order, landlord, calls, first, baseScore, redeals, bids)
      && Due(order, hands, first, log, cur, lastPlayed, passCount)
    }

    /** The turn passes to the player at `cur`, who leads afresh if `free`. */
    ghost predicate TurnReady(free: bool)
      reads this
    {
      && stage == Playing && !finished && !expired && late == [] && CalledBy(order, landlord, calls, first, baseScore, redeals, bids) && (log == [] ==> timer == None)
      && Ready(order, hands, first, log, cur, lastPlayed, passCount, free)
    }

    /** The game as it ended; nothing after the end changes this. */
    ghost predicate Settled()
      reads `stage, `finished, `expired, `endHands, `log, `landlordWon, `landlord, `calls, `first, `baseScore, `redeals, `bids
    {
      stage == Playing && finished && CalledBy(order, landlord, calls, first, baseScore, redeals, bids) && Outcome(order, endHands, first, log, landlordWon, expired)
    }

    /** The table after the end, which a late timer may still move. */
    ghost predicate Ended()
      reads `stage, `finished, `expired, `endHands, `log, `landlordWon, `landlord, `calls, `first, `baseScore, `redeals, `bids
      reads `hands, `late, `cur, `lastPlayed, `passCount
    {
      && Settled() && AfterEnd(order, hands, CardsPlayed(log), CardsPlayed(late), cur, lastPlayed, passCount)
      && (late == [] && !expired ==> lastPlayed.Some? && log != [] && log[|log| - 1] == Play(cur, lastPlayed.value.cards))
    }

    ghost predicate LateReady(free: bool)
      reads this
    {
      && Settled() && late != [] && (!free ==> lastPlayed.Some?)
      && AfterEnd(order, hands, CardsPlayed(log), CardsPlayed(late), cur,
                  if free then None else lastPlayed, if free then 0 else passCount)
    }

    /** Over, or a turn is due and its timer is armed - unless the landlord was offline when play began. */
    ghost predicate ValidPlaying()
      reads this
    {
      if finished then Ended()
      else
        && TurnDue()
        && (if timer == None then log == [] && leftOpen else timer == Some(order[cur]) && (log == [] ==> !leftOpen))
    }

    ghost predicate Valid()
      reads this
    {
      ValidBidding() || ValidPlaying()
    }

    /** Whether `applyPlay` accepts this from the player in turn. */
    ghost predicate Acceptable(uid: string, ids: seq<int>)
      requires uid in hands
      reads this
    {
      Allowed(hands[uid], if lastPlayed.Some? then Some(lastPlayed.value.cards) else None, ids)
    }

    ghost function ActFor(uid: string, ids: seq<int>): Act
      requires uid in hands
      reads this
    {
      if ids == [] then Pass(cur) else Play(cur, Chosen(hands[uid], Elems(ids)))
    }

    /** What autoplay does for the player in turn. */
    ghost function AutoAct(uid: string): Act
      requires uid in hands
      reads this
    {
      if lastPlayed == None && hands[uid] != [] then Play(cur, [hands[uid][0]]) else Pass(cur)
    }

    // ---- Presence ----

    /** The outside world's next answer. */
    method IsOffline() returns (offline: bool)
      modifies `asked
      ensures offline == absent(old(asked)) && asked == old(asked) + 1
    {
      offline := absent(asked);
      asked := asked + 1;
    }

    // ---- Start and deal ----

    constructor (uids: seq<string>, seed: int, absent: nat -> bool)
      requires |uids| == SEATS && NoRepeats(uids) && "" !in uids
      ensures order == uids && this.absent == absent && asked == 0 && start == seed && this.seed == seed
      ensures stage == Waiting && !finished && redeals == 0 && bids == [] && log == [] && late == [] && !expired
    {
      order, this.absent, asked := uids, absent, 0;
      leftOpen, endHands, late := false, map[], [];
      hands := map[];
      stage, finished, redeals := Waiting, false, 0;
      start, this.seed, landlord3 := seed, seed, [];
      bidIndex, bidCount, maxScore, maxBidder := 0, 0, 0, "";
      landlord, cur, lastPlayed, baseScore, passCount := "", 0, None, 0, 0;
      timer, landlordWon := None, None;
      calls, bids, first, log, expired := [], [], 0, [], false;
    }

    method Deal()
      requires |order| == SEATS && NoRepeats(order) && "" !in order && seed == SeedAfter(start, 53 * redeals)
      modifies `seed, `hands, `landlord3
      ensures Dealt(order, hands, landlord3) && DealOf(order, hands, landlord3, start, seed, redeals)
    {
      hide Dealt, DealtFrom, SeedAfter;
      SeedAfterMore(start, 53 * redeals, 53);
      hands, landlord3, seed := DealCards(order, seed);
    }

    // ---- Bidding ----

    /** The third seat is taken: deal and ask for the first call. */
    method Start()
      requires |order| == SEATS && NoRepeats(order) && "" !in order
      requires stage == Waiting && !finished && !expired && redeals == 0 && bids == [] && log == [] && late == [] && seed == start
      modifies this
      ensures Valid() && !finished && log == [] && !expired
      ensures !absent(old(asked)) ==> ValidBidding() && bidIndex == 0 && bids == []
      ensures AbsentFrom(absent, old(asked)) ==> stage == Playing && leftOpen
    {
      Deal();
      StartBidding();
    }

    method StartBidding()
      requires Dealt(order, hands, landlord3) && DealOf(order, hands, landlord3, start, seed, redeals)
      requires !finished && !expired && log == [] && late == []
      requires redeals <= MAX_REDEALS && BidLog(bids, [], redeals)
      modifies this
      ensures Valid() && !finished && log == [] && old(bids) <= bids && !expired
      ensures !absent(old(asked)) ==> ValidBidding() && bidIndex == 0 && bids == old(bids)
      ensures AbsentFrom(absent, old(asked)) ==> stage == Playing && leftOpen
      decreases MAX_REDEALS - redeals, 4, 0
    {
      hide Dealt, DealOf, AbsentFrom, Due, AfterEnd, Outcome, CardsPlayed;
      DealtFacts(order, hands, landlord3);
      stage := Stage.Bidding;
      bidIndex, maxScore, maxBidder, bidCount := 0, 0, "", 0;
      calls := [];
      AskBid();
    }

    method AskBid()
      requires InBidding()
      modifies this
      ensures Valid() && !finished && log == [] && old(bids) <= bids && !expired
      ensures !absent(old(asked)) ==> ValidBidding() && unchanged(`bids, `calls, `bidIndex, `hands)
      ensures AbsentFrom(absent, old(asked)) ==> stage == Playing && leftOpen
      decreases MAX_REDEALS - redeals, 3 - bidCount, 1
    {
      hide CalledBy, Dealt, DealOf, Round, AbsentFrom, GameOk, LandlordRule, Due, AfterEnd, Outcome, CardsPlayed;
      DealtFacts(order, hands, landlord3);
      if AbsentFrom(absent, asked) {
        StillAbsent(absent, asked);
      }
      var uid := order[bidIndex];
      var offline := IsOffline();
      if offline {
        ApplyBid(uid, 0);
        return;
      }
      timer := Some(uid);
    }

    /** One call; every call brings the play stage closer. */
    method ApplyBid(uid: string, score: int)
      requires InBidding() && uid == order[bidIndex]
      modifies this
      ensures Valid() && !finished && log == [] && !expired
      ensures old(bids) + [score] <= bids
      ensures score == 3 ==> stage == Playing && landlord == uid && baseScore == 3 && leftOpen == absent(old(asked))
      ensures AbsentFrom(absent, old(asked)) ==> stage == Playing && leftOpen
      decreases MAX_REDEALS - redeals, 3 - bidCount, 0
    {
      hide CalledBy, Dealt, DealOf, Round, AbsentFrom, GameOk, LandlordRule, Due, AfterEnd, Outcome, CardsPlayed;
      DealtFacts(order, hands, landlord3);
      RecordCall(uid, score);
      timer := None;
      RoundFacts(order, calls, maxScore, maxBidder, redeals, bids);
      if maxScore == 3 || bidCount >= |order| {
        FinishBidding();
        return;
      }
      bidIndex := (bidIndex + 1) % |order|;
      AskBid();
    }

    /** A call outside 1 to 3, or not above the highest so far, counts as none. */
    method RecordCall(uid: string, score: int)
      requires Round(order, calls, maxScore, maxBidder, redeals, bids) && |calls| < SEATS == |order| && uid == order[|calls|]
      modifies `calls, `bids, `bidCount, `maxScore, `maxBidder
      ensures Round(order, calls, maxScore, maxBidder, redeals, bids)
      ensures calls == old(calls) + [score] && bids == old(bids) + [score] && bidCount == old(bidCount) + 1
      ensures score == 3 && old(maxScore) < 3 ==> maxScore == 3 && maxBidder == uid
    {
      hide Round;
      CallKeepsRound(order, calls, maxScore, maxBidder, redeals, bids, score);
      RoundFacts(order, calls, maxScore, maxBidder, redeals, bids);
      var s := score;
      if s < 0 || s > 3 {
        s := 0;
      }
      if s > 0 && s <= maxScore {
        s := 0;
      }
      calls := calls + [score];
      bids := bids + [score];
      bidCount := bidCount + 1;
      if s > maxScore {
        maxScore := s;
        maxBidder := uid;
      }
    }

    method FinishBidding()
      requires Dealt(order, hands, landlord3) && DealOf(order, hands, landlord3, start, seed, redeals)
      requires stage == Stage.Bidding && !finished && !expired && log == [] && late == [] && timer == None
      requires 1 <= bidCount == |calls| && Round(order, calls, maxScore, maxBidder, redeals, bids)
      requires maxScore == 3 || bidCount == SEATS
      modifies this
      ensures Valid() && !finished && log == [] && old(bids) <= bids && !expired
      ensures old(maxScore > 0 && maxBidder != "") ==>
                stage == Playing && landlord == old(maxBidder) && baseScore == old(maxScore) && leftOpen == absent(old(asked))
      ensures AbsentFrom(absent, old(asked)) ==> stage == Playing && leftOpen
      decreases MAX_REDEALS - redeals, 3 - bidCount, 2
    {
      hide Dealt, DealOf, Round, LandlordRule, BidLog, AbsentFrom, CalledBy, Due, AfterEnd, Outcome, CardsPlayed;
      if AbsentFrom(absent, asked) {
        StillAbsent(absent, asked);
      }
      DealtFacts(order, hands, landlord3);
      if maxScore == 0 || maxBidder == "" {
        if redeals < MAX_REDEALS {
          SilentRound(order, calls, maxScore, maxBidder, redeals, bids);
          DealLeaves(order, hands, landlord3, start, seed, redeals);
          redeals := redeals + 1;
          Deal();
          StartBidding();
          return;
        }
      }
      ChooseLandlord();
      BeginPlay();
    }

    /** The highest caller, or seat 0 at one point when nobody called in the last round. */
    method ChooseLandlord()
      requires |order| == SEATS && "" !in order && 1 <= |calls| && Round(order, calls, maxScore, maxBidder, redeals, bids)
      requires maxScore == 3 || |calls| == SEATS
      requires maxScore == 0 || maxBidder == "" ==> redeals >= MAX_REDEALS
      modifies `maxBidder, `maxScore, `first
      ensures LandlordRule(calls, first, maxScore, redeals, bids) && first < |order| && maxBidder == order[first]
      ensures old(maxScore > 0 && maxBidder != "") ==> unchanged(`maxBidder, `maxScore)
    {
      hide BidLog;
      if maxScore == 0 || maxBidder == "" {
        maxBidder := order[0];
        maxScore := 1;
        first := 0;
      } else {
        ghost var i: nat :| IsWinner(calls, i) && maxBidder == order[i] && maxScore == LegalScore(calls[i]);
        first := i;
      }
    }

    /** The highest caller becomes the landlord, takes the bottom cards and leads. */
    method BeginPlay()
      requires Dealt(order, hands, landlord3) && !finished && !expired && log == [] && late == [] && timer == None
      requires LandlordRule(calls, first, maxScore, redeals, bids) && first < |order| && maxBidder == order[first]
      modifies this
      ensures ValidPlaying() && !finished && !expired && log == [] && bids == old(bids)
      ensures leftOpen == absent(old(asked)) && (timer == None <==> leftOpen)
      ensures landlord == old(maxBidder) && baseScore == old(maxScore) && TookBottom(old(hands), hands, landlord, landlord3)
    {
      hide CalledBy, GameOk, LandlordRule, Due, Ready, AfterEnd, Outcome, CardsPlayed, HandTotal, Dealt, Seated, TookBottom;
      SeatLandlord();
      leftOpen := absent(asked);
      NextTurn(false);
    }

    method SeatLandlord()
      requires Dealt(order, hands, landlord3) && !finished && !expired && log == [] && late == [] && timer == None
      requires LandlordRule(calls, first, maxScore, redeals, bids) && first < |order| && maxBidder == order[first]
      modifies `landlord, `baseScore, `hands, `stage, `cur, `lastPlayed, `passCount
      ensures TurnReady(false) && landlord == maxBidder && baseScore == maxScore && TookBottom(old(hands), hands, landlord, landlord3)
    {
      hide GameOk, LandlordRule, CalledBy, Dealt, Ready, Held, Seated, NoRepeats, HandsSorted, HandsLeft, TookBottom;
      DealtFacts(order, hands, landlord3);
      RuleSeats(order, calls, first, maxScore, redeals, bids);
      landlord := maxBidder;
      baseScore := maxScore;
      TakeBottomCards();
      OpenPlay();
      PlayBegins(order, hands, first);
    }

    /** The landlord is to lead on an empty table. */
    method OpenPlay()
      requires |order| == SEATS && NoRepeats(order) && first < SEATS && landlord == order[first]
      modifies `stage, `cur, `lastPlayed, `passCount
      ensures stage == Playing && cur == first && lastPlayed == None && passCount == 0
    {
      stage := Playing;
      cur := IndexOf(landlord);
      lastPlayed := None;
      passCount := 0;
    }

    method IndexOf(uid: string) returns (i: nat)
      requires uid in order
      ensures i < |order| && order[i] == uid
    {
      i := 0;
      while order[i] != uid
        invariant i < |order| && uid in order[i..]
        decreases |order| - i
      {
        i := i + 1;
      }
    }

    method TakeBottomCards()
      requires Dealt(order, hands, landlord3) && landlord in hands
      modifies `hands
      ensures Seated(order, hands) && HandsSorted(hands) && HandsLeft(hands) && Held(order, hands) == multiset(Deck())
      ensures TookBottom(old(hands), hands, landlord, landlord3)
    {
      var sorted := SortHand(hands[landlord] + landlord3);
      HandReplaced(order, hands, landlord, sorted);
      hands := hands[landlord := sorted];
    }

    // ---- Play ----

    method NextTurn(freeLead: bool)
      requires if finished then LateReady(freeLead) else TurnReady(freeLead)
      modifies `hands, `cur, `lastPlayed, `passCount, `timer, `finished, `landlordWon, `log, `asked, `endHands, `late
      ensures old(finished) ==> Ended() && log == old(log) && endHands == old(endHands) && landlordWon == old(landlordWon) && |late| >= |old(late)|
      ensures !old(finished) && old(log) == [] ==>
                TurnDue() && log == [] && hands == old(hands) && (if absent(old(asked)) then timer == None else timer == Some(order[cur]))
      ensures !old(finished) && old(log) != [] ==> ValidPlaying() && Onward(absent, old(asked), old(log), log, finished, late)
      decreases HandTotal(order, hands), if freeLead then 0 else 2 - passCount, 4
    {
      hide TurnDue, Ended, TurnReady, LateReady, Onward, HandTotal;
      var uid := ClearTable(freeLead);
      var offline := IsOffline();
      if offline {
        ghost var act := AutoAct(uid);
        AutoPlay(uid, freeLead);
        if !old(finished) && old(log) != [] {
          OfflineGoesOn(absent, old(asked), old(log), act, log, finished, late);
        }
        return;
      }
      timer := Some(uid);
      if !finished {
        OnlineWaits(absent, old(asked), log);
        NothingLate();
      }
    }

    lemma NothingLate()
      requires TurnDue()
      ensures late == []
    {
    }

    /** The player to ask next; a free lead clears the table. */
    method ClearTable(freeLead: bool) returns (uid: string)
      requires if finished then LateReady(freeLead) else TurnReady(freeLead)
      modifies `lastPlayed, `passCount
      ensures lastPlayed == (if freeLead then None else old(lastPlayed)) && passCount == if freeLead then 0 else old(passCount)
      ensures cur < |order| && uid == order[cur] && uid in hands
      ensures if finished then Ended() && freeLead == (lastPlayed == None) else TurnDue() && hands[uid] != []
      ensures !finished ==> if log == [] then !freeLead && lastPlayed == None && timer == None else freeLead || lastPlayed.Some?
    {
      hide CalledBy, GameOk, LandlordRule, Due, Ready, AfterEnd, Outcome, CardsPlayed, HandTotal, Seated, HandOf, DistinctIds, NextSeat;
      ghost var lp, pc := if freeLead then None else lastPlayed, if freeLead then 0 else passCount;
      if finished {
        EndFacts(order, hands, CardsPlayed(log), CardsPlayed(late), cur, lp, pc);
      } else {
        ReadyIsDue(order, hands, first, log, cur, lastPlayed, passCount, freeLead);
        DueFacts(order, hands, first, log, cur, lp, pc);
      }
      uid := order[cur];
      if freeLead {
        lastPlayed := None;
        passCount := 0;
      }
    }

    /** Plays for an absent player: the smallest card when leading, otherwise a pass. */
    method AutoPlay(uid: string, freeLead: bool)
      requires if finished then Ended() && freeLead == (lastPlayed == None) else TurnDue()
      requires cur < |order| && uid == order[cur] && uid in hands && (freeLead ==> lastPlayed == None)
      modifies `hands, `cur, `lastPlayed, `passCount, `timer, `finished, `landlordWon, `log, `asked, `endHands, `late
      ensures old(finished) ==> Ended() && log == old(log) && endHands == old(endHands) && landlordWon == old(landlordWon) && |late| >= |old(late)|
      ensures old(finished) ==> if old(lastPlayed == None && hands[uid] == []) then unchanged(this) else |late| > |old(late)|
      ensures !old(finished) && (freeLead || old(lastPlayed).Some?) ==>
                ValidPlaying() && Onward(absent, old(asked), old(log) + [old(AutoAct(uid))], log, finished, late)
      ensures !freeLead && old(lastPlayed) == None ==> unchanged(this) && (!finished ==> TurnDue())
      decreases HandTotal(order, hands), if freeLead then 0 else 2 - passCount, 3
    {
      hide Onward, CalledBy, GameOk, LandlordRule, Due, Ready, AfterEnd, Outcome, CardsPlayed, HandTotal, Seated, Allowed, Chosen, Elems;
      if finished {
        EndFacts(order, hands, CardsPlayed(log), CardsPlayed(late), cur, lastPlayed, passCount);
      } else {
        DueFacts(order, hands, first, log, cur, lastPlayed, passCount);
      }
      if freeLead {
        if |hands[uid]| > 0 {
          LeadingSingleIsAllowed(hands[uid]);
          ApplyPlay(uid, [hands[uid][0].ID()]);
          return;
        }
      }
      AllowedPass(hands[uid]);
      ApplyPlay(uid, []);
    }

    /** A play or, with no cards named, a pass by the player in turn: accepted exactly when the rules allow it. */
    method ApplyPlay(uid: string, ids: seq<int>)
      requires cur < |order| && uid == order[cur] && uid in hands
      requires if finished then Ended() && (ids != [] ==> lastPlayed == None && Acceptable(uid, ids)) else TurnDue()
      modifies `hands, `cur, `lastPlayed, `passCount, `timer, `finished, `landlordWon, `log, `asked, `endHands, `late
      ensures old(finished) ==> Ended() && log == old(log) && endHands == old(endHands) && landlordWon == old(landlordWon) && |late| >= |old(late)|
      ensures old(finished) ==> if ids == [] && old(lastPlayed) == None then unchanged(this) else |late| > |old(late)|
      ensures !old(finished) && old(Acceptable(uid, ids)) ==>
                ValidPlaying() && Onward(absent, old(asked), old(log) + [old(ActFor(uid, ids))], log, finished, late)
      ensures !old(finished) && !old(Acceptable(uid, ids)) ==>
                TurnDue() && SameHands(old(hands), hands) && unchanged(`cur, `lastPlayed, `passCount, `timer, `finished, `landlordWon, `log, `asked, `endHands, `late)
      ensures !old(Acceptable(uid, ids)) && ids == [] ==> unchanged(`hands)
      decreases HandTotal(order, hands), if ids == [] && lastPlayed.Some? then 2 - passCount else 0, 2
    {
      hide Onward, CalledBy, GameOk, LandlordRule, Due, Ready, AfterEnd, Outcome, CardsPlayed, HandTotal, Seated, SameHands, Chosen, Elems, Takeable;
      if ids == [] {
        if lastPlayed == None {
          SameHandsReflexive(hands);
          return;
        }
        ApplyPass(uid);
      } else {
        ApplyCards(uid, ids);
      }
    }

    method ApplyPass(uid: string)
      requires if finished then Ended() else TurnDue()
      requires cur < |order| && uid == order[cur] && lastPlayed.Some?
      modifies `hands, `cur, `lastPlayed, `passCount, `timer, `finished, `landlordWon, `log, `asked, `endHands, `late
      ensures old(finished) ==> Ended() && log == old(log) && endHands == old(endHands) && landlordWon == old(landlordWon) && |late| > |old(late)|
      ensures !old(finished) ==> ValidPlaying() && Onward(absent, old(asked), old(log) + [Pass(old(cur))], log, finished, late)
      decreases HandTotal(order, hands), 2 - passCount, 0
    {
      hide Onward, CalledBy, GameOk, LandlordRule, Due, Ready, AfterEnd, Outcome, CardsPlayed, HandTotal, Seated, NextSeat;
      if finished {
        EndFacts(order, hands, CardsPlayed(log), CardsPlayed(late), cur, lastPlayed, passCount);
        LatePass(order, hands, CardsPlayed(log), late, cur, lastPlayed, passCount);
        late := late + [Pass(cur)];
      } else {
        DueFacts(order, hands, first, log, cur, lastPlayed, passCount);
        DuePass(order, hands, first, log, cur, lastPlayed, passCount);
        log := log + [Pass(cur)];
      }
      passCount := passCount + 1;
      if passCount >= 2 {
        ghost var was := cur;
        cur := IndexOf(lastPlayed.value.uid);
        if finished {
          LateLead(order, hands, CardsPlayed(log), CardsPlayed(late), was, lastPlayed, 1, cur);
        }
        NextTurn(true);
      } else {
        cur := NextSeat(cur);
        NextTurn(false);
      }
    }

    method ApplyCards(uid: string, ids: seq<int>)
      requires cur < |order| && uid == order[cur] && uid in hands && ids != []
      requires if finished then Ended() && lastPlayed == None && Acceptable(uid, ids) else TurnDue()
      modifies `hands, `cur, `lastPlayed, `passCount, `timer, `finished, `landlordWon, `log, `asked, `endHands, `late
      ensures old(finished) ==> Ended() && log == old(log) && endHands == old(endHands) && landlordWon == old(landlordWon) && |late| > |old(late)|
      ensures !old(finished) && old(Acceptable(uid, ids)) ==>
                ValidPlaying() && Onward(absent, old(asked), old(log) + [old(ActFor(uid, ids))], log, finished, late)
      ensures !old(finished) && !old(Acceptable(uid, ids)) ==>
                TurnDue() && SameHands(old(hands), hands) && unchanged(`cur, `lastPlayed, `passCount, `timer, `finished, `landlordWon, `log, `asked, `endHands, `late)
      decreases HandTotal(order, hands), 0, 1
    {
      hide Onward, CalledBy, GameOk, LandlordRule, Due, Ready, AfterEnd, Outcome, CardsPlayed, HandTotal, Seated, Allowed, Takeable, Chosen, Kept, Elems, HandOf, Beats, SameHands, DistinctIds;
      if finished {
        EndFacts(order, hands, CardsPlayed(log), CardsPlayed(late), cur, lastPlayed, passCount);
      } else {
        DueFacts(order, hands, first, log, cur, lastPlayed, passCount);
      }
      AllowedCards(hands[uid], if lastPlayed.Some? then Some(lastPlayed.value.cards) else None, ids);
      ghost var before := hands;
      var ok, taken, kept := TakeCards(hands[uid], ids);
      if !ok {
        SameHandsReflexive(hands);
        return;
      }
      TakingSplitsTheHand(hands[uid], Elems(ids));
      hands := hands[uid := kept];
      var typ, good := Judge(uid, taken);
      if !good {
        PutBack(uid, taken, before);
        return;
      }
      Accept(uid, taken, typ, ids, before);
    }

    /** The type of a play and whether it may be put on the table now. */
    method Judge(uid: string, taken: seq<Card>) returns (typ: HandType, good: bool)
      requires lastPlayed.Some? ==> lastPlayed.value.uid != uid
      requires lastPlayed.Some? ==> lastPlayed.value.typ == HandOf(lastPlayed.value.cards).typ
      ensures typ == HandOf(taken).typ
      ensures good <==> typ != Invalid && (lastPlayed.Some? ==> Beats(taken, lastPlayed.value.cards))
    {
      var main;
      typ, main := Classify(taken);
      if typ == Invalid {
        return typ, false;
      }
      if lastPlayed.Some? && lastPlayed.value.uid != uid {
        var lastMain := MainRankOf(lastPlayed.value.cards);
        if !CanBeat(typ, main, |taken|, lastPlayed.value.typ, lastMain, |lastPlayed.value.cards|) {
          return typ, false;
        }
      }
      good := true;
    }

    /** Returns rejected cards to the hand they came from. */
    method PutBack(uid: string, taken: seq<Card>, ghost before: map<string, seq<Card>>)
      requires stage == Playing && !finished && !expired && late == [] && CalledBy(order, landlord, calls, first, baseScore, redeals, bids)
      requires Due(order, before, first, log, cur, lastPlayed, passCount)
      requires uid in before && uid in hands && hands == before[uid := hands[uid]]
      requires multiset(hands[uid]) + multiset(taken) == multiset(before[uid])
      modifies `hands
      ensures TurnDue() && SameHands(before, hands)
    {
      hide CalledBy, GameOk, LandlordRule, Due, Ready, AfterEnd, Outcome, CardsPlayed, HandTotal, Seated, SameHands;
      var sorted := SortHand(hands[uid] + taken);
      DueAgain(order, before, first, log, cur, lastPlayed, passCount, uid, sorted);
      hands := hands[uid := sorted];
      assert hands == before[uid := sorted];
    }

    method Accept(uid: string, taken: seq<Card>, typ: HandType, ids: seq<int>, ghost before: map<string, seq<Card>>)
      requires cur < |order| && uid == order[cur] && uid in before
      requires taken == Chosen(before[uid], Elems(ids)) && typ == HandOf(taken).typ && Beating(before[uid], lastPlayed, Elems(ids))
      requires hands == before[uid := Kept(before[uid], Elems(ids))]
      requires if finished then Settled() && AfterEnd(order, before, CardsPlayed(log), CardsPlayed(late), cur, lastPlayed, passCount)
               else stage == Playing && !expired && late == [] && CalledBy(order, landlord, calls, first, baseScore, redeals, bids) && Due(order, before, first, log, cur, lastPlayed, passCount)
      modifies `hands, `cur, `lastPlayed, `passCount, `timer, `finished, `landlordWon, `log, `asked, `endHands, `late
      ensures old(finished) ==> Ended() && log == old(log) && endHands == old(endHands) && landlordWon == old(landlordWon) && |late| > |old(late)|
      ensures !old(finished) ==> ValidPlaying() && Onward(absent, old(asked), old(log) + [Play(old(cur), taken)], log, finished, late)
      decreases HandTotal(order, before), 0, 0
    {
      hide Onward, CalledBy, GameOk, LandlordRule, Due, Ready, AfterEnd, Outcome, CardsPlayed, HandTotal, Seated, OnTable, Chosen, Kept, Elems, HandOf, Beats;
      if finished {
        LatePlay(order, before, CardsPlayed(log), late, cur, lastPlayed, passCount, Elems(ids));
        late := late + [Play(cur, taken)];
      } else {
        DuePlay(order, before, first, log, cur, lastPlayed, passCount, Elems(ids));
        log := log + [Play(cur, taken)];
      }
      lastPlayed := Some(Played(uid, taken, typ));
      passCount := 0;
      AfterPlay(uid);
    }

    /** The play is on the table: it wins with the last card, otherwise the next seat answers. */
    method AfterPlay(uid: string)
      requires passCount == 0 && cur < |order| && uid == order[cur] && lastPlayed.Some?
      requires if finished then Ended() && late != []
               else stage == Playing && !expired && late == [] && CalledBy(order, landlord, calls, first, baseScore, redeals, bids) && OnTable(order, hands, first, log, cur, lastPlayed)
      modifies `hands, `cur, `lastPlayed, `passCount, `timer, `finished, `landlordWon, `log, `asked, `endHands, `late
      ensures old(finished) ==> Ended() && log == old(log) && endHands == old(endHands) && landlordWon == old(landlordWon) && |late| >= |old(late)|
      ensures !old(finished) ==> ValidPlaying() && Onward(absent, old(asked), old(log), log, finished, late)
      decreases HandTotal(order, hands), 3, 0
    {
      hide Onward, GameOk, LandlordRule, Due, Ready, AfterEnd, Outcome, CardsPlayed, HandTotal, Seated, NextSeat;
      if finished {
        EndFacts(order, hands, CardsPlayed(log), CardsPlayed(late), cur, lastPlayed, passCount);
        LateNext(order, hands, CardsPlayed(log), CardsPlayed(late), cur, lastPlayed);
      } else {
        LastCardWins(order, hands, first, log, cur, lastPlayed);
      }
      if |hands[uid]| == 0 {
        Finish(uid == landlord);
        WonAtOnce(absent, asked, log);
        return;
      }
      cur := NextSeat(cur);
      NextTurn(false);
    }

    method Finish(landlordWin: bool)
      modifies `finished, `timer, `landlordWon, `endHands
      ensures finished && timer == (if old(finished) then old(timer) else None)
      ensures landlordWon == if old(finished) then old(landlordWon) else Some(landlordWin)
      ensures endHands == if old(finished) then old(endHands) else hands
    {
      if finished {
        return;
      }
      finished := true;
      timer := None;
      landlordWon := Some(landlordWin);
      endHands := hands;
    }

    // ---- What drives the room ----

    function CurrentUid(): (uid: Option<string>)
      reads this
    {
      match stage
      case Waiting => None
      case Bidding => if bidIndex < |order| then Some(order[bidIndex]) else None
      case Playing => if cur < |order| then Some(order[cur]) else None
    }

    /** A client message; only the player in turn is heard, and only in the stage the message is for. */
    method OnMessage(uid: string, msg: Message)
      requires Valid()
      modifies this
      ensures Valid() && old(log) <= log && old(bids) <= bids && (!old(finished) ==> late == [])
      ensures old(finished || CurrentUid() != Some(uid)) ==> unchanged(this)
      ensures old(stage == Stage.Bidding && CurrentUid() == Some(uid)) && msg == Call(3) ==>
                stage == Playing && !finished && log == [] && landlord == uid && baseScore == 3 && leftOpen == absent(old(asked))
      ensures old(stage == Stage.Bidding && CurrentUid() == Some(uid)) && msg.Call? ==> old(bids) + [msg.score] <= bids
      ensures old(stage == Playing && !finished && CurrentUid() == Some(uid) && uid in hands) && msg.PlayCards? ==>
                if old(Acceptable(uid, msg.ids)) then Onward(absent, old(asked), old(log) + [old(ActFor(uid, msg.ids))], log, finished, late)
                else log == old(log) && SameHands(old(hands), hands)
      ensures old(stage) == (if msg.Call? then Playing else Stage.Bidding) ==> unchanged(this)
      ensures finished ==> !expired || old(finished)
    {
      hide CalledBy, GameOk, LandlordRule, Due, AfterEnd, Outcome, CardsPlayed, Dealt, DealOf, Round, Allowed;
      if finished || CurrentUid() != Some(uid) {
        return;
      }
      if stage == Playing {
        DueFacts(order, hands, first, log, cur, lastPlayed, passCount);
      }
      match msg
      case Call(score) =>
        if stage == Stage.Bidding {
          ApplyBid(uid, score);
        }
      case PlayCards(ids) =>
        if stage == Playing {
          ApplyPlay(uid, ids);
        }
    }

    /**
     A turn timer, perhaps one that was cancelled too late.  It acts for the player in turn,
     and does not ask whether the game is over: on a finished room it acts exactly when that
     player answers a play or still has a card to lead, and the outcome stands.
     */
    method OnTurnTimer(uid: string)
      requires Valid()
      modifies this
      ensures Valid() && old(log) <= log && (finished ==> !expired || old(finished))
      ensures old(CurrentUid() != Some(uid)) ==> unchanged(this)
      ensures old(stage == Stage.Bidding && CurrentUid() == Some(uid)) ==> old(bids) + [0] <= bids
      ensures old(stage == Playing && !finished && CurrentUid() == Some(uid) && uid in hands) ==> old(log) + [old(AutoAct(uid))] <= log
      ensures old(finished) ==> finished && log == old(log) && endHands == old(endHands) && landlordWon == old(landlordWon) && expired == old(expired)
      ensures old(finished && CurrentUid() == Some(uid) && uid in hands) ==>
                if old(lastPlayed.Some? || hands[uid] != []) then |late| > |old(late)| else unchanged(this)
    {
      hide CalledBy, GameOk, LandlordRule, Due, AfterEnd, Outcome, CardsPlayed, Dealt, DealOf, Round, Allowed;
      if finished {
        EndFacts(order, hands, CardsPlayed(log), CardsPlayed(late), cur, lastPlayed, passCount);
      } else if stage == Playing {
        DueFacts(order, hands, first, log, cur, lastPlayed, passCount);
      }
      if stage == Stage.Bidding && CurrentUid() == Some(uid) {
        ApplyBid(uid, 0);
      } else if stage == Playing && CurrentUid() == Some(uid) {
        AutoPlay(uid, lastPlayed == None);
      }
    }

    /** The periodic check: acts for an absent player whose turn has no timer, and then always moves the game on. */
    method Tick()
      requires InBidding() || ValidPlaying()
      modifies this
      ensures InBidding() || ValidPlaying()
      ensures old(Valid()) ==> Valid()
      ensures old(log) <= log && (finished ==> !expired || old(finished))
      ensures old(finished) ==> unchanged(this)
      ensures old(timer.Some? || !absent(asked)) ==>
                unchanged(`hands, `stage, `cur, `lastPlayed, `passCount, `timer, `finished, `landlordWon, `log, `late, `bids)
      ensures old(stage == Stage.Bidding && timer == None && absent(asked)) ==> old(bids) + [0] <= bids
      ensures old(stage == Playing && !finished && timer == None && absent(asked) && cur < |order| && order[cur] in hands) ==>
                old(log) + [old(AutoAct(order[cur]))] <= log
      ensures old(!finished && stage == Playing && timer == None && AbsentFrom(absent, asked)) ==> finished && late == []
    {
      hide CalledBy, GameOk, LandlordRule, Due, AfterEnd, Outcome, CardsPlayed, Dealt, DealOf, Round, Allowed;
      if finished {
        return;
      }
      if stage == Playing {
        DueFacts(order, hands, first, log, cur, lastPlayed, passCount);
      } else {
        DealtFacts(order, hands, landlord3);
      }
      var uid := CurrentUid();
      if uid == None {
        return;
      }
      var offline := IsOffline();
      if offline && timer == None {
        if stage == Stage.Bidding {
          ApplyBid(uid.value, 0);
        } else if stage == Playing {
          AutoPlay(uid.value, lastPlayed == None);
        }
      }
    }

    lemma PlayingIsValid()
      requires Valid() && stage == Playing
      ensures ValidPlaying()
    {
    }

    /** The room's time limit: in play, the landlord wins with no more cards than either opponent. */
    method OnTimeout()
      requires Valid()
      modifies this
      ensures Valid() && unchanged(`log, `hands, `stage)
      ensures old(finished || stage != Playing) ==> unchanged(this)
      ensures old(!finished && stage == Playing) ==>
                && finished && expired && landlord in hands
                && landlordWon == Some(forall u | u in hands && u != landlord :: |hands[landlord]| <= |hands[u]|)
    {
      hide ValidBidding, ValidPlaying;
      if finished {
        return;
      }
      if stage == Playing {
        PlayingIsValid();
        EndOnTime();
      }
    }

    method EndOnTime()
      requires ValidPlaying() && !finished
      modifies `expired, `finished, `timer, `landlordWon, `endHands
      ensures ValidPlaying() && finished && expired && landlord in hands
      ensures landlordWon == Some(forall u | u in hands && u != landlord :: |hands[landlord]| <= |hands[u]|)
    {
      hide CalledBy, Due, AfterEnd, Outcome, CardsPlayed;
      CallFacts(order, landlord, calls, first, baseScore, redeals, bids);
      TimeDecides(order, hands, first, log, cur, lastPlayed, passCount);
      var landlordWin := LandlordAhead(hands, landlord);
      expired := true;
      Finish(landlordWin);
    }
  }

  // ---- Every state of every run ----

  /** Between steps no card is ever lost, duplicated or invented, not even after the end. */
  lemma CardsAreConserved(r: Room)
    requires r.Valid()
    ensures Seated(r.order, r.hands) && HandsSorted(r.hands) && (!r.finished ==> r.late == [])
    ensures Held(r.order, r.hands) + (if r.stage == Playing then CardsPlayed(r.log) + CardsPlayed(r.late) else multiset(r.landlord3)) ==
            multiset(Deck())
    ensures CardsPlayed(r.log) <= multiset(Deck()) && |r.log| <= 162
  {
    if r.stage == Playing {
      GameIsFinite(r.first, r.log);
    }
  }

  lemma RoomFacts(r: Room)
    requires r.Valid()
    ensures r.stage == Stage.Bidding ==> r.log == [] && r.late == []
    ensures r.stage != Stage.Bidding ==> r.stage == Playing && r.first < SEATS && Legal(r.first, r.log) && 1 <= r.baseScore <= 3
  {
  }

  /** Nine calls at most: a room still bidding has heard at most eight, and deals afresh after the third and the sixth. */
  lemma BiddingIsShort(r: Room)
    requires r.Valid()
    ensures |r.bids| <= 9
    ensures r.stage == Stage.Bidding ==> |r.bids| < 9 && |r.bids| / 3 == r.redeals && DealtFrom(r.order, r.hands, r.landlord3, SeedAfter(r.start, 53 * (|r.bids| / 3)))
  {
  }

  /** The landlord called the highest score first, or nobody called in any of the three rounds. */
  lemma LandlordCalledHighest(r: Room)
    requires r.Valid() && r.stage == Playing
    ensures 1 <= r.baseScore <= 3
    ensures
      || (exists i: nat | i < |r.calls| && i < |r.order| ::
            IsWinner(r.calls, i) && r.landlord == r.order[i] && r.baseScore == LegalScore(r.calls[i]))
      || (NobodyCalled(r.bids) && r.landlord == r.order[0] && r.baseScore == 1 && |r.bids| == 9)
  {
    hide Due, AfterEnd, Outcome, Dealt, DealOf, CardsPlayed;
    if NobodyCalled(r.calls) {
      LogRedeal(r.bids, r.calls, r.redeals);
      assert r.bids[..|r.bids|] == r.bids;
    } else {
      assert IsWinner(r.calls, r.first) && r.first < |r.order|;
    }
  }

  /** With a play on the table the turn is its seat plus one plus the standing passes, never its own. */
  lemma TurnFollowsLastPlay(r: Room)
    requires r.Valid() && r.stage == Playing && !r.finished && r.lastPlayed.Some?
    ensures r.passCount <= 1
    ensures exists s | 0 <= s < SEATS :: r.order[s] == r.lastPlayed.value.uid && r.cur == (s + 1 + r.passCount) % SEATS && r.cur != s
  {
    hide Outcome, AfterEnd, Dealt, DealOf, Round, LandlordRule, Legal, HandOf, Held, CardsPlayed, HandsSorted, HandsLeft;
    TurnArithmetic(r.first, r.log);
    var s := After(r.first, r.log).lead.value.seat;
    assert r.order[s] == r.lastPlayed.value.uid;
  }

  /** A game in progress waits without a timer exactly at the first lead of a landlord who was offline when play began. */
  lemma NoTimerIff(r: Room)
    requires r.Valid() && !r.finished
    ensures r.timer == None <==> r.stage == Playing && r.log == [] && r.leftOpen
    ensures r.timer == None ==> r.cur == r.first && r.lastPlayed == None
  {
    EmptyLog(r.first);
  }

  /** How every finished game was decided: by the last card played, or on time by the sizes of the hands. */
  lemma EveryEndIsDecided(r: Room)
    requires r.Valid() && r.finished
    ensures r.first < |r.order| && r.landlord == r.order[r.first]
    ensures Outcome(r.order, r.endHands, r.first, r.log, r.landlordWon, r.expired)
  {
    hide Outcome, Due, AfterEnd, CardsPlayed, Dealt, DealOf, Round;
  }

  /** What that says about the hands, the log and the winner. */
  lemma OutcomeFacts(order: seq<string>, hands: map<string, seq<Card>>, first: nat, log: seq<Act>, won: Option<bool>, expired: bool)
    requires Outcome(order, hands, first, log, won, expired)
    ensures Seated(order, hands) && Held(order, hands) + CardsPlayed(log) == multiset(Deck()) && Legal(first, log)
    ensures first < |order| && order[first] in hands
    ensures expired ==> won == Some(forall u | u in hands && u != order[first] :: |hands[order[first]]| <= |hands[u]|)
    ensures !expired ==> exists s | 0 <= s < |order| ::
              order[s] in hands && hands[order[s]] == [] && log != [] && log[|log| - 1].Play? && log[|log| - 1].seat == s && won == Some(s == first)
  {
    hide CardsPlayed, Legal, Held;
    GameFacts(order, hands, first, log);
    if !expired {
      var s := log[|log| - 1].seat;
      assert 0 <= s < |order| && order[s] in hands && hands[order[s]] == [];
    }
  }

  /** The player who just won is still in turn, so a timer of theirs that was already queued will pass for them. */
  lemma WinnerIsStillInTurn(r: Room)
    requires r.Valid() && r.finished && !r.expired && r.late == []
    ensures r.log != [] && r.log[|r.log| - 1].Play? && r.lastPlayed.Some?
    ensures r.CurrentUid() == Some(r.order[r.log[|r.log| - 1].seat])
  {
  }

  /** Autoplay passes on a play, and leads the lowest card it holds. */
  lemma AutoplayIsLowest(r: Room, uid: string)
    requires r.Valid() && r.stage == Playing && uid in r.hands
    ensures r.lastPlayed.Some? ==> r.AutoAct(uid) == Pass(r.cur)
    ensures r.lastPlayed == None && r.hands[uid] != [] ==>
              exists c :: c in r.hands[uid] && r.AutoAct(uid) == Play(r.cur, [c]) && forall d | d in r.hands[uid] :: c.rank <= d.rank
  {
    hide LandlordRule, Outcome, CardsPlayed, Dealt, DealOf, Round, Held;
    CardsAreConserved(r);
    if r.lastPlayed == None && r.hands[uid] != [] {
      var c := r.hands[uid][0];
      assert SortedByRank(r.hands[uid]) && c in r.hands[uid];
      forall d | d in r.hands[uid] ensures c.rank <= d.rank {
        var i :| 0 <= i < |r.hands[uid]| && r.hands[uid][i] == d;
      }
    }
  }

  /** With nobody online, every table reaches that state as soon as it is full. */
  method AbsentTableHasNoTimer(uids: seq<string>, seed: int) returns (stage: Stage, timer: Option<string>)
    requires |uids| == SEATS && NoRepeats(uids) && "" !in uids
    ensures stage == Playing && timer == None
  {
    var room := new Room(uids, seed, (i: nat) => true);
    room.Start();
    NoTimerIff(room);
    stage, timer := room.stage, room.timer;
  }

  /** One tick plays such a table to its end. */
  method AbsentTableEnds(uids: seq<string>, seed: int)
    returns (outcome: Option<bool>, ghost first: nat, ghost endHands: map<string, seq<Card>>, ghost log: seq<Act>)
    requires |uids| == SEATS && NoRepeats(uids) && "" !in uids
    ensures outcome.Some? && Outcome(uids, endHands, first, log, outcome, false)
  {
    hide Outcome, Due, AfterEnd, CardsPlayed, Dealt, DealOf, Round, CalledBy;
    var room := new Room(uids, seed, (i: nat) => true);
    room.Start();
    NoTimerIff(room);
    room.Tick();
    EveryEndIsDecided(room);
    OutcomeFacts(room.order, room.endHands, room.first, room.log, room.landlordWon, room.expired);
    outcome, first, endHands, log := room.landlordWon, room.first, room.endHands, room.log;
  }

  /**
   A game among players who are all online, who call and play in time: the one who wins does so
   while a timer is armed for them.  That timer, if it was queued by then, acts on the finished room.
   */
  method QueuedTimerActs(uids: seq<string>, seed: int)
    returns (room: Room, armed: Option<string>)
    requires |uids| == SEATS && NoRepeats(uids) && "" !in uids
    ensures fresh(room) && room.Valid() && room.order == uids && room.finished && !room.expired && room.late != []
    ensures room.log != [] && room.log[|room.log| - 1].seat < SEATS && armed == Some(uids[room.log[|room.log| - 1].seat])
  {
    hide Outcome, Due, AfterEnd, CardsPlayed, Dealt, DealOf, Round, CalledBy, Allowed, Onward;
    room := new Room(uids, seed, (i: nat) => false);
    room.Start();
    room.OnMessage(uids[0], Call(3));
    var winner;
    armed, winner := PlayToEnd(room);
    WinnerIsStillInTurn(room);
    CardsAreConserved(room);
    room.OnTurnTimer(winner);
  }

  /** Everybody online plays in time until somebody wins, who had a timer then. */
  method PlayToEnd(room: Room) returns (armed: Option<string>, winner: string)
    requires room.Valid() && room.stage == Playing && !room.finished && !room.expired && room.log == [] && !room.leftOpen
    requires forall i :: !room.absent(i)
    modifies room
    ensures room.Valid() && room.stage == Playing && room.finished && !room.expired && room.late == []
    ensures armed == Some(winner) && room.CurrentUid() == Some(winner)
  {
    hide Outcome, Due, AfterEnd, CardsPlayed, Dealt, DealOf, Round, CalledBy, Allowed, Onward;
    armed, winner := None, "";
    while !room.finished
      invariant room.Valid() && room.stage == Playing && !room.expired && room.late == []
      invariant room.log == [] ==> !room.leftOpen
      invariant room.finished ==> armed == Some(winner) && room.CurrentUid() == Some(winner)
      decreases 162 - |room.log|, !room.finished
    {
      DueFacts(room.order, room.hands, room.first, room.log, room.cur, room.lastPlayed, room.passCount);
      armed, winner := room.timer, room.order[room.cur];
      PlayInTime(room, winner);
    }
  }

  /** The player in turn, who has a timer, leads the smallest card or passes. */
  method PlayInTime(room: Room, uid: string)
    requires room.Valid() && room.stage == Playing && !room.finished && !room.expired && room.CurrentUid() == Some(uid)
    requires !room.absent(room.asked)
    modifies room
    ensures room.Valid() && room.stage == Playing && !room.expired && room.late == [] && |room.log| == |old(room.log)| + 1 <= 162
    ensures room.finished ==> room.CurrentUid() == Some(uid)
  {
    hide Outcome, Due, AfterEnd, CardsPlayed, Dealt, DealOf, Round, CalledBy, Allowed, Onward;
    DueFacts(room.order, room.hands, room.first, room.log, room.cur, room.lastPlayed, room.passCount);
    var ids: seq<int> := [];
    if room.lastPlayed == None {
      LeadingSingleIsAllowed(room.hands[uid]);
      ids := [room.hands[uid][0].ID()];
    }
    AllowedPass(room.hands[uid]);
    ghost var log, act, asked := room.log, room.ActFor(uid, ids), room.asked;
    room.OnMessage(uid, PlayCards(ids));
    OnwardFacts(room.absent, asked, log + [act], room.log, room.finished, room.late);
    CardsAreConserved(room);
    if room.finished {
      WinnerIsStillInTurn(room);
    }
  }

  datatype Event = FromClient(uid: string, msg: Message) | TurnTimer(uid: string) | Ticking | TimeLimit

  /**
   Any run: three players sit down, then any events arrive in any order, also after the end.
   The log it leaves is a legal game, all 54 cards are accounted for, and whatever comes after
   an end (`more`) changes neither the log nor the outcome.
   */
  method RunRoom(uids: seq<string>, seed: int, absent: nat -> bool, events: seq<Event>, more: seq<Event>)
    returns (stage: Stage, base: nat, hands: map<string, seq<Card>>, bottom: seq<Card>,
             over: bool, won: Option<bool>, ended: bool, outcome: Option<bool>,
             ghost first: nat, ghost log0: seq<Act>, ghost log: seq<Act>, ghost late: seq<Act>,
             ghost endHands: map<string, seq<Card>>, ghost timedOut: bool)
    requires |uids| == SEATS && NoRepeats(uids) && "" !in uids
    ensures Seated(uids, hands) && HandsSorted(hands)
    ensures stage == Stage.Bidding ==> log == [] && Held(uids, hands) + multiset(bottom) == multiset(Deck())
    ensures stage == Stage.Bidding ==> exists n: nat | n <= 2 :: DealtFrom(uids, hands, bottom, SeedAfter(seed, 53 * n))
    ensures stage != Stage.Bidding ==> Held(uids, hands) + CardsPlayed(log) + CardsPlayed(late) == multiset(Deck())
    ensures stage != Stage.Bidding ==> first < SEATS && Legal(first, log) && |log| <= 162 && 1 <= base <= 3
    ensures log0 <= log && (over ==> ended && log == log0 && outcome == won)
    ensures ended ==> Outcome(uids, endHands, first, log, outcome, timedOut)
  {
    hide GameOk, LandlordRule, Due, AfterEnd, Outcome, CardsPlayed, Dealt, DealOf, Round, Allowed, CalledBy, DealtFrom, SeedAfter, Held, HandsSorted, Legal;
    var room := new Room(uids, seed, absent);
    room.Start();
    for i := 0 to |events|
      invariant fresh(room) && room.Valid() && room.order == uids && room.start == seed
    {
      HandleEvent(room, events[i]);
    }
    over, won, log0 := room.finished, room.landlordWon, room.log;
    for i := 0 to |more|
      invariant fresh(room) && room.Valid() && room.order == uids && room.start == seed
      invariant log0 <= room.log && (over ==> room.finished && room.log == log0 && room.landlordWon == won)
    {
      HandleEvent(room, more[i]);
    }
    CardsAreConserved(room);
    RoomFacts(room);
    BiddingIsShort(room);
    if room.finished {
      EveryEndIsDecided(room);
    }
    stage, base, hands, bottom := room.stage, room.baseScore, room.hands, room.landlord3;
    ended, outcome, endHands, timedOut := room.finished, room.landlordWon, room.endHands, room.expired;
    first, log, late := room.first, room.log, room.late;
  }

  /** One event in the room's queue. */
  method HandleEvent(room: Room, e: Event)
    requires room.Valid()
    modifies room
    ensures room.Valid() && old(room.log) <= room.log
    ensures old(room.finished) ==> room.finished && room.log == old(room.log) && room.landlordWon == old(room.landlordWon)
  {
    hide CalledBy, GameOk, LandlordRule, Due, AfterEnd, Outcome, CardsPlayed, Dealt, DealOf, Round, Allowed;
    match e {
      case FromClient(uid, msg) => room.OnMessage(uid, msg);
      case TurnTimer(uid) => room.OnTurnTimer(uid);
      case Ticking => room.Tick();
      case TimeLimit => room.OnTimeout();
    }
  }
}

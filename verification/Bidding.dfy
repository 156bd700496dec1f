/** Who wins a round of calls, stated without following the calls one by one. */
module Bidding {
  /** A call outside 1..3 counts as no call. */
  function LegalScore(score: int): nat {
    if 1 <= score <= 3 then score else 0
  }

  /** Call `i` is the earliest of the highest calls of the round. */
  ghost predicate IsWinner(calls: seq<int>, i: nat) {
    && i < |calls|
    && LegalScore(calls[i]) > 0
    && (forall j | 0 <= j < |calls| :: LegalScore(calls[j]) <= LegalScore(calls[i]))
    && (forall j | 0 <= j < i :: LegalScore(calls[j]) < LegalScore(calls[i]))
  }

  ghost predicate NobodyCalled(calls: seq<int>) {
    forall j | 0 <= j < |calls| :: LegalScore(calls[j]) == 0
  }

  /** `maxScore` and `maxBidder` after the calls of the players in seat order. */
  ghost predicate Leads(order: seq<string>, calls: seq<int>, maxScore: nat, maxBidder: string) {
    && |calls| <= |order|
    && if maxScore == 0 then NobodyCalled(calls) && maxBidder == ""
       else exists i: nat :: IsWinner(calls, i) && maxBidder == order[i] && maxScore == LegalScore(calls[i])
  }

  /** A further call takes the lead exactly when it is legal and higher than every call before it. */
  lemma CallTakesLead(order: seq<string>, calls: seq<int>, maxScore: nat, maxBidder: string, score: int)
    requires Leads(order, calls, maxScore, maxBidder) && |calls| < |order|
    ensures Leads(order, calls + [score],
                  if LegalScore(score) > maxScore then LegalScore(score) else maxScore,
                  if LegalScore(score) > maxScore then order[|calls|] else maxBidder)
  {
    var calls' := calls + [score];
    if LegalScore(score) > maxScore {
      assert IsWinner(calls', |calls|);
    } else if maxScore > 0 {
      var i: nat :| IsWinner(calls, i) && maxBidder == order[i] && maxScore == LegalScore(calls[i]);
      assert IsWinner(calls', i);
    }
  }
}

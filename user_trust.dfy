/** The simple trust score carried on a user record: a success-weighted score
    between 10 and 100 and the complementary dispute rate, both recomputed from two
    counters after every settled transaction. */
module UserTrust {
  import opened Base

  /** `10 + 90 · successful / total`, then clamped to [0, 100]. */
  function SuccessScore(successful: nat, total: nat): (r: real)
    requires total > 0
    ensures 0.0 <= r <= 100.0
    ensures successful <= total ==> 10.0 <= r
    ensures successful == total ==> r == 100.0
    ensures successful == 0 ==> r == 10.0
  {
    var rate := successful as real / total as real;
    Max(Min(rate * 90.0 + 10.0, 100.0), 0.0)
  }

  /** `(total - successful) / total`: the share of transactions that were not
      successful. */
  function DisputeRate(successful: nat, total: nat): (r: real)
    requires total > 0 && successful <= total
    ensures 0.0 <= r <= 1.0
    ensures r + successful as real / total as real == 1.0
  {
    (total - successful) as real / total as real
  }

  /** With consistent counters the clamp never binds, so the score recovers the
      success fraction exactly: `(score - 10) / 90 == successful / total`. */
  lemma SuccessFractionFromScore(successful: nat, total: nat)
    requires total > 0 && successful <= total
    ensures (SuccessScore(successful, total) - 10.0) / 90.0 == successful as real / total as real
  {
    var rate := successful as real / total as real;
    assert rate <= 1.0 by {
      assert successful as real <= total as real;
    }
    assert 0.0 <= rate;
    assert SuccessScore(successful, total) == rate * 90.0 + 10.0;
  }

  /** The score and the dispute rate carry the same information: each 1% of
      disputes costs 0.9 points below the maximum of 100. */
  lemma ScoreAndRateAgree(successful: nat, total: nat)
    requires total > 0 && successful <= total
    ensures SuccessScore(successful, total) == 100.0 - 90.0 * DisputeRate(successful, total)
  {
    SuccessFractionFromScore(successful, total);
  }

  /** More successes over the same number of transactions never lower the score. */
  lemma SuccessScoreMonotone(s1: nat, s2: nat, total: nat)
    requires total > 0 && s1 <= s2 <= total
    ensures SuccessScore(s1, total) <= SuccessScore(s2, total)
  {
    SuccessFractionFromScore(s1, total);
    SuccessFractionFromScore(s2, total);
    DivideMonotone(s1 as real, s2 as real, total as real);
  }

  lemma DivideMonotone(a: real, b: real, c: real)
    requires a <= b && 0.0 < c
    ensures a / c <= b / c
  {
    assert b / c - a / c == (b - a) / c;
    assert (b - a) / c >= 0.0;
  }

  /** The `TrustScore` of a user record, updated in place. */
  class TrustScore {
    var score: real
    var totalTransactions: nat
    var successfulTransactions: nat
    var disputeRate: real
    var lastUpdated: int

    /** No more successes than transactions, so `total - successful` cannot
        underflow, and once there is a transaction the score and rate are the ones
        derived from the counters. */
    ghost predicate Valid()
      reads this
    {
      && successfulTransactions <= totalTransactions
      && (totalTransactions > 0 ==>
            && score == SuccessScore(successfulTransactions, totalTransactions)
            && disputeRate == DisputeRate(successfulTransactions, totalTransactions))
    }

    /** `TrustScore::new`, at clock reading `now`. */
    constructor (now: int)
      ensures score == 50.0 && totalTransactions == 0 && successfulTransactions == 0
      ensures disputeRate == 0.0 && lastUpdated == now
      ensures Valid()
    {
      score := 50.0;
      totalTransactions := 0;
      successfulTransactions := 0;
      disputeRate := 0.0;
      lastUpdated := now;
    }

    /** `recalculate`: with at least one transaction, the score and dispute rate are
        recomputed from the counters; the timestamp is always refreshed. The `u32`
        subtraction `total - successful` needs `successful <= total`. */
    method Recalculate(now: int)
      requires successfulTransactions <= totalTransactions
      modifies this
      ensures totalTransactions == old(totalTransactions)
      ensures successfulTransactions == old(successfulTransactions)
      ensures totalTransactions > 0 ==> score == SuccessScore(successfulTransactions, totalTransactions)
      ensures totalTransactions > 0 ==> disputeRate == DisputeRate(successfulTransactions, totalTransactions)
      ensures totalTransactions == 0 ==> score == old(score) && disputeRate == old(disputeRate)
      ensures lastUpdated == now
      ensures Valid()
    {
      if totalTransactions > 0 {
        var successRate := successfulTransactions as real / totalTransactions as real;
        score := successRate * 90.0 + 10.0;
        score := Max(Min(score, 100.0), 0.0);
        var failures: nat := totalTransactions - successfulTransactions;
        disputeRate := failures as real / totalTransactions as real;
      }
      lastUpdated := now;
    }

    /** `update_after_success`: one more transaction, and a successful one. Whatever
        score and rate the record held before, they follow the counters after. */
    method UpdateAfterSuccess(now: int)
      requires successfulTransactions <= totalTransactions
      modifies this
      ensures totalTransactions == old(totalTransactions) + 1
      ensures successfulTransactions == old(successfulTransactions) + 1
      ensures score == SuccessScore(successfulTransactions, totalTransactions)
      ensures disputeRate == DisputeRate(successfulTransactions, totalTransactions)
      ensures lastUpdated == now
      ensures Valid()
    {
      totalTransactions := totalTransactions + 1;
      successfulTransactions := successfulTransactions + 1;
      Recalculate(now);
    }

    /** `update_after_dispute`: one more transaction, counted as successful only
        when the user won the dispute. A lost dispute lowers a score that already
        followed the counters. */
    method UpdateAfterDispute(wonDispute: bool, now: int)
      requires successfulTransactions <= totalTransactions
      modifies this
      ensures totalTransactions == old(totalTransactions) + 1
      ensures successfulTransactions == old(successfulTransactions) + (if wonDispute then 1 else 0)
      ensures score == SuccessScore(successfulTransactions, totalTransactions)
      ensures disputeRate == DisputeRate(successfulTransactions, totalTransactions)
      ensures !wonDispute && old(totalTransactions) > 0 && old(Valid()) ==> score <= old(score)
      ensures lastUpdated == now
      ensures Valid()
    {
      totalTransactions := totalTransactions + 1;
      if wonDispute {
        successfulTransactions := successfulTransactions + 1;
      }
      Recalculate(now);
      if !wonDispute && old(totalTransactions) > 0 && old(Valid()) {
        LostDisputeLowersScore(old(successfulTransactions), old(totalTransactions));
      }
    }
  }

  /** Losing a dispute never raises the score: one more transaction without one
      more success. */
  lemma LostDisputeLowersScore(successful: nat, total: nat)
    requires 0 < total && successful <= total
    ensures SuccessScore(successful, total + 1) <= SuccessScore(successful, total)
  {
    SuccessFractionFromScore(successful, total);
    SuccessFractionFromScore(successful, total + 1);
    DivideByLarger(successful as real, total as real, (total + 1) as real);
  }

  lemma DivideByLarger(a: real, b: real, c: real)
    requires 0.0 <= a && 0.0 < b <= c
    ensures a / c <= a / b
  {
    var x, y := a / c, a / b;
    assert x * c == a && y * b == a;
    assert x >= 0.0;
    assert x * b <= x * c;
  }

  /** A new user who completes one sale and then loses one dispute ends at 55 with
      a dispute rate of one half. */
  method SuccessThenLostDispute(now: int)
    returns (afterSuccess: real, afterDispute: real, rate: real)
    ensures afterSuccess == 100.0
    ensures afterDispute == 55.0 && rate == 0.5
  {
    var ts := new TrustScore(now);
    ts.UpdateAfterSuccess(now + 1);
    afterSuccess := ts.score;
    ts.UpdateAfterDispute(false, now + 2);
    afterDispute := ts.score;
    rate := ts.disputeRate;
    assert ts.successfulTransactions == 1 && ts.totalTransactions == 2;
  }
}

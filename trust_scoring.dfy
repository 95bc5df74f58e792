/** The weighted trust score of a user: per-user counters, a moving-average
    settlement time, a time-bound penalty ledger and a bonus ledger, the banded trust
    level and the recommended escrow duration. Decimals are exact reals here. */
module TrustScoring {
  import opened Base

  datatype TrustLevel = Newbie | Bronze | Silver | Gold | Platinum | Trusted

  datatype Penalty = Penalty(reason: string, points: real, timestamp: int, expiresAt: int)

  datatype Bonus = Bonus(reason: string, points: real, timestamp: int)

  /** Seven days in seconds: the settlement time at which the speed factor reaches 0. */
  const SecondsPerWeek: real := 604800.0

  // ----- Levels and durations -----

  /** The position of a level on the ladder, Newbie = 0 up to Trusted = 5. */
  function Rank(l: TrustLevel): nat
  {
    match l
    case Newbie => 0
    case Bronze => 1
    case Silver => 2
    case Gold => 3
    case Platinum => 4
    case Trusted => 5
  }

  /** The least score of each band above Newbie. */
  function BandFloor(l: TrustLevel): real
    requires l != Newbie
  {
    match l
    case Bronze => 30.0
    case Silver => 60.0
    case Gold => 80.0
    case Platinum => 90.0
    case Trusted => 96.0
  }

  /** `get_trust_level`, as a function of the score it reads: the band whose floor
      the score has reached and whose next floor it has not. */
  function TrustLevelFor(score: real): (l: TrustLevel)
    ensures l != Newbie ==> BandFloor(l) <= score
    ensures forall m :: m != Newbie && Rank(m) > Rank(l) ==> score < BandFloor(m)
  {
    if score < 30.0 then Newbie
    else if score < 60.0 then Bronze
    else if score < 80.0 then Silver
    else if score < 90.0 then Gold
    else if score < 96.0 then Platinum
    else Trusted
  }

  /** The level never drops as the score rises. */
  lemma TrustLevelMonotone(s: real, t: real)
    requires s <= t
    ensures Rank(TrustLevelFor(s)) <= Rank(TrustLevelFor(t))
  {
  }

  /** Each band's lower bound is inclusive. */
  lemma TrustLevelBoundaries()
    ensures TrustLevelFor(29.9) == Newbie && TrustLevelFor(30.0) == Bronze
    ensures TrustLevelFor(60.0) == Silver && TrustLevelFor(80.0) == Gold
    ensures TrustLevelFor(90.0) == Platinum && TrustLevelFor(95.9) == Platinum
    ensures TrustLevelFor(96.0) == Trusted
  {
  }

  /** The six-rung duration ladder, in days: the higher the level, the shorter. */
  function DurationForLevel(l: TrustLevel): (days: int)
    ensures 1 <= days <= 60
  {
    match l
    case Trusted => 1
    case Platinum => 3
    case Gold => 7
    case Silver => 14
    case Bronze => 30
    case Newbie => 60
  }

  /** Each rung up the ladder strictly shortens the duration. */
  lemma DurationStrictlyDecreasing(l: TrustLevel, m: TrustLevel)
    requires Rank(m) < Rank(l)
    ensures DurationForLevel(l) < DurationForLevel(m)
  {
  }

  /** `get_recommended_escrow_duration`, as a function of the score it reads. */
  function RecommendedEscrowDuration(score: real): (days: int)
    ensures 1 <= days <= 60
    ensures score < 30.0 ==> days == 60
    ensures score >= 96.0 ==> days == 1
  {
    DurationForLevel(TrustLevelFor(score))
  }

  /** The recommended duration never grows as the score rises. */
  lemma DurationNonIncreasing(s: real, t: real)
    requires s <= t
    ensures RecommendedEscrowDuration(t) <= RecommendedEscrowDuration(s)
  {
    TrustLevelMonotone(s, t);
    var ls, lt := TrustLevelFor(s), TrustLevelFor(t);
    if ls != lt {
      DurationStrictlyDecreasing(lt, ls);
    }
  }

  // ----- Ledgers -----

  /** The penalties still in force at `now`, in ledger order: a penalty is active
      while its expiry lies strictly after `now`. */
  function ActivePenalties(penalties: seq<Penalty>, now: int): (active: seq<Penalty>)
    ensures |active| <= |penalties|
    ensures forall p :: p in active <==> p in penalties && p.expiresAt > now
    ensures forall q :: multiset(active)[q] == if q.expiresAt > now then multiset(penalties)[q] else 0
  {
    if penalties == [] then []
    else
      var rest := ActivePenalties(penalties[..|penalties| - 1], now);
      var last := penalties[|penalties| - 1];
      assert penalties == penalties[..|penalties| - 1] + [last];
      if last.expiresAt > now then rest + [last] else rest
  }

  /** The sum of the points of every penalty in a list. */
  function PenaltyPoints(penalties: seq<Penalty>): real
  {
    if penalties == [] then 0.0 else PenaltyPoints(penalties[..|penalties| - 1]) + penalties[|penalties| - 1].points
  }

  /** The sum of the points of every bonus ever granted; bonuses never expire. */
  function BonusPoints(bonuses: seq<Bonus>): (r: real)
    ensures (forall i :: 0 <= i < |bonuses| ==> bonuses[i].points >= 0.0) ==> r >= 0.0
  {
    if bonuses == [] then 0.0 else BonusPoints(bonuses[..|bonuses| - 1]) + bonuses[|bonuses| - 1].points
  }

  /** The active-penalty total in one pass: each penalty still in force at `now`
      contributes its points, an expired one nothing. */
  function ActivePenaltyPoints(penalties: seq<Penalty>, now: int): (r: real)
    ensures (forall i :: 0 <= i < |penalties| ==> penalties[i].points >= 0.0)
            ==> 0.0 <= r <= PenaltyPoints(penalties)
  {
    if penalties == [] then 0.0
    else ActivePenaltyPoints(penalties[..|penalties| - 1], now)
         + (if penalties[|penalties| - 1].expiresAt > now then penalties[|penalties| - 1].points else 0.0)
  }

  /** Appending a penalty to the ledger adds its points to the filtered total only if
      it is still active. */
  lemma PenaltyAppendContribution(penalties: seq<Penalty>, p: Penalty, now: int)
    ensures PenaltyPoints(ActivePenalties(penalties + [p], now))
         == PenaltyPoints(ActivePenalties(penalties, now)) + (if p.expiresAt > now then p.points else 0.0)
  {
    var w := penalties + [p];
    assert w[..|w| - 1] == penalties;
    var rest := ActivePenalties(penalties, now);
    if p.expiresAt > now {
      assert (rest + [p])[..|rest + [p]| - 1] == rest;
    }
  }

  /** The one-pass total is the sum of the filtered ledger, as the source computes it. */
  lemma {:induction false} ActivePenaltyPointsIsFilteredSum(penalties: seq<Penalty>, now: int)
    ensures ActivePenaltyPoints(penalties, now) == PenaltyPoints(ActivePenalties(penalties, now))
  {
    if penalties != [] {
      var prefix := penalties[..|penalties| - 1];
      var last := penalties[|penalties| - 1];
      assert penalties == prefix + [last];
      ActivePenaltyPointsIsFilteredSum(prefix, now);
      PenaltyAppendContribution(prefix, last, now);
    }
  }

  /** With non-negative points, the active penalty total can only shrink as time
      passes, since penalties only expire. */
  lemma {:induction false} PenaltiesFadeOverTime(penalties: seq<Penalty>, earlier: int, later: int)
    requires earlier <= later
    requires forall i :: 0 <= i < |penalties| ==> penalties[i].points >= 0.0
    ensures ActivePenaltyPoints(penalties, later) <= ActivePenaltyPoints(penalties, earlier)
  {
    if penalties != [] {
      PenaltiesFadeOverTime(penalties[..|penalties| - 1], earlier, later);
    }
  }

  /** Once every penalty has expired the ledger no longer weighs on the score. */
  lemma {:induction false} ExpiredPenaltiesWeighNothing(penalties: seq<Penalty>, now: int)
    requires forall i :: 0 <= i < |penalties| ==> penalties[i].expiresAt <= now
    ensures ActivePenaltyPoints(penalties, now) == 0.0
  {
    if penalties != [] {
      ExpiredPenaltiesWeighNothing(penalties[..|penalties| - 1], now);
    }
  }

  // ----- Rounding -----

  /** One decimal place: ten times the value is a whole number. */
  predicate IsTenth(r: real)
  {
    (r * 10.0).Floor as real == r * 10.0
  }

  /** `Decimal::round`: the nearest integer, ties to the even neighbour. */
  function RoundHalfEven(x: real): (n: int)
    ensures (n as real) - 0.5 <= x <= (n as real) + 0.5
    ensures x.Floor <= n <= x.Floor + 1
  {
    var f := x.Floor;
    var frac := x - f as real;
    if frac < 0.5 then f
    else if frac > 0.5 then f + 1
    else if f % 2 == 0 then f
    else f + 1
  }

  /** Rounding never reverses the order of two values. */
  lemma RoundHalfEvenMonotone(x: real, y: real)
    requires x <= y
    ensures RoundHalfEven(x) <= RoundHalfEven(y)
  {
    if x.Floor == y.Floor {
      assert x - x.Floor as real <= y - y.Floor as real;
    } else {
      assert x.Floor < y.Floor;
    }
  }

  /** `(x * 10).round() / 10`: the nearest tenth. */
  function RoundToTenth(x: real): (r: real)
    ensures IsTenth(r)
    ensures r - 0.05 <= x <= r + 0.05
    ensures 0.0 <= x <= 100.0 ==> 0.0 <= r <= 100.0
  {
    var n := RoundHalfEven(x * 10.0);
    assert (n as real / 10.0) * 10.0 == n as real;
    n as real / 10.0
  }

  /** The last step of the score: clamp to [0, 100], then round to one decimal. */
  function ClampAndRound(x: real): (r: real)
    ensures 0.0 <= r <= 100.0 && IsTenth(r)
    ensures x <= 0.0 ==> r == 0.0
    ensures x >= 100.0 ==> r == 100.0
    ensures 0.0 <= x <= 100.0 ==> r - 0.05 <= x <= r + 0.05
  {
    var c := Min(Max(x, 0.0), 100.0);
    assert 0.0 * 10.0 == 0 as real && 100.0 * 10.0 == 1000 as real;
    RoundToTenth(c)
  }

  /** A higher unclamped score never yields a lower final score. */
  lemma ClampAndRoundMonotone(x: real, y: real)
    requires x <= y
    ensures ClampAndRound(x) <= ClampAndRound(y)
  {
    var cx, cy := Min(Max(x, 0.0), 100.0), Min(Max(y, 0.0), 100.0);
    assert cx <= cy;
    RoundHalfEvenMonotone(cx * 10.0, cy * 10.0);
  }

  // ----- The profile -----

  /** A ledger-keeping trust profile (`TrustScore` in the scoring module). */
  class TrustScore {
    const userId: Uuid
    var score: real
    var totalTransactions: nat
    var successfulTransactions: nat
    var disputedTransactions: nat
    var totalAmount: real
    var avgTransactionTime: int
    var lastActivity: int
    const createdAt: int
    var penalties: seq<Penalty>
    var bonuses: seq<Bonus>

    /** The counters never exceed the number of transactions. */
    ghost predicate Valid()
      reads this
    {
      successfulTransactions <= totalTransactions && disputedTransactions <= totalTransactions
    }

    /** `TrustScore::new`, at clock reading `now`. */
    constructor (userId: Uuid, now: int)
      ensures this.userId == userId && score == 50.0
      ensures totalTransactions == 0 && successfulTransactions == 0 && disputedTransactions == 0
      ensures totalAmount == 0.0 && avgTransactionTime == 0
      ensures lastActivity == now && createdAt == now
      ensures penalties == [] && bonuses == []
      ensures Valid()
    {
      this.userId := userId;
      score := 50.0;
      totalTransactions := 0;
      successfulTransactions := 0;
      disputedTransactions := 0;
      totalAmount := 0.0;
      avgTransactionTime := 0;
      lastActivity := now;
      createdAt := now;
      penalties := [];
      bonuses := [];
    }

    /** `update_after_transaction`. `amountLog10` stands for
        `total_amount.ln() / 10.ln()` of the updated total, which the model does not
        compute. */
    method UpdateAfterTransaction(amount: real, wasSuccessful: bool, hadDispute: bool,
                                  transactionTimeSeconds: int, now: int, amountLog10: real)
      modifies this
      ensures totalTransactions == old(totalTransactions) + 1
      ensures successfulTransactions == old(successfulTransactions) + (if wasSuccessful then 1 else 0)
      ensures disputedTransactions == old(disputedTransactions) + (if hadDispute then 1 else 0)
      ensures totalAmount == old(totalAmount) + amount && lastActivity == now
      ensures avgTransactionTime == MovingAverage(old(avgTransactionTime), totalTransactions, transactionTimeSeconds)
      ensures old(totalTransactions) == 0 ==> avgTransactionTime == transactionTimeSeconds
      ensures penalties == old(penalties) && bonuses == old(bonuses)
      ensures score == CalculateTrustScore(this, now, amountLog10)
      ensures 0.0 <= score <= 100.0 && IsTenth(score)
      ensures old(Valid()) ==> Valid()
    {
      var count := totalTransactions + 1;
      var average := MovingAverage(avgTransactionTime, count, transactionTimeSeconds);
      var successes := successfulTransactions + (if wasSuccessful then 1 else 0);
      var disputes := disputedTransactions + (if hadDispute then 1 else 0);
      var newScore := ScoreFor(count, successes, disputes, average, now, penalties, bonuses, now, amountLog10);
      totalTransactions, successfulTransactions, disputedTransactions := count, successes, disputes;
      totalAmount, lastActivity, avgTransactionTime := totalAmount + amount, now, average;
      score := newScore;
    }

    /** `add_penalty`: records one penalty valid for `daysValid` days and lowers the
        score by its points, never below 0. */
    method AddPenalty(reason: string, points: real, daysValid: int, now: int)
      modifies this
      ensures penalties == old(penalties) + [Penalty(reason, points, now, now + daysValid * SecondsPerDay)]
      ensures score == Max(old(score) - points, 0.0)
      ensures score >= 0.0
      ensures points >= 0.0 && old(score) >= 0.0 ==> score <= old(score)
      ensures old(score) <= 100.0 && points >= 0.0 ==> score <= 100.0
      ensures totalTransactions == old(totalTransactions) && successfulTransactions == old(successfulTransactions)
      ensures disputedTransactions == old(disputedTransactions) && totalAmount == old(totalAmount)
      ensures avgTransactionTime == old(avgTransactionTime) && lastActivity == old(lastActivity)
      ensures bonuses == old(bonuses)
    {
      var penalty := Penalty(reason, points, now, now + daysValid * SecondsPerDay);
      penalties := penalties + [penalty];
      score := score - points;
      score := Max(score, 0.0);
    }

    /** `add_bonus`: records one bonus and raises the score by its points, never
        above 100. */
    method AddBonus(reason: string, points: real, now: int)
      modifies this
      ensures bonuses == old(bonuses) + [Bonus(reason, points, now)]
      ensures score == Min(old(score) + points, 100.0)
      ensures score <= 100.0
      ensures points >= 0.0 && old(score) <= 100.0 ==> score >= old(score)
      ensures old(score) >= 0.0 && points >= 0.0 ==> score >= 0.0
      ensures totalTransactions == old(totalTransactions) && successfulTransactions == old(successfulTransactions)
      ensures disputedTransactions == old(disputedTransactions) && totalAmount == old(totalAmount)
      ensures avgTransactionTime == old(avgTransactionTime) && lastActivity == old(lastActivity)
      ensures penalties == old(penalties)
    {
      var bonus := Bonus(reason, points, now);
      bonuses := bonuses + [bonus];
      score := score + points;
      score := Min(score, 100.0);
    }
  }

  /** The settlement-time moving average after the `count`-th transaction took
      `t` seconds: the first sets it, later ones fold in with truncating division. */
  function MovingAverage(avg: int, count: nat, t: int): (r: int)
    requires count >= 1
    ensures avg == t ==> r == t
  {
    if count == 1 then t
    else
      TruncDivOfMultiple(avg, count);
      assert avg == t ==> avg * (count - 1) + t == avg * count;
      TruncDiv(avg * (count - 1) + t, count)
  }

  lemma CancelPositiveFactor(a: int, b: int, k: int)
    requires k > 0 && a * k <= b * k
    ensures a <= b
  {
  }

  lemma CancelPositiveFactorStrict(a: int, b: int, k: int)
    requires k > 0 && a * k < b * k
    ensures a < b
  {
  }

  lemma ScaleBounds(lo: int, x: int, hi: int, k: int)
    requires lo <= x <= hi && k >= 0
    ensures lo * k <= x * k <= hi * k
  {
    assert (x - lo) * k >= 0;
    assert (hi - x) * k >= 0;
  }

  /** Truncating division by `k` keeps a value lying between `lo * k` and `hi * k`
      between `lo` and `hi`. */
  lemma TruncDivWithin(s: int, k: int, lo: int, hi: int)
    requires k > 0 && lo * k <= s <= hi * k
    ensures lo <= TruncDiv(s, k) <= hi
  {
    var q := TruncDiv(s, k);
    TruncDivBounds(s, k);
    if s >= 0 {
      CancelPositiveFactor(q, hi, k);
      assert (q + 1) * k == q * k + k;
      CancelPositiveFactorStrict(lo, q + 1, k);
    } else {
      CancelPositiveFactor(lo, q, k);
      assert (q - 1) * k == q * k - k;
      CancelPositiveFactorStrict(q - 1, hi, k);
    }
  }

  /** The moving average stays within the range of the settlement times folded into
      it, despite the truncation. */
  lemma MovingAverageWithinRange(avg: int, count: nat, t: int, lo: int, hi: int)
    requires count >= 1 && lo <= avg <= hi && lo <= t <= hi
    ensures lo <= MovingAverage(avg, count, t) <= hi
  {
    if count > 1 {
      ScaleBounds(lo, avg, hi, count - 1);
      assert lo * count == lo * (count - 1) + lo;
      assert hi * count == hi * (count - 1) + hi;
      TruncDivWithin(avg * (count - 1) + t, count, lo, hi);
    }
  }

  /** The weighted part of `calculate_trust_score` for a profile with `total > 0`
      transactions: success rate (weight 0.5), volume (0.2), recency (0.2) and speed
      (0.1), less two points per percent of disputed transactions. `amountLog10`
      stands for the base-10 logarithm of the total amount. With consistent counters
      and a non-negative age it never exceeds 100, so only bonuses can push the
      score against the upper clamp. */
  function WeightedScore(total: nat, successful: nat, disputed: nat, avgTime: int,
                         daysSinceActive: int, amountLog10: real): (r: real)
    requires total > 0
    ensures successful <= total && daysSinceActive >= 0 ==> r <= 100.0
  {
    var successRate := successful as real / total as real * 100.0;
    var disputeRate := disputed as real / total as real * 100.0;
    var volumeFactor := Min(amountLog10, 1.0) * 100.0;
    var recencyFactor := Max(if daysSinceActive <= 30 then 100.0 - daysSinceActive as real * 2.0 else 40.0, 0.0);
    var speedFactor :=
      if avgTime > 0 then Max(1.0 - avgTime as real / SecondsPerWeek, 0.0) * 100.0
      else 50.0;
    assert successful <= total ==> successRate <= 100.0 by {
      if successful <= total {
        assert successful as real / total as real <= 1.0;
      }
    }
    assert 0.0 <= disputeRate;
    successRate * 0.5 + volumeFactor * 0.2 + recencyFactor * 0.2 + speedFactor * 0.1
    - disputeRate * 2.0
  }

  /** `calculate_trust_score` over the fields it reads, with the clock reading `now`
      and the volume logarithm `amountLog10` as inputs: 50 for a profile with no
      transactions, otherwise the weighted score less the penalties still active at
      `now` plus every bonus, clamped to [0, 100] and rounded to one decimal. */
  function ScoreFor(total: nat, successful: nat, disputed: nat, avgTime: int, lastActivity: int,
                    penalties: seq<Penalty>, bonuses: seq<Bonus>, now: int, amountLog10: real): (r: real)
    ensures total == 0 ==> r == 50.0
    ensures 0.0 <= r <= 100.0 && IsTenth(r)
  {
    if total == 0 then
      assert 50.0 * 10.0 == 500 as real;
      50.0
    else
      var daysSinceActive := TruncDiv(now - lastActivity, SecondsPerDay);
      ClampAndRound(
        WeightedScore(total, successful, disputed, avgTime, daysSinceActive, amountLog10)
        - ActivePenaltyPoints(penalties, now)
        + BonusPoints(bonuses))
  }

  /** A profile whose counters are consistent, scored no earlier than its last
      activity, has a weighted score of at most 100 before its ledgers apply. */
  lemma ValidProfileWeightedAtMostHundred(ts: TrustScore, now: int, amountLog10: real)
    requires ts.Valid() && ts.totalTransactions > 0 && ts.lastActivity <= now
    ensures WeightedScore(ts.totalTransactions, ts.successfulTransactions, ts.disputedTransactions,
                          ts.avgTransactionTime, TruncDiv(now - ts.lastActivity, SecondsPerDay),
                          amountLog10) <= 100.0
  {
  }

  /** Recording a penalty that has already expired at `now` leaves the score as it
      was; recording one with non-negative points never raises it. */
  lemma PenaltyAppendEffect(total: nat, successful: nat, disputed: nat, avgTime: int, lastActivity: int,
                            penalties: seq<Penalty>, p: Penalty, bonuses: seq<Bonus>, now: int,
                            amountLog10: real)
    ensures p.expiresAt <= now ==>
      ScoreFor(total, successful, disputed, avgTime, lastActivity, penalties + [p], bonuses, now, amountLog10)
      == ScoreFor(total, successful, disputed, avgTime, lastActivity, penalties, bonuses, now, amountLog10)
    ensures p.points >= 0.0 ==>
      ScoreFor(total, successful, disputed, avgTime, lastActivity, penalties + [p], bonuses, now, amountLog10)
      <= ScoreFor(total, successful, disputed, avgTime, lastActivity, penalties, bonuses, now, amountLog10)
  {
    var w := penalties + [p];
    assert w[..|w| - 1] == penalties;
    if total > 0 {
      var base := WeightedScore(total, successful, disputed, avgTime,
                                TruncDiv(now - lastActivity, SecondsPerDay), amountLog10);
      var before := ActivePenaltyPoints(penalties, now);
      var after := ActivePenaltyPoints(w, now);
      if p.points >= 0.0 {
        assert before <= after;
        AdjustmentsMonotone(base, after, before, BonusPoints(bonuses), BonusPoints(bonuses));
      }
    }
  }

  /** `calculate_trust_score(&self)`: `ScoreFor` applied to the profile's fields. */
  function CalculateTrustScore(ts: TrustScore, now: int, amountLog10: real): (r: real)
    reads ts`totalTransactions, ts`successfulTransactions, ts`disputedTransactions
    reads ts`lastActivity, ts`avgTransactionTime, ts`penalties, ts`bonuses
    ensures ts.totalTransactions == 0 ==> r == 50.0
    ensures 0.0 <= r <= 100.0 && IsTenth(r)
  {
    ScoreFor(ts.totalTransactions, ts.successfulTransactions, ts.disputedTransactions,
             ts.avgTransactionTime, ts.lastActivity, ts.penalties, ts.bonuses, now, amountLog10)
  }

  /** Heavier active penalties never raise the final score and larger bonuses never
      lower it. */
  lemma AdjustmentsMonotone(weighted: real, penalty1: real, penalty2: real, bonus1: real, bonus2: real)
    requires penalty2 <= penalty1 && bonus1 <= bonus2
    ensures ClampAndRound(weighted - penalty1 + bonus1) <= ClampAndRound(weighted - penalty2 + bonus2)
  {
    ClampAndRoundMonotone(weighted - penalty1 + bonus1, weighted - penalty2 + bonus2);
  }
}

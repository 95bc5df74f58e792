# Spaza escrow: lifecycle and trust engine in Dafny

This project models the core of a small-shop payment holdback service. A buyer's
payment is held in an **escrow** until the buyer releases it to the seller with a
six-digit PIN. When the parties disagree, a panel of three **arbitrators** votes, and
a two-thirds quorum decides. A funded escrow whose deadline has passed can be
refunded automatically. Beside the escrow, a **trust engine** keeps per-user
statistics. From them it derives a score in [0, 100], a trust level, and a
recommended escrow duration. Finally there are two small helpers from the SMS
service: the carrier's display label and the phone-number mask used in logs.

Modules, one per source concern:

- `Base` — the abstract `Uuid` type, `Option`, the day length, truncating integer
  division and `Min`/`Max` on reals.
- `EscrowTypes` — the escrow record and its sub-records, the state names used in
  errors, and PIN generation from a random draw. `Escrow` is a class: the
  lifecycle fields are updated in place, and the fields no operation reassigns are
  `const`.
- `EscrowErrors` — the error enum and `Result`.
- `DisputeQuorum` — the quorum threshold, the vote tallies (one loop that counts
  both sides) and the scan for "already voted" (a second loop), plus the facts
  about ballots.
- `EscrowContract` — the six operations on an escrow. Each is a method that
  `modifies` the record. Each has the following contract:
  - the exact error for every way its guards can fail, in the source's order;
  - "unchanged on error";
  - the exact new state on success;
  - preservation of the lifecycle invariant `Consistent`.
- `EscrowScenarios` — whole runs of the lifecycle, proved from the operations'
  contracts alone.
- `TrustScoring` — the ledger-keeping trust profile: counters, the moving-average
  settlement time, the penalty and bonus ledgers, the level bands, the duration
  ladder and the weighted score.
- `UserTrust` — the simpler trust score kept on a user record.
- `SmsDisplay` — `mask_phone` and the carrier labels.

Conventions:

- The clock is an input `now: int`, in seconds. A duration of `d` days is
  `d * 86400`.
- Random values (the PIN draw, fresh UUIDs) are inputs.
- Decimal amounts and scores are exact `real`s.
- `Decimal::round` is taken as round-half-to-even. This is rust_decimal's default
  midpoint rule.

## Model

| member | source | states |
|---|---|---|
| EscrowTypes.StateName | src/types/escrow.rs:6-14 | a non-empty `{:?}` name for every state |
| EscrowTypes.StateNamesDistinct | src/escrow/contract.rs:12-15 | two states share a name in a transition error only if they are the same state |
| EscrowTypes.ZeroPadded | src/types/escrow.rs:89 | `{:0w}`: exactly `w` digits that read back as the number |
| EscrowTypes.LeadingZeroShortens | src/types/escrow.rs:89 | a digit string starting with `0` denotes a value with one digit fewer |
| EscrowTypes.GeneratePin | src/types/escrow.rs:86-90 | the PIN for a draw from `100000..999999` has six digits and no leading zero, reads back as the draw, and lies in [100000, 999998] |
| EscrowTypes.DistinctDrawsGiveDistinctPins | src/types/escrow.rs:86-90 | different draws give different PINs |
| EscrowTypes.Escrow.constructor | src/types/escrow.rs:57-84 | a new escrow is in state Created with no funding time, completion time or dispute; `expires_at` is `now` plus the days; a well-formed PIN; exactly three arbitrators; the seller is the parsed UUID or, failing that, the fresh one; amount, currency, buyer and description are stored unchanged |
| EscrowTypes.Escrow.IsExpired | src/types/escrow.rs:92-94 | an escrow is expired exactly when the clock reading is strictly past `expires_at` (its consequences are stated by `ExpiryBoundary`) |
| EscrowTypes.ExpiryBoundary | src/types/escrow.rs:92-94 | expiry is strict (not yet expired at the deadline itself) and, once reached, permanent |
| EscrowContract.CreatedIsConsistent | src/types/escrow.rs:75-82 | a freshly created escrow satisfies the lifecycle invariant |
| EscrowContract.FundEscrow | src/escrow/contract.rs:10-28 | succeeds iff the state is Created and the amount is at least the escrowed amount (overpayment accepted); otherwise `InvalidStateTransition(state, "Funded")`, then `InsufficientFunds(required, provided)`; leaves the record unchanged on error; on success the state is Funded and `funded_at = now`; preserves the invariant |
| EscrowContract.ReleaseToSeller | src/escrow/contract.rs:30-55 | guards in order: state Funded, not expired, caller is the buyer, PIN matches, each with its own error; leaves the record unchanged on error; success sets Completed and `completed_at = now`, and consumes the PIN, so a replay fails on the state; preserves the invariant |
| EscrowContract.RaiseDispute | src/escrow/contract.rs:57-79 | only from Funded and only by the buyer or the seller (else `Unauthorized`); success sets InDispute and attaches an open dispute raised by the caller at `now`, with no ballots and no decision; preserves the invariant |
| EscrowContract.VoteOnDispute | src/escrow/contract.rs:81-132 | rejects, in order: a state other than InDispute; a non-member (`NotArbitrator`); a missing dispute; a second ballot (`ValidationError("Already voted")`), each leaving the record unchanged. Otherwise it appends exactly one ballot. Reaching the quorum for release completes the escrow (decision, `resolved_at` and `completed_at` set; PIN untouched). Otherwise reaching it for refund refunds the escrow. Otherwise the dispute stays open with no decision. Preserves the invariant, including "every voter is a panel member, none twice" |
| EscrowContract.CancelEscrow | src/escrow/contract.rs:134-148 | cancels exactly a Created escrow and only for its buyer; errors in source order; unchanged on error |
| EscrowContract.AutoRefundIfExpired | src/escrow/contract.rs:150-157 | never an error; refunds and answers true exactly when the escrow is Funded and expired, otherwise leaves it untouched and answers false |
| DisputeQuorum.NeededForMajority | src/escrow/contract.rs:118 | `(2n+2)/3` is the ceiling of 2n/3: the least `k` with `3k >= 2n` |
| DisputeQuorum.ThresholdExamples | src/escrow/contract.rs:118 | the threshold is 1, 2, 3, 4 for panels of 1, 3, 4, 5; for 5 it differs from `n/2+1` |
| DisputeQuorum.QuorumExceedsHalf | src/escrow/contract.rs:118 | for a non-empty panel the quorum is a strict majority and at least one vote |
| DisputeQuorum.CountVotes | src/escrow/contract.rs:114-115 | the tally for one side never exceeds the number of ballots |
| DisputeQuorum.CountAfterAppend | src/escrow/contract.rs:106-115 | a new ballot adds one to its own side and nothing to the other |
| DisputeQuorum.CountsPartition | src/escrow/contract.rs:114-115 | the two tallies add up to the number of ballots |
| DisputeQuorum.ValidVotersAppend | src/escrow/contract.rs:94-110 | accepting a ballot from a member who has not voted keeps "members only, one ballot each" |
| DisputeQuorum.VotersBounded | src/escrow/contract.rs:94-110 | valid ballots are no more numerous than the panel |
| DisputeQuorum.QuorumIsExclusive | src/escrow/contract.rs:120-129 | both sides can never hold the quorum together, so testing release first never overrides a refund majority |
| DisputeQuorum.FullPanelOfThreeDecides | src/escrow/contract.rs:113-129 | with three arbitrators, three ballots always settle the dispute |
| DisputeQuorum.FourPanelCanDeadlock | src/escrow/contract.rs:113-129 | with four arbitrators, a 2–2 split leaves both sides below the quorum of 3 |
| DisputeQuorum.TallyVotes | src/escrow/contract.rs:113-115 | the two counting passes return the tallies of each side, summing to the number of ballots |
| DisputeQuorum.AnyVoteBy | src/escrow/contract.rs:102 | the scan answers true iff some ballot is by that arbitrator |
| EscrowScenarios.PinReleaseScenario | src/escrow/contract.rs:30-55 | full funding succeeds; a wrong PIN gives `InvalidPin` and leaves the escrow Funded; the right PIN completes it and clears the PIN; replaying the PIN gives `InvalidStateTransition("Completed", "Completed")` |
| EscrowScenarios.FundingScenario | src/escrow/contract.rs:10-28 | partial funding reports both amounts; overpayment funds the escrow at its own time; funding twice is a state error |
| EscrowScenarios.DisputeScenario | src/escrow/contract.rs:57-132 | one release ballot leaves the dispute open; a repeat is rejected as already voted; the second release ballot completes the escrow with `ReleaseToSeller`; a third ballot is a state error; the PIN stays in place |
| EscrowScenarios.ExpiryScenario | src/escrow/contract.rs:150-157 | no refund at the deadline; refund one second later; release afterwards is a state error |
| EscrowScenarios.CancelScenario | src/escrow/contract.rs:134-148 | the seller cannot cancel; the buyer can; a cancelled escrow cannot be funded |
| Base.TruncDiv | src/trust/scoring.rs:89-91 | `i64` division rounds toward zero: the quotient never has the opposite sign to the dividend, and never a larger magnitude |
| Base.TruncDivBounds | src/trust/scoring.rs:89-91 | `i64` division truncates toward zero: the quotient times the divisor never passes the dividend |
| TrustScoring.TrustLevelFor | src/trust/scoring.rs:124-133 | the level is the band whose floor the score has reached and no higher floor it has reached |
| TrustScoring.TrustLevelMonotone | src/trust/scoring.rs:124-133 | the level never drops as the score rises |
| TrustScoring.TrustLevelBoundaries | src/trust/scoring.rs:124-133 | each band's lower bound is inclusive (30 is Bronze, 96 is Trusted) |
| TrustScoring.DurationForLevel | src/trust/scoring.rs:135-145 | every rung of the ladder is between 1 and 60 days |
| TrustScoring.DurationStrictlyDecreasing | src/trust/scoring.rs:135-145 | a higher level always means a strictly shorter duration |
| TrustScoring.RecommendedEscrowDuration | src/trust/scoring.rs:135-145 | 60 days below 30, 1 day from 96 up, always within [1, 60] |
| TrustScoring.DurationNonIncreasing | src/trust/scoring.rs:135-145 | the duration never grows as the score rises |
| TrustScoring.ActivePenalties | src/trust/scoring.rs:205-207 | the filtered ledger holds exactly the penalties that expire after `now`, each as many times as in the ledger, and no others |
| TrustScoring.PenaltyAppendContribution | src/trust/scoring.rs:205-209 | a penalty appended to the ledger adds its points to the filtered sum iff it has not expired |
| TrustScoring.ActivePenaltyPoints | src/trust/scoring.rs:204-211 | with non-negative points, the active total lies between 0 and the total of the whole ledger |
| TrustScoring.ActivePenaltyPointsIsFilteredSum | src/trust/scoring.rs:205-209 | the score's penalty total is the sum of the filtered ledger |
| TrustScoring.PenaltiesFadeOverTime | src/trust/scoring.rs:204-211 | with non-negative points, the active penalty total only shrinks as time passes |
| TrustScoring.ExpiredPenaltiesWeighNothing | src/trust/scoring.rs:204-211 | once every penalty has expired, none is subtracted |
| TrustScoring.BonusPoints | src/trust/scoring.rs:213-219 | bonuses never expire: every bonus counts, and non-negative bonuses add up to a non-negative total |
| TrustScoring.RoundHalfEven | src/trust/scoring.rs:223 | the rounded integer is within one half of the value and is its floor or the next integer |
| TrustScoring.RoundHalfEvenMonotone | src/trust/scoring.rs:223 | rounding preserves order |
| TrustScoring.RoundToTenth | src/trust/scoring.rs:223 | the result has one decimal place and is within 0.05 of the value |
| TrustScoring.ClampAndRound | src/trust/scoring.rs:221-223 | the final score lies in [0, 100] with one decimal place; 0 at or below 0 and 100 at or above 100; within 0.05 of the value in between |
| TrustScoring.ClampAndRoundMonotone | src/trust/scoring.rs:221-223 | clamping and rounding preserve order |
| TrustScoring.TrustScore.constructor | src/trust/scoring.rs:49-64 | a new profile scores 50, with every counter, the total amount and the average time 0, and empty ledgers |
| TrustScoring.TrustScore.UpdateAfterTransaction | src/trust/scoring.rs:66-96 | one more transaction; one more success iff successful; one more dispute iff disputed; the amount added; the moving average updated (the first transaction sets it); then the score recomputed, so it lies in [0, 100] with one decimal |
| TrustScoring.TrustScore.AddPenalty | src/trust/scoring.rs:98-110 | appends exactly one penalty expiring `days` days from now; the score becomes `max(score - points, 0)`, so it is never negative; everything else unchanged |
| TrustScoring.TrustScore.AddBonus | src/trust/scoring.rs:112-122 | appends exactly one bonus; the score becomes `min(score + points, 100)`, so it never exceeds 100; everything else unchanged |
| TrustScoring.MovingAverage | src/trust/scoring.rs:85-92 | a settlement time equal to the current average leaves the average unchanged, the truncation notwithstanding |
| TrustScoring.TruncDivWithin | src/trust/scoring.rs:89-91 | truncating division by `k` keeps a value between `lo*k` and `hi*k` within [lo, hi] |
| TrustScoring.MovingAverageWithinRange | src/trust/scoring.rs:85-92 | despite truncation, the moving average stays within the range of the settlement times folded into it |
| TrustScoring.WeightedScore | src/trust/scoring.rs:154-201 | with consistent counters and a non-negative age, the weighted score before ledger entries is at most 100 |
| TrustScoring.ScoreFor | src/trust/scoring.rs:149-224 | exactly 50 with no transactions; otherwise in [0, 100] with one decimal place |
| TrustScoring.CalculateTrustScore | src/trust/scoring.rs:149-224 | the score read off a profile's fields: 50 with no transactions, otherwise in [0, 100] with one decimal place |
| TrustScoring.ValidProfileWeightedAtMostHundred | src/trust/scoring.rs:154-201 | for a profile whose counters never exceed its transactions, scored no earlier than its last activity, the weighted score is at most 100 |
| TrustScoring.PenaltyAppendEffect | src/trust/scoring.rs:203-223 | recording a penalty that has already expired leaves the recomputed score unchanged; recording one with non-negative points never raises it |
| TrustScoring.AdjustmentsMonotone | src/trust/scoring.rs:203-223 | larger active penalties never raise the score and larger bonuses never lower it |
| UserTrust.SuccessScore | src/types/user.rs:56-62 | with consistent counters the score lies in [10, 100]; 100 for an all-success history, 10 for no success |
| UserTrust.DisputeRate | src/types/user.rs:64-65 | the dispute rate lies in [0, 1] and adds up to 1 with the success fraction |
| UserTrust.SuccessFractionFromScore | src/types/user.rs:58-62 | the clamp never binds: `(score - 10) / 90` gives back `successful / total` |
| UserTrust.ScoreAndRateAgree | src/types/user.rs:56-65 | `score = 100 - 90 · dispute_rate` |
| UserTrust.SuccessScoreMonotone | src/types/user.rs:58-62 | more successes over the same total never lower the score |
| UserTrust.LostDisputeLowersScore | src/types/user.rs:48-62 | a transaction without a success never raises the score |
| UserTrust.TrustScore.constructor | src/types/user.rs:32-40 | a new score is 50, both counters 0 and the dispute rate 0 |
| UserTrust.TrustScore.Recalculate | src/types/user.rs:56-68 | with a transaction, score and rate are recomputed from the counters, with no underflow in `total - successful`; with none they are kept; the timestamp is refreshed |
| UserTrust.TrustScore.UpdateAfterSuccess | src/types/user.rs:42-46 | both counters grow by exactly one; score and rate then follow the counters, whatever the record held before; `successful <= total` is kept |
| UserTrust.TrustScore.UpdateAfterDispute | src/types/user.rs:48-54 | the total grows by one and the successes by one iff the dispute was won; score and rate then follow the counters; a lost dispute never raises a score that already followed them |
| UserTrust.SuccessThenLostDispute | src/types/user.rs:42-68 | one success then one lost dispute: 100, then 55 with dispute rate 0.5 |
| SmsDisplay.CarrierLabel | src/api/simulator.rs:155-164 | each carrier has a fixed non-empty label, e.g. "Safaricom (M-Pesa)" and "Orange Money" |
| SmsDisplay.CarrierLabelsDistinct | src/api/simulator.rs:155-164 | different carriers have different labels |
| SmsDisplay.MaskPhone | src/api/simulator.rs:146-152 | a number longer than four characters masks to six asterisks and its last four characters (length 10); a shorter one masks to exactly `****` |
| SmsDisplay.MaskSeesOnlyLastFour | src/api/simulator.rs:146-152 | two long numbers with the same last four characters mask identically |
| SmsDisplay.MaskRevealsOnlySuffix | src/api/simulator.rs:146-152 | any character of the mask that is not an asterisk is one of the number's last four |

`UpdateAfterTransaction` states its results in terms of `CalculateTrustScore` and
`MovingAverage`.

## Left out

- Volume factor: `Decimal::ln` is transcendental. What `calculate_trust_score` uses is `total_amount.ln() / 10.ln()`, and that value is the input `amountLog10`. The model therefore does not capture that `ln` fails on a non-positive total amount.
- Clock: `Utc::now()` becomes the input `now`, and every clock reading within one call is that single input. `update_after_transaction` reads the clock three times: for `last_activity` (src/trust/scoring.rs:75), for the days since activity (174) and for penalty expiry (204); in the model the days since activity are therefore 0 there. `vote_on_dispute` reads it up to three times: for the ballot's `voted_at` (src/escrow/contract.rs:109), for `resolved_at` (122 or 127) and for `completed_at` (124); the model gives all three the same `now`.
- Days since activity: chrono's `num_days` is modelled as truncating division of the seconds by 86400.
- Randomness: `Uuid::new_v4` and `rand::thread_rng()` become inputs. So does the result of `Uuid::parse_str` on the seller text.
- Decimal precision: rust_decimal's 28-digit precision on division is not modelled, since scores are exact reals.
- Rounding mode: `round` is taken as half-to-even. Only nearest-integer and order facts are proved about it.
- Integer widths: the `u32` counters and `i64` times are unbounded. Their overflow is not modelled.
- UserTrust.TrustScore.UpdateAfterSuccess: requires `successful <= total` on entry, and nothing about the score or rate. The source does not check the counters; its `u32` subtraction in `recalculate` would underflow if the public fields were set so.
- UserTrust.TrustScore.UpdateAfterDispute: requires `successful <= total` on entry, as above. "A lost dispute never raises the score" is stated only for a record whose score and rate already followed its counters, since a deserialized record may hold any score.
- UserTrust.TrustScore.Recalculate: requires `successful <= total`, which is the condition for `total - successful` not to underflow.
- TrustScoring.TrustScore.AddPenalty: "the score never rises" is stated only for non-negative points and a non-negative old score, since `add_penalty` accepts any points.
- TrustScoring.TrustScore.AddBonus: "the score never falls" is stated only for non-negative points and an old score of at most 100, since `add_bonus` accepts any points.
- Getters: `get_trust_level` and `get_recommended_escrow_duration` are modelled as functions of the score they read (`TrustLevelFor`, `RecommendedEscrowDuration`), not as class members.
- Byte length: `mask_phone` measures and slices the phone number in bytes. The model works on characters, which gives the same result for ASCII phone numbers. A non-ASCII number, whose last four bytes need not end on a character boundary, is not modelled.
- Excluded code:
  - storage (`src/storage/memory.rs`, a lock-guarded map);
  - the command-line front end (`src/cli/commands.rs`);
  - orchestration and printing (`src/main.rs`);
  - SMS sending, simulation and logging in `src/api/simulator.rs`.
  
  All of it is I/O, concurrency or argument parsing. The trust manager used by `src/main.rs` (`trust/manager.rs`) is not part of this model.
- Error for a repeated vote: there is no `AlreadyVoted` variant. A repeated vote returns `ValidationError("Already voted")` (src/escrow/contract.rs:103). `DisputeAlreadyResolved` (src/escrow/errors.rs:31) is declared but never returned, since a vote on a settled dispute fails on its state.

/** The escrow state machine (`EscrowContract`). Every operation checks its guards
    in a fixed order, returns the first failing one as an error without touching the
    record, and otherwise updates the record in place. */
module EscrowContract {
  import opened Base
  import opened EscrowTypes
  import opened EscrowErrors
  import opened DisputeQuorum

  /** The lifecycle invariant of an escrow record:
      - the release PIN is absent exactly when the escrow was completed by PIN release
        (completed without a dispute), and a present PIN is well formed;
      - each state carries the timestamps and dispute record its transitions set;
      - a dispute's ballots come from distinct panel members, and its decision is
        recorded exactly when one side holds the quorum. */
  ghost predicate Consistent(e: Escrow)
    reads e
  {
    && |e.arbitrators| >= 1
    && (e.releasePin.Some? ==> IsReleasePin(e.releasePin.value))
    && (e.releasePin.None? <==> e.state == Completed && e.dispute.None?)
    && (e.state == Created ==> e.fundedAt.None? && e.completedAt.None? && e.dispute.None?)
    && (e.state == Cancelled ==> e.fundedAt.None? && e.completedAt.None? && e.dispute.None?)
    && (e.state == Funded ==> e.fundedAt.Some? && e.completedAt.None? && e.dispute.None?)
    && (e.state == InDispute ==> e.fundedAt.Some? && e.completedAt.None? && e.dispute.Some?)
    && (e.state == Completed ==> e.fundedAt.Some? && e.completedAt.Some?)
    && (e.state == Refunded ==> e.fundedAt.Some? && e.completedAt.None?)
    && (e.dispute.Some? ==> DisputeConsistent(e.dispute.value, e.state, e.arbitrators))
  }

  ghost predicate DisputeConsistent(d: DisputeResolution, state: EscrowState, arbitrators: seq<Uuid>)
  {
    var needed := NeededForMajority(|arbitrators|);
    && ValidVoters(d.votes, arbitrators)
    && (state == InDispute || state == Completed || state == Refunded)
    && (state == InDispute <==> d.decision.None?)
    && (d.decision.None? <==> d.resolvedAt.None?)
    && (state == Completed ==> d.decision == Some(DisputeDecision.ReleaseToSeller))
    && (state == Refunded ==> d.decision == Some(RefundToBuyer))
    && (d.decision.None? ==> CountVotes(d.votes, true) < needed && CountVotes(d.votes, false) < needed)
    && (d.decision == Some(DisputeDecision.ReleaseToSeller) ==> CountVotes(d.votes, true) >= needed && CountVotes(d.votes, false) < needed)
    && (d.decision == Some(RefundToBuyer) ==> CountVotes(d.votes, false) >= needed && CountVotes(d.votes, true) < needed)
  }

  /** A freshly created escrow satisfies the invariant. */
  lemma CreatedIsConsistent(e: Escrow)
    requires e.state == Created && |e.arbitrators| == 3
    requires e.fundedAt == None && e.completedAt == None && e.dispute == None
    requires e.releasePin.Some? && IsReleasePin(e.releasePin.value)
    ensures Consistent(e)
  {
  }

  /** `fund_escrow`: only from Created, and only with at least the escrowed amount
      (overpayment is accepted, partial funding rejected). */
  method FundEscrow(e: Escrow, amount: real, now: int) returns (r: Result<()>)
    modifies e
    ensures old(e.state) != Created ==> r == Err(InvalidStateTransition(StateName(old(e.state)), "Funded"))
    ensures old(e.state) == Created && amount < e.amount ==> r == Err(InsufficientFunds(e.amount, amount))
    ensures r.Ok? <==> old(e.state) == Created && amount >= e.amount
    ensures r.Err? ==> unchanged(e)
    ensures r.Ok? ==> && e.state == Funded && e.fundedAt == Some(now)
                      && e.completedAt == old(e.completedAt) && e.releasePin == old(e.releasePin)
                      && e.dispute == old(e.dispute)
    ensures old(Consistent(e)) ==> Consistent(e)
  {
    if e.state != Created {
      return Err(InvalidStateTransition(StateName(e.state), "Funded"));
    }
    if amount < e.amount {
      return Err(InsufficientFunds(e.amount, amount));
    }
    e.state := Funded;
    e.fundedAt := Some(now);
    r := Ok(());
  }

  /** `release_to_seller`: guards in order state Funded, not expired, caller is the
      buyer, PIN matches; success completes the escrow and consumes the PIN. */
  method ReleaseToSeller(e: Escrow, userId: Uuid, pin: string, now: int) returns (r: Result<()>)
    modifies e
    ensures old(e.state) != Funded ==> r == Err(InvalidStateTransition(StateName(old(e.state)), "Completed"))
    ensures old(e.state) == Funded && e.IsExpired(now) ==> r == Err(Expired)
    ensures old(e.state) == Funded && !e.IsExpired(now) && userId != e.buyerId ==> r == Err(Unauthorized(userId))
    ensures old(e.state) == Funded && !e.IsExpired(now) && userId == e.buyerId && old(e.releasePin) != Some(pin)
            ==> r == Err(InvalidPin)
    ensures r.Ok? <==> old(e.state) == Funded && !e.IsExpired(now) && userId == e.buyerId && old(e.releasePin) == Some(pin)
    ensures r.Err? ==> unchanged(e)
    ensures r.Ok? ==> && e.state == Completed && e.completedAt == Some(now) && e.releasePin == None
                      && e.fundedAt == old(e.fundedAt) && e.dispute == old(e.dispute)
    ensures old(Consistent(e)) ==> Consistent(e)
  {
    if e.state != Funded {
      return Err(InvalidStateTransition(StateName(e.state), "Completed"));
    }
    if e.IsExpired(now) {
      return Err(Expired);
    }
    if e.buyerId != userId {
      return Err(Unauthorized(userId));
    }
    if e.releasePin != Some(pin) {
      return Err(InvalidPin);
    }
    e.state := Completed;
    e.completedAt := Some(now);
    e.releasePin := None;
    r := Ok(());
  }

  /** `raise_dispute`: only from Funded and only by the buyer or the seller; attaches
      an open dispute with no ballots. */
  method RaiseDispute(e: Escrow, userId: Uuid, now: int) returns (r: Result<()>)
    modifies e
    ensures old(e.state) != Funded ==> r == Err(InvalidStateTransition(StateName(old(e.state)), "InDispute"))
    ensures old(e.state) == Funded && userId != e.buyerId && userId != e.sellerId ==> r == Err(Unauthorized(userId))
    ensures r.Ok? <==> old(e.state) == Funded && (userId == e.buyerId || userId == e.sellerId)
    ensures r.Err? ==> unchanged(e)
    ensures r.Ok? ==> && e.state == InDispute
                      && e.dispute == Some(DisputeResolution(userId, now, [], None, None))
                      && e.fundedAt == old(e.fundedAt) && e.completedAt == old(e.completedAt)
                      && e.releasePin == old(e.releasePin)
    ensures old(Consistent(e)) ==> Consistent(e)
  {
    if e.state != Funded {
      return Err(InvalidStateTransition(StateName(e.state), "InDispute"));
    }
    if e.buyerId != userId && e.sellerId != userId {
      return Err(Unauthorized(userId));
    }
    e.state := InDispute;
    e.dispute := Some(DisputeResolution(userId, now, [], None, None));
    r := Ok(());
  }

  /** `vote_on_dispute`: only while InDispute, only by a panel member, at most once
      per member. The accepted ballot is appended; if the release side then holds the
      quorum the escrow completes, else if the refund side does it is refunded,
      otherwise the dispute stays open. */
  method VoteOnDispute(e: Escrow, arbitratorId: Uuid, vote: bool, now: int) returns (r: Result<()>)
    modifies e
    ensures old(e.state) != InDispute ==> r == Err(InvalidStateTransition(StateName(old(e.state)), "InDispute"))
    ensures old(e.state) == InDispute && arbitratorId !in e.arbitrators ==> r == Err(NotArbitrator)
    ensures old(e.state) == InDispute && arbitratorId in e.arbitrators && old(e.dispute).None?
            ==> r == Err(ValidationError("No dispute found"))
    ensures old(e.state) == InDispute && arbitratorId in e.arbitrators && old(e.dispute).Some?
            && HasVoted(old(e.dispute).value.votes, arbitratorId)
            ==> r == Err(ValidationError("Already voted"))
    ensures r.Ok? <==> && old(e.state) == InDispute && arbitratorId in e.arbitrators && old(e.dispute).Some?
                       && !HasVoted(old(e.dispute).value.votes, arbitratorId)
    ensures r.Err? ==> unchanged(e)
    ensures r.Ok? ==>
      var before := old(e.dispute).value;
      var votes := before.votes + [Vote(arbitratorId, vote, now)];
      var needed := NeededForMajority(|e.arbitrators|);
      && e.fundedAt == old(e.fundedAt) && e.releasePin == old(e.releasePin)
      && (if CountVotes(votes, true) >= needed then
            && e.dispute == Some(before.(votes := votes, resolvedAt := Some(now), decision := Some(DisputeDecision.ReleaseToSeller)))
            && e.state == Completed && e.completedAt == Some(now)
          else if CountVotes(votes, false) >= needed then
            && e.dispute == Some(before.(votes := votes, resolvedAt := Some(now), decision := Some(RefundToBuyer)))
            && e.state == Refunded && e.completedAt == old(e.completedAt)
          else
            && e.dispute == Some(before.(votes := votes))
            && e.state == InDispute && e.completedAt == old(e.completedAt))
    ensures old(Consistent(e)) ==> Consistent(e)
  {
    if e.state != InDispute {
      return Err(InvalidStateTransition(StateName(e.state), "InDispute"));
    }
    if arbitratorId !in e.arbitrators {
      return Err(NotArbitrator);
    }
    if e.dispute.None? {
      return Err(ValidationError("No dispute found"));
    }
    var d := e.dispute.value;
    var already := AnyVoteBy(d.votes, arbitratorId);
    if already {
      return Err(ValidationError("Already voted"));
    }
    ghost var before := d;
    d := d.(votes := d.votes + [Vote(arbitratorId, vote, now)]);
    var totalArbitrators := |e.arbitrators|;
    var votesForRelease, votesForRefund := TallyVotes(d.votes);
    var needed := NeededForMajority(totalArbitrators);
    if votesForRelease >= needed {
      d := d.(decision := Some(DisputeDecision.ReleaseToSeller), resolvedAt := Some(now));
      e.state := Completed;
      e.completedAt := Some(now);
    } else if votesForRefund >= needed {
      d := d.(decision := Some(RefundToBuyer), resolvedAt := Some(now));
      e.state := Refunded;
    }
    e.dispute := Some(d);
    r := Ok(());
    if old(Consistent(e)) {
      AcceptedBallotKeepsDispute(before, e.arbitrators, Vote(arbitratorId, vote, now), now, d, e.state);
    }
  }

  /** An accepted ballot on an open, consistent dispute leaves a consistent dispute in
      whichever state the quorum check selects: completed when the release side holds
      the quorum, else refunded when the refund side does, else still open. */
  lemma AcceptedBallotKeepsDispute(before: DisputeResolution, arbitrators: seq<Uuid>, v: Vote, now: int,
                                   after: DisputeResolution, state: EscrowState)
    requires DisputeConsistent(before, InDispute, arbitrators)
    requires v.arbitratorId in arbitrators && !HasVoted(before.votes, v.arbitratorId)
    requires after.votes == before.votes + [v]
    requires CountVotes(after.votes, true) >= NeededForMajority(|arbitrators|)
             ==> state == Completed && after.decision == Some(DisputeDecision.ReleaseToSeller)
                 && after.resolvedAt == Some(now)
    requires CountVotes(after.votes, true) < NeededForMajority(|arbitrators|)
             && CountVotes(after.votes, false) >= NeededForMajority(|arbitrators|)
             ==> state == Refunded && after.decision == Some(RefundToBuyer) && after.resolvedAt == Some(now)
    requires CountVotes(after.votes, true) < NeededForMajority(|arbitrators|)
             && CountVotes(after.votes, false) < NeededForMajority(|arbitrators|)
             ==> state == InDispute && after.decision == before.decision && after.resolvedAt == before.resolvedAt
    ensures DisputeConsistent(after, state, arbitrators)
  {
    ValidVotersAppend(before.votes, arbitrators, v);
    CountAfterAppend(before.votes, v, true);
    CountAfterAppend(before.votes, v, false);
  }

  /** `cancel_escrow`: only from Created and only by the buyer. */
  method CancelEscrow(e: Escrow, userId: Uuid) returns (r: Result<()>)
    modifies e
    ensures old(e.state) != Created ==> r == Err(InvalidStateTransition(StateName(old(e.state)), "Cancelled"))
    ensures old(e.state) == Created && userId != e.buyerId ==> r == Err(Unauthorized(userId))
    ensures r.Ok? <==> old(e.state) == Created && userId == e.buyerId
    ensures r.Err? ==> unchanged(e)
    ensures r.Ok? ==> && e.state == Cancelled
                      && e.fundedAt == old(e.fundedAt) && e.completedAt == old(e.completedAt)
                      && e.releasePin == old(e.releasePin) && e.dispute == old(e.dispute)
    ensures old(Consistent(e)) ==> Consistent(e)
  {
    if e.state != Created {
      return Err(InvalidStateTransition(StateName(e.state), "Cancelled"));
    }
    if e.buyerId != userId {
      return Err(Unauthorized(userId));
    }
    e.state := Cancelled;
    r := Ok(());
  }

  /** `auto_refund_if_expired`: never an error; refunds exactly a Funded escrow whose
      deadline has passed and reports whether it did. */
  method AutoRefundIfExpired(e: Escrow, now: int) returns (r: Result<bool>)
    modifies e
    ensures r.Ok?
    ensures r.value <==> old(e.state) == Funded && e.IsExpired(now)
    ensures r.value ==> && e.state == Refunded
                        && e.fundedAt == old(e.fundedAt) && e.completedAt == old(e.completedAt)
                        && e.releasePin == old(e.releasePin) && e.dispute == old(e.dispute)
    ensures !r.value ==> unchanged(e)
    ensures old(Consistent(e)) ==> Consistent(e)
  {
    if e.state == Funded && e.IsExpired(now) {
      e.state := Refunded;
      r := Ok(true);
    } else {
      r := Ok(false);
    }
  }
}

/** End-to-end runs of the escrow lifecycle, proved from the operations' contracts
    alone: the PIN release path, the dispute path, expiry and cancellation. */
module EscrowScenarios {
  import opened Base
  import opened EscrowTypes
  import opened EscrowErrors
  import opened DisputeQuorum
  import opened EscrowContract

  /** Create (1500.00, 7 days), fund it in full, try a wrong PIN, release with the
      right one, then replay the same PIN: the wrong PIN leaves the escrow Funded and
      the replay fails on the state, not on the PIN, because the PIN was consumed. */
  method PinReleaseScenario(id: Uuid, buyer: Uuid, seller: Uuid,
                            arbitrator1: Uuid, arbitrator2: Uuid, arbitrator3: Uuid,
                            now: int, pinDraw: int, wrongPin: string)
    returns (funded: Result<()>, wrong: Result<()>, stateAfterWrong: EscrowState,
             released: Result<()>, replay: Result<()>, finalState: EscrowState,
             pinAfter: Option<string>)
    requires 100000 <= pinDraw < 999999
    requires wrongPin != GeneratePin(pinDraw)
    ensures funded.Ok?
    ensures wrong == Err(InvalidPin) && stateAfterWrong == Funded
    ensures released.Ok?
    ensures replay == Err(InvalidStateTransition("Completed", "Completed"))
    ensures finalState == Completed && pinAfter == None
  {
    var e := new Escrow(id, 1500.0, "ZAR", buyer, Some(seller), seller, "maize meal stock",
                        7, now, pinDraw, arbitrator1, arbitrator2, arbitrator3);
    CreatedIsConsistent(e);
    var pin := GeneratePin(pinDraw);
    funded := FundEscrow(e, 1500.0, now);
    wrong := EscrowContract.ReleaseToSeller(e, buyer, wrongPin, now + 60);
    stateAfterWrong := e.state;
    released := EscrowContract.ReleaseToSeller(e, buyer, pin, now + 120);
    replay := EscrowContract.ReleaseToSeller(e, buyer, pin, now + 180);
    finalState := e.state;
    pinAfter := e.releasePin;
    assert Consistent(e);
  }

  /** Partial funding is rejected with both amounts reported; overpayment funds it. */
  method FundingScenario(id: Uuid, buyer: Uuid, seller: Uuid,
                         arbitrator1: Uuid, arbitrator2: Uuid, arbitrator3: Uuid,
                         now: int, pinDraw: int)
    returns (partial: Result<()>, over: Result<()>, again: Result<()>, fundedAt: Option<int>)
    requires 100000 <= pinDraw < 999999
    ensures partial == Err(InsufficientFunds(1500.0, 1000.0))
    ensures over.Ok? && fundedAt == Some(now + 1)
    ensures again == Err(InvalidStateTransition("Funded", "Funded"))
  {
    var e := new Escrow(id, 1500.0, "ZAR", buyer, Some(seller), seller, "stock",
                        7, now, pinDraw, arbitrator1, arbitrator2, arbitrator3);
    partial := FundEscrow(e, 1000.0, now);
    over := FundEscrow(e, 2000.0, now + 1);
    again := FundEscrow(e, 1500.0, now + 2);
    fundedAt := e.fundedAt;
  }

  /** Fund, let the buyer raise a dispute, and have two of the three arbitrators vote
      for release: one vote leaves it open, the second settles it for the seller, the
      third arbitrator is then turned away, and the PIN is left in place. */
  method DisputeScenario(id: Uuid, buyer: Uuid, seller: Uuid,
                         arbitrator1: Uuid, arbitrator2: Uuid, arbitrator3: Uuid,
                         now: int, pinDraw: int)
    returns (raised: Result<()>, first: Result<()>, stateAfterFirst: EscrowState,
             repeat: Result<()>, second: Result<()>, finalState: EscrowState,
             decision: Option<DisputeDecision>, late: Result<()>, pinAfter: Option<string>)
    requires 100000 <= pinDraw < 999999
    requires arbitrator1 != arbitrator2 && arbitrator1 != arbitrator3 && arbitrator2 != arbitrator3
    ensures raised.Ok? && first.Ok? && stateAfterFirst == InDispute
    ensures repeat == Err(ValidationError("Already voted"))
    ensures second.Ok? && finalState == Completed
    ensures decision == Some(DisputeDecision.ReleaseToSeller)
    ensures late == Err(InvalidStateTransition("Completed", "InDispute"))
    ensures pinAfter == Some(GeneratePin(pinDraw))
  {
    var e := new Escrow(id, 1500.0, "ZAR", buyer, Some(seller), seller, "stock",
                        7, now, pinDraw, arbitrator1, arbitrator2, arbitrator3);
    var funded := FundEscrow(e, 1500.0, now);
    raised := RaiseDispute(e, buyer, now + 10);
    assert e.dispute == Some(DisputeResolution(buyer, now + 10, [], None, None));
    ghost var one := [Vote(arbitrator1, true, now + 20)];
    CountAfterAppend([], Vote(arbitrator1, true, now + 20), true);
    CountAfterAppend([], Vote(arbitrator1, true, now + 20), false);
    assert [] + [Vote(arbitrator1, true, now + 20)] == one;
    first := VoteOnDispute(e, arbitrator1, true, now + 20);
    stateAfterFirst := e.state;
    assert e.dispute.value.votes == one;
    assert HasVoted(one, arbitrator1);
    repeat := VoteOnDispute(e, arbitrator1, false, now + 25);
    assert !HasVoted(one, arbitrator2);
    CountAfterAppend(one, Vote(arbitrator2, true, now + 30), true);
    second := VoteOnDispute(e, arbitrator2, true, now + 30);
    finalState := e.state;
    decision := e.dispute.value.decision;
    late := VoteOnDispute(e, arbitrator3, false, now + 40);
    pinAfter := e.releasePin;
  }

  /** A funded escrow is not refunded at its deadline, is refunded one second after,
      and can then no longer be released. */
  method ExpiryScenario(id: Uuid, buyer: Uuid, seller: Uuid,
                        arbitrator1: Uuid, arbitrator2: Uuid, arbitrator3: Uuid,
                        now: int, pinDraw: int)
    returns (atDeadline: Result<bool>, afterDeadline: Result<bool>, finalState: EscrowState,
             release: Result<()>)
    requires 100000 <= pinDraw < 999999
    ensures atDeadline == Ok(false) && afterDeadline == Ok(true) && finalState == Refunded
    ensures release == Err(InvalidStateTransition("Refunded", "Completed"))
  {
    var e := new Escrow(id, 1500.0, "ZAR", buyer, Some(seller), seller, "stock",
                        7, now, pinDraw, arbitrator1, arbitrator2, arbitrator3);
    var funded := FundEscrow(e, 1500.0, now);
    var deadline := now + 7 * SecondsPerDay;
    atDeadline := AutoRefundIfExpired(e, deadline);
    afterDeadline := AutoRefundIfExpired(e, deadline + 1);
    finalState := e.state;
    release := EscrowContract.ReleaseToSeller(e, buyer, GeneratePin(pinDraw), deadline + 2);
  }

  /** Only the buyer may cancel, and a cancelled escrow can no longer be funded. */
  method CancelScenario(id: Uuid, buyer: Uuid, seller: Uuid,
                        arbitrator1: Uuid, arbitrator2: Uuid, arbitrator3: Uuid,
                        now: int, pinDraw: int)
    returns (bySeller: Result<()>, byBuyer: Result<()>, fund: Result<()>, finalState: EscrowState)
    requires 100000 <= pinDraw < 999999
    requires buyer != seller
    ensures bySeller == Err(Unauthorized(seller))
    ensures byBuyer.Ok? && finalState == Cancelled
    ensures fund == Err(InvalidStateTransition("Cancelled", "Funded"))
  {
    var e := new Escrow(id, 1500.0, "ZAR", buyer, Some(seller), seller, "stock",
                        7, now, pinDraw, arbitrator1, arbitrator2, arbitrator3);
    bySeller := CancelEscrow(e, seller);
    byBuyer := CancelEscrow(e, buyer);
    fund := FundEscrow(e, 1500.0, now);
    finalState := e.state;
  }
}

/** The arbitrators' vote tally and the two-thirds quorum that settles a dispute. */
module DisputeQuorum {
  import opened Base
  import opened EscrowTypes

  /** `(n * 2 + 2) / 3`: the number of concordant votes that settles a dispute
      before a panel of `n` arbitrators. It is the ceiling of 2n/3: the least
      `k` with `3k >= 2n`. */
  function NeededForMajority(arbitratorCount: nat): (k: nat)
    ensures 3 * k >= 2 * arbitratorCount
    ensures 3 * k < 2 * arbitratorCount + 3
  {
    (arbitratorCount * 2 + 2) / 3
  }

  /** The threshold for the reference panel of three and for larger panels; for
      five it differs from the naive `n / 2 + 1`. */
  lemma ThresholdExamples()
    ensures NeededForMajority(1) == 1
    ensures NeededForMajority(3) == 2
    ensures NeededForMajority(4) == 3
    ensures NeededForMajority(5) == 4 && 5 / 2 + 1 == 3
  {
  }

  /** For a non-empty panel the quorum is a strict majority of the panel. */
  lemma QuorumExceedsHalf(n: nat)
    requires n >= 1
    ensures 2 * NeededForMajority(n) > n
    ensures NeededForMajority(n) >= 1
  {
  }

  /** The number of ballots cast for `side` (true: release, false: refund). */
  function CountVotes(votes: seq<Vote>, side: bool): (c: nat)
    ensures c <= |votes|
  {
    if votes == [] then 0
    else CountVotes(votes[..|votes| - 1], side) + (if votes[|votes| - 1].vote == side then 1 else 0)
  }

  /** Appending one ballot adds one to its side's count and nothing to the other's. */
  lemma CountAfterAppend(votes: seq<Vote>, v: Vote, side: bool)
    ensures CountVotes(votes + [v], side) == CountVotes(votes, side) + (if v.vote == side then 1 else 0)
  {
    assert (votes + [v])[..|votes|] == votes;
  }

  /** Every ballot is on exactly one side. */
  lemma {:induction false} CountsPartition(votes: seq<Vote>)
    ensures CountVotes(votes, true) + CountVotes(votes, false) == |votes|
  {
    if votes != [] {
      CountsPartition(votes[..|votes| - 1]);
    }
  }

  /** Some ballot in the list was cast by this arbitrator. */
  predicate HasVoted(votes: seq<Vote>, arbitratorId: Uuid)
  {
    exists i :: 0 <= i < |votes| && votes[i].arbitratorId == arbitratorId
  }

  /** The ballots come from members of the panel, at most one per arbitrator. */
  ghost predicate ValidVoters(votes: seq<Vote>, arbitrators: seq<Uuid>)
  {
    && (forall i :: 0 <= i < |votes| ==> votes[i].arbitratorId in arbitrators)
    && (forall i, j :: 0 <= i < j < |votes| ==> votes[i].arbitratorId != votes[j].arbitratorId)
  }

  /** Accepting a ballot from a panel member who has not voted keeps the voters valid. */
  lemma ValidVotersAppend(votes: seq<Vote>, arbitrators: seq<Uuid>, v: Vote)
    requires ValidVoters(votes, arbitrators)
    requires v.arbitratorId in arbitrators && !HasVoted(votes, v.arbitratorId)
    ensures ValidVoters(votes + [v], arbitrators)
  {
    var w := votes + [v];
    forall i, j | 0 <= i < j < |w|
      ensures w[i].arbitratorId != w[j].arbitratorId
    {
      if j == |votes| {
        assert w[i] == votes[i];
      }
    }
  }

  function VoterIds(votes: seq<Vote>): set<Uuid>
  {
    if votes == [] then {} else VoterIds(votes[..|votes| - 1]) + {votes[|votes| - 1].arbitratorId}
  }

  function Elements(xs: seq<Uuid>): set<Uuid>
  {
    if xs == [] then {} else Elements(xs[..|xs| - 1]) + {xs[|xs| - 1]}
  }

  lemma {:induction false} VoterIdsAreVoters(votes: seq<Vote>, id: Uuid)
    ensures id in VoterIds(votes) <==> HasVoted(votes, id)
  {
    if votes != [] {
      var prefix := votes[..|votes| - 1];
      VoterIdsAreVoters(prefix, id);
      if HasVoted(votes, id) && id != votes[|votes| - 1].arbitratorId {
        var i :| 0 <= i < |votes| && votes[i].arbitratorId == id;
        assert prefix[i] == votes[i];
      }
    }
  }

  lemma {:induction false} ElementsAreMembers(xs: seq<Uuid>, x: Uuid)
    ensures x in Elements(xs) <==> x in xs
  {
    if xs != [] {
      ElementsAreMembers(xs[..|xs| - 1], x);
      assert xs == xs[..|xs| - 1] + [xs[|xs| - 1]];
    }
  }

  lemma {:induction false} ElementsBound(xs: seq<Uuid>)
    ensures |Elements(xs)| <= |xs|
  {
    if xs != [] {
      ElementsBound(xs[..|xs| - 1]);
    }
  }

  lemma {:induction false} DistinctVotersCounted(votes: seq<Vote>, arbitrators: seq<Uuid>)
    requires ValidVoters(votes, arbitrators)
    ensures |VoterIds(votes)| == |votes|
  {
    if votes != [] {
      var prefix := votes[..|votes| - 1];
      var last := votes[|votes| - 1];
      assert ValidVoters(prefix, arbitrators);
      DistinctVotersCounted(prefix, arbitrators);
      VoterIdsAreVoters(prefix, last.arbitratorId);
    }
  }

  /** A valid set of ballots is no larger than the panel. */
  lemma VotersBounded(votes: seq<Vote>, arbitrators: seq<Uuid>)
    requires ValidVoters(votes, arbitrators)
    ensures |votes| <= |arbitrators|
  {
    DistinctVotersCounted(votes, arbitrators);
    forall id | id in VoterIds(votes)
      ensures id in Elements(arbitrators)
    {
      VoterIdsAreVoters(votes, id);
      ElementsAreMembers(arbitrators, id);
    }
    SubsetCardinality(VoterIds(votes), Elements(arbitrators));
    ElementsBound(arbitrators);
  }

  lemma {:induction false} SubsetCardinality(a: set<Uuid>, b: set<Uuid>)
    requires a <= b
    ensures |a| <= |b|
  {
    if a != {} {
      var x :| x in a;
      SubsetCardinality(a - {x}, b - {x});
    }
  }

  /** Both sides can never reach the quorum together, so checking release before
      refund never decides a dispute that the refund side has also won. */
  lemma QuorumIsExclusive(votes: seq<Vote>, arbitrators: seq<Uuid>)
    requires ValidVoters(votes, arbitrators) && |arbitrators| >= 1
    ensures CountVotes(votes, true) < NeededForMajority(|arbitrators|)
         || CountVotes(votes, false) < NeededForMajority(|arbitrators|)
  {
    VotersBounded(votes, arbitrators);
    CountsPartition(votes);
    QuorumExceedsHalf(|arbitrators|);
  }

  /** With the reference panel of three, once every arbitrator has voted one side
      holds the quorum. */
  lemma FullPanelOfThreeDecides(votes: seq<Vote>)
    requires |votes| == 3
    ensures CountVotes(votes, true) >= NeededForMajority(3) || CountVotes(votes, false) >= NeededForMajority(3)
  {
    CountsPartition(votes);
  }

  /** A four-member panel can deadlock: two valid ballots on each side leave both
      below the quorum of three, so the dispute stays open with every vote cast. */
  lemma FourPanelCanDeadlock(a: Uuid, b: Uuid, c: Uuid, d: Uuid)
    requires a != b && a != c && a != d && b != c && b != d && c != d
    ensures var votes := [Vote(a, true, 0), Vote(b, true, 0), Vote(c, false, 0), Vote(d, false, 0)];
            && ValidVoters(votes, [a, b, c, d])
            && CountVotes(votes, true) < NeededForMajority(4)
            && CountVotes(votes, false) < NeededForMajority(4)
  {
    var one := [Vote(a, true, 0)];
    var two := one + [Vote(b, true, 0)];
    var three := two + [Vote(c, false, 0)];
    CountAfterAppend(one, Vote(b, true, 0), false);
    CountAfterAppend(two, Vote(c, false, 0), false);
    CountAfterAppend(three, Vote(d, false, 0), false);
    CountAfterAppend(one, Vote(b, true, 0), true);
    CountAfterAppend(two, Vote(c, false, 0), true);
    CountAfterAppend(three, Vote(d, false, 0), true);
    assert three + [Vote(d, false, 0)] == [Vote(a, true, 0), Vote(b, true, 0), Vote(c, false, 0), Vote(d, false, 0)];
  }

  /** One pass over the ballots that counts those for release and those for refund. */
  method TallyVotes(votes: seq<Vote>) returns (forRelease: nat, forRefund: nat)
    ensures forRelease == CountVotes(votes, true)
    ensures forRefund == CountVotes(votes, false)
    ensures forRelease + forRefund == |votes|
  {
    forRelease, forRefund := 0, 0;
    var i := 0;
    while i < |votes|
      invariant 0 <= i <= |votes|
      invariant forRelease == CountVotes(votes[..i], true)
      invariant forRefund == CountVotes(votes[..i], false)
    {
      assert votes[..i + 1] == votes[..i] + [votes[i]];
      CountAfterAppend(votes[..i], votes[i], true);
      CountAfterAppend(votes[..i], votes[i], false);
      if votes[i].vote {
        forRelease := forRelease + 1;
      } else {
        forRefund := forRefund + 1;
      }
      i := i + 1;
    }
    assert votes[..i] == votes;
    CountsPartition(votes);
  }

  /** The `any` scan for an earlier ballot by the same arbitrator. */
  method AnyVoteBy(votes: seq<Vote>, arbitratorId: Uuid) returns (found: bool)
    ensures found <==> HasVoted(votes, arbitratorId)
  {
    found := false;
    var i := 0;
    while i < |votes| && !found
      invariant 0 <= i <= |votes|
      invariant found <==> (i > 0 && votes[i - 1].arbitratorId == arbitratorId)
      invariant forall j :: 0 <= j < i - 1 ==> votes[j].arbitratorId != arbitratorId
      invariant !found ==> forall j :: 0 <= j < i ==> votes[j].arbitratorId != arbitratorId
    {
      found := votes[i].arbitratorId == arbitratorId;
      i := i + 1;
    }
  }
}

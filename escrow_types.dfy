/** The escrow record, its dispute sub-record and the six-digit release PIN. */
module EscrowTypes {
  import opened Base

  /** The six lifecycle states; Completed, Cancelled and Refunded are terminal. */
  datatype EscrowState = Created | Funded | Completed | Cancelled | InDispute | Refunded

  /** How a dispute was settled by the arbitrators. */
  datatype DisputeDecision = ReleaseToSeller | RefundToBuyer

  /** One arbitrator's ballot: `vote` is true for release to the seller, false for refund. */
  datatype Vote = Vote(arbitratorId: Uuid, vote: bool, votedAt: int)

  /** The dispute attached to an escrow; `votes` is kept in insertion order. */
  datatype DisputeResolution = DisputeResolution(
    raisedBy: Uuid,
    raisedAt: int,
    votes: seq<Vote>,
    resolvedAt: Option<int>,
    decision: Option<DisputeDecision>)

  /** The `{:?}` rendering of a state, as it appears in transition errors. */
  function StateName(s: EscrowState): (name: string)
    ensures |name| > 0
  {
    match s
    case Created => "Created"
    case Funded => "Funded"
    case Completed => "Completed"
    case Cancelled => "Cancelled"
    case InDispute => "InDispute"
    case Refunded => "Refunded"
  }

  /** Distinct states are reported under distinct names, so an error identifies the state. */
  lemma StateNamesDistinct(s: EscrowState, t: EscrowState)
    ensures StateName(s) == StateName(t) <==> s == t
  {
  }

  // ----- Decimal digit strings -----

  predicate IsDigit(c: char) { '0' <= c <= '9' }

  predicate AllDigits(s: string) { forall i :: 0 <= i < |s| ==> IsDigit(s[i]) }

  function DigitChar(d: int): (c: char)
    requires 0 <= d < 10
    ensures IsDigit(c) && c as int - '0' as int == d
  {
    ('0' as int + d) as char
  }

  /** The number a string of decimal digits denotes (most significant digit first). */
  function DecimalValue(s: string): nat
    requires AllDigits(s)
  {
    if s == [] then 0 else DecimalValue(s[..|s| - 1]) * 10 + (s[|s| - 1] as int - '0' as int)
  }

  function Pow10(k: nat): (p: nat)
    ensures p >= 1
  {
    if k == 0 then 1 else 10 * Pow10(k - 1)
  }

  /** `format!("{:0w}", n)` for an `n` of at most `width` digits: exactly `width`
      decimal digits, zero-padded on the left, denoting `n`. */
  function ZeroPadded(n: nat, width: nat): (s: string)
    requires n < Pow10(width)
    ensures |s| == width && AllDigits(s) && DecimalValue(s) == n
  {
    if width == 0 then
      []
    else
      var prefix := ZeroPadded(n / 10, width - 1);
      var s := prefix + [DigitChar(n % 10)];
      assert s[..|s| - 1] == prefix;
      s
  }

  /** A digit string that starts with '0' denotes a number with one digit fewer. */
  lemma {:induction false} LeadingZeroShortens(s: string)
    requires AllDigits(s) && |s| >= 1 && s[0] == '0'
    ensures DecimalValue(s) < Pow10(|s| - 1)
  {
    if |s| > 1 {
      var prefix := s[..|s| - 1];
      LeadingZeroShortens(prefix);
    }
  }

  /** A well-formed release PIN: six digits denoting a value the generator can draw. */
  predicate IsReleasePin(s: string)
  {
    |s| == 6 && AllDigits(s) && 100000 <= DecimalValue(s) <= 999998
  }

  /** The release PIN for a random draw from `100000..999999` (upper bound exclusive),
      formatted with `{:06}`: six digits, no leading zero, reading back as the draw. */
  function GeneratePin(draw: int): (pin: string)
    requires 100000 <= draw < 999999
    ensures IsReleasePin(pin) && DecimalValue(pin) == draw
    ensures pin[0] != '0'
  {
    var pin := ZeroPadded(draw, 6);
    assert pin[0] != '0' by {
      if pin[0] == '0' {
        LeadingZeroShortens(pin);
      }
    }
    pin
  }

  /** Two PINs drawn from different values differ. */
  lemma DistinctDrawsGiveDistinctPins(a: int, b: int)
    requires 100000 <= a < 999999 && 100000 <= b < 999999
    ensures GeneratePin(a) == GeneratePin(b) <==> a == b
  {
  }

  // ----- The escrow record -----

  /** `Escrow`: the fields the core never reassigns are constants; the lifecycle
      fields are updated in place by the contract operations. */
  class Escrow {
    const id: Uuid
    const amount: real
    const currency: string
    const buyerId: Uuid
    const sellerId: Uuid
    const description: string
    var state: EscrowState
    const createdAt: int
    const expiresAt: int
    var fundedAt: Option<int>
    var completedAt: Option<int>
    var releasePin: Option<string>
    const arbitrators: seq<Uuid>
    var dispute: Option<DisputeResolution>

    /** `Escrow::new`. The clock reading `now`, the PIN draw and the four fresh UUIDs
        are inputs; `parsedSeller` is the result of parsing the seller text as a UUID,
        and `fallbackSeller` the fresh UUID used when that parse fails. */
    constructor (id: Uuid, amount: real, currency: string, buyerId: Uuid,
                 parsedSeller: Option<Uuid>, fallbackSeller: Uuid, description: string,
                 daysToExpire: int, now: int, pinDraw: int,
                 arbitrator1: Uuid, arbitrator2: Uuid, arbitrator3: Uuid)
      requires 100000 <= pinDraw < 999999
      ensures this.id == id && this.amount == amount && this.currency == currency
      ensures this.buyerId == buyerId && this.description == description
      ensures this.sellerId == if parsedSeller.Some? then parsedSeller.value else fallbackSeller
      ensures state == Created
      ensures createdAt == now && expiresAt == now + daysToExpire * SecondsPerDay
      ensures fundedAt == None && completedAt == None && dispute == None
      ensures releasePin == Some(GeneratePin(pinDraw)) && IsReleasePin(releasePin.value)
      ensures arbitrators == [arbitrator1, arbitrator2, arbitrator3]
    {
      this.id := id;
      this.amount := amount;
      this.currency := currency;
      this.buyerId := buyerId;
      this.sellerId := if parsedSeller.Some? then parsedSeller.value else fallbackSeller;
      this.description := description;
      state := Created;
      createdAt := now;
      expiresAt := now + daysToExpire * SecondsPerDay;
      fundedAt := None;
      completedAt := None;
      releasePin := Some(GeneratePin(pinDraw));
      arbitrators := [arbitrator1, arbitrator2, arbitrator3];
      dispute := None;
    }

    /** `is_expired`: the deadline has strictly passed at time `now`. */
    predicate IsExpired(now: int)
    {
      now > expiresAt
    }
  }

  /** Expiry is strict (not yet expired at the deadline itself, expired one second
      later) and permanent (once expired, expired at every later time). */
  lemma ExpiryBoundary(e: Escrow, t: int, later: int)
    requires t <= later
    ensures !e.IsExpired(e.expiresAt) && e.IsExpired(e.expiresAt + 1)
    ensures e.IsExpired(t) ==> e.IsExpired(later)
  {
  }
}

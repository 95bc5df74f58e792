/** The two pure helpers of the SMS service: the carrier's display label and the
    privacy mask applied to phone numbers before they are logged. */
module SmsDisplay {

  /** The mobile-money carriers an SMS can be routed through. */
  datatype MobileCarrier = MTN | Vodacom | Airtel | Safaricom | Orange

  /** `impl Display for MobileCarrier`: the carrier's fixed label. */
  function CarrierLabel(c: MobileCarrier): (text: string)
    ensures |text| > 0
    ensures c == Safaricom ==> text == "Safaricom (M-Pesa)"
    ensures c == Orange ==> text == "Orange Money"
  {
    match c
    case MTN => "MTN"
    case Vodacom => "Vodacom"
    case Airtel => "Airtel"
    case Safaricom => "Safaricom (M-Pesa)"
    case Orange => "Orange Money"
  }

  /** Every carrier has its own label, so the label identifies the carrier. */
  lemma CarrierLabelsDistinct(c: MobileCarrier, d: MobileCarrier)
    ensures CarrierLabel(c) == CarrierLabel(d) <==> c == d
  {
  }

  /** `mask_phone`: a number longer than four characters shows only its last four,
      behind six asterisks; a shorter one is hidden completely. */
  function MaskPhone(phone: string): (masked: string)
    ensures |phone| > 4 ==> |masked| == 10 && masked[6..] == phone[|phone| - 4..]
    ensures |phone| > 4 ==> forall i :: 0 <= i < 6 ==> masked[i] == '*'
    ensures |phone| <= 4 ==> masked == "****"
  {
    if |phone| > 4 then "******" + phone[|phone| - 4..] else "****"
  }

  /** The mask depends on nothing but the last four characters: two long numbers
      that end alike mask alike, whatever precedes. */
  lemma MaskSeesOnlyLastFour(p: string, q: string)
    requires |p| > 4 && |q| > 4 && p[|p| - 4..] == q[|q| - 4..]
    ensures MaskPhone(p) == MaskPhone(q)
  {
    var mp, mq := MaskPhone(p), MaskPhone(q);
    assert mp == mp[..6] + mp[6..] && mq == mq[..6] + mq[6..];
    assert mp[..6] == mq[..6];
  }

  /** The mask reveals at most four characters of the number, and only ones it
      ends with: every character that is not an asterisk comes from the last four. */
  lemma MaskRevealsOnlySuffix(phone: string, i: int)
    requires 0 <= i < |MaskPhone(phone)| && MaskPhone(phone)[i] != '*'
    ensures |phone| > 4 && 6 <= i && MaskPhone(phone)[i] == phone[|phone| - 10 + i]
  {
    var m := MaskPhone(phone);
    if |phone| > 4 {
      assert m[i] == m[6..][i - 6];
    }
  }
}

/** `Bond::cashflows`: the payment on each schedule date. */
module CashflowGenerator {
  import opened Calendar
  import opened Schedule

  /** The par redemption paid with the last coupon. */
  const Redemption: real := 100.0

  /** `coupon / frequency`: one period's coupon, in percent of par. */
  function CouponPayment(coupon: real, frequency: real): real
    requires frequency != 0.0
  {
    coupon / frequency
  }

  /** One pair per curve date, in curve order: the date and one period's coupon, with
      the redemption added on the date equal to maturity. */
  function Cashflows(curve: seq<Date>, maturity: Date, coupon: real, frequency: real): (r: seq<(Date, real)>)
    requires frequency != 0.0
    ensures |r| == |curve|
    ensures forall i :: 0 <= i < |r| ==> r[i].0 == curve[i]
    ensures forall i :: 0 <= i < |r| ==> curve[i] != maturity ==> r[i].1 == CouponPayment(coupon, frequency)
    ensures forall i :: 0 <= i < |r| ==> curve[i] == maturity ==> r[i].1 == CouponPayment(coupon, frequency) + Redemption
  {
    if |curve| == 0 then []
    else
      var d := curve[0];
      var amount := if d == maturity then CouponPayment(coupon, frequency) + Redemption else CouponPayment(coupon, frequency);
      [(d, amount)] + Cashflows(curve[1..], maturity, coupon, frequency)
  }

  /** Sum of the amounts of a list of cashflows. */
  function TotalAmount(flows: seq<(Date, real)>): real {
    if |flows| == 0 then 0.0 else flows[0].1 + TotalAmount(flows[1..])
  }

  /** How many times `d` occurs in `s`. */
  function Occurrences(s: seq<Date>, d: Date): nat {
    if |s| == 0 then 0 else (if s[0] == d then 1 else 0) + Occurrences(s[1..], d)
  }

  /** All cash paid is one coupon per date plus one redemption per occurrence of the
      maturity date. */
  lemma {:induction false} TotalOfCashflows(curve: seq<Date>, maturity: Date, coupon: real, frequency: real)
    requires frequency != 0.0
    ensures TotalAmount(Cashflows(curve, maturity, coupon, frequency))
              == |curve| as real * CouponPayment(coupon, frequency) + Occurrences(curve, maturity) as real * Redemption
  {
    if 0 < |curve| {
      TotalOfCashflows(curve[1..], maturity, coupon, frequency);
      var flows := Cashflows(curve, maturity, coupon, frequency);
      assert flows[1..] == Cashflows(curve[1..], maturity, coupon, frequency);
    }
  }

  /** A strictly ascending sequence ending at `last` contains it exactly once. */
  lemma {:induction false} AscendingLastOccursOnce(s: seq<Date>)
    requires 0 < |s|
    requires forall i, j :: 0 <= i < j < |s| ==> Before(s[i], s[j])
    ensures Occurrences(s, s[|s| - 1]) == 1
  {
    if 1 < |s| {
      BeforeTrichotomy(s[0], s[|s| - 1]);
      AscendingLastOccursOnce(s[1..]);
    }
  }

  /** On a schedule, exactly one payment includes the redemption, the last one, and
      the total paid is one coupon per date plus 100. */
  lemma RedemptionPaidOnce(s: seq<Date>, maturity: Date, settlement: Date, step: nat, coupon: real, frequency: real)
    requires frequency != 0.0
    requires IsSchedule(s, maturity, settlement, step)
    ensures var flows := Cashflows(s, maturity, coupon, frequency);
            && flows[|s| - 1] == (maturity, CouponPayment(coupon, frequency) + Redemption)
            && (forall i :: 0 <= i < |s| - 1 ==> flows[i].1 == CouponPayment(coupon, frequency))
            && TotalAmount(flows) == |s| as real * CouponPayment(coupon, frequency) + Redemption
  {
    ScheduleAscending(s, maturity, settlement, step);
    forall i | 0 <= i < |s| - 1
      ensures s[i] != maturity
    {
      BeforeTrichotomy(s[i], maturity);
    }
    AscendingLastOccursOnce(s);
    TotalOfCashflows(s, maturity, coupon, frequency);
  }
}

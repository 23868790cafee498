/** `accrued_fraction` and `calculate_dirty_price`: how much of the current coupon
    period has run at settlement, and the price with that accrued coupon added. */
module Accrual {
  import opened Outcome
  import opened Calendar
  import opened Schedule
  import opened CashflowGenerator

  /** The day-count conventions of the `yearfrac` crate. */
  datatype DayCount = Nasd30360 | ActAct | Act360 | Act365 | Eur30360

  /** The previous coupon date inside `accrued_fraction`: the next coupon minus one
      period. The source panics when the subtraction fails; the precondition says so. */
  function PreviousCoupon(nextCoupon: Date, frequency: real): (r: Date)
    requires ValidDate(nextCoupon) && 1.0 <= frequency
    requires CheckedSubMonths(nextCoupon, StepMonths(frequency)).Some?
    ensures ValidDate(r)
    ensures MonthIndex(r) == MonthIndex(nextCoupon) - StepMonths(frequency)
    ensures r.day == Min(nextCoupon.day, DaysInMonth(r.year, r.month))
  {
    CheckedSubMonths(nextCoupon, StepMonths(frequency)).value
  }

  /** `accrued_fraction`: the year fraction from the previous coupon to settlement,
      scaled by the frequency so that a whole period counts as about 1. `yearfrac`
      stands for the external day-count crate. */
  function AccruedFraction(nextCoupon: Date, settlement: Date, frequency: real, dayCount: DayCount,
                           yearfrac: (DayCount, Date, Date) -> real): real
    requires ValidDate(nextCoupon) && 1.0 <= frequency
    requires CheckedSubMonths(nextCoupon, StepMonths(frequency)).Some?
  {
    yearfrac(dayCount, PreviousCoupon(nextCoupon, frequency), settlement) * frequency
  }

  /** On the first date of a built schedule, the previous coupon can always be formed,
      it is exactly the date at which the schedule builder stopped, and it falls on or
      before settlement; when maturity is after settlement, settlement lies in the
      current period [previous coupon, first coupon). */
  lemma PreviousCouponIsStopDate(s: seq<Date>, maturity: Date, settlement: Date, frequency: real)
    requires ValidDate(maturity) && ValidDate(settlement)
    requires CallableWith(maturity, settlement, frequency)
    requires BuildCurveDates(maturity, settlement, frequency) == Ok(s)
    ensures CheckedSubMonths(s[0], StepMonths(frequency)).Some?
    ensures StopsAt(s[0], settlement, StepMonths(frequency))
    ensures OnOrBefore(PreviousCoupon(s[0], frequency), settlement)
    ensures Before(settlement, maturity) ==> Before(settlement, s[0])
    ensures 1 <= StepMonths(frequency) ==> forall i :: 0 <= i < |s| ==> Before(PreviousCoupon(s[0], frequency), s[i])
  {
    ScheduleAfterSettlement(s, maturity, settlement, StepMonths(frequency));
  }

  /** On a built schedule the accrued fraction is the year fraction from the stop date
      to settlement times the frequency, and it is not negative for a day count that
      gives no negative fraction for ordered dates. */
  lemma AccruedFractionOfSchedule(s: seq<Date>, maturity: Date, settlement: Date, frequency: real,
                                  dayCount: DayCount, yearfrac: (DayCount, Date, Date) -> real)
    requires ValidDate(maturity) && ValidDate(settlement)
    requires CallableWith(maturity, settlement, frequency)
    requires BuildCurveDates(maturity, settlement, frequency) == Ok(s)
    requires forall a, b :: OnOrBefore(a, b) ==> 0.0 <= yearfrac(dayCount, a, b)
    ensures CheckedSubMonths(s[0], StepMonths(frequency)).Some?
    ensures 0.0 <= AccruedFraction(s[0], settlement, frequency, dayCount, yearfrac)
  {
    PreviousCouponIsStopDate(s, maturity, settlement, frequency);
  }

  /** `calculate_dirty_price`: the clean price plus the coupon accrued over the
      elapsed part of the period. Nothing accrued leaves the price as it is, a whole
      period adds exactly one coupon payment, and a part of a period adds at most one. */
  function DirtyPrice(accrued: real, coupon: real, price: real, frequency: real): (r: real)
    requires frequency != 0.0
    ensures accrued == 0.0 ==> r == price
    ensures accrued == 1.0 ==> r == price + CouponPayment(coupon, frequency)
    ensures 0.0 <= coupon && 0.0 < frequency && 0.0 <= accrued <= 1.0 ==>
              price <= r <= price + CouponPayment(coupon, frequency)
  {
    var c := coupon / frequency;
    assert 0.0 <= coupon && 0.0 < frequency && 0.0 <= accrued <= 1.0 ==> 0.0 <= c * accrued <= c by {
      if 0.0 <= coupon && 0.0 < frequency && 0.0 <= accrued <= 1.0 {
        NonNegativeProduct(c, accrued);
        NonNegativeProduct(c, 1.0 - accrued);
      }
    }
    price + c * accrued
  }

  lemma NonNegativeProduct(x: real, y: real)
    requires 0.0 <= x && 0.0 <= y
    ensures 0.0 <= x * y
  {
  }

  /** The dates of the dirty-price unit test: next coupon 2020-07-31, two coupons a
      year, so the previous coupon is 2020-01-31 and settlement 2020-02-20 lies in
      that period; with coupon 1.375 the dirty price adds 0.6875 per period accrued. */
  lemma DirtyPriceExample(accrued: real)
    ensures CheckedSubMonths(Date(2020, 7, 31), StepMonths(2.0)).Some?
    ensures PreviousCoupon(Date(2020, 7, 31), 2.0) == Date(2020, 1, 31)
    ensures Before(PreviousCoupon(Date(2020, 7, 31), 2.0), Date(2020, 2, 20))
    ensures DirtyPrice(accrued, 1.375, 99.8984, 2.0) == 99.8984 + 0.6875 * accrued
  {
    assert StepMonths(2.0) == 6;
  }
}

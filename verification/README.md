# bond-analyzer-rs: a Dafny model of the coupon schedule and its derivations

This project models the core of `bond-analyzer-rs`, a command-line tool that builds a
bond's coupon-date schedule and derives its cashflows, accrued interest and yield to
maturity. The model covers these parts of `src/bond.rs`:

- **Calendar arithmetic** (`calendar.dfy`, module `Calendar`). Proleptic Gregorian dates
  span the range of chrono's `NaiveDate`. The module gives the day before a date
  (`pred_opt`), `from_ymd_opt`, the month-length helper `ndays_in_month`, and chrono's
  `checked_sub_months`. That last one subtracts months and clamps the day to the length
  of the target month. The body follows the steps of earlier chrono releases. The
  contract states the result through a month index, `year * 12 + month - 1`, which is
  how later releases compute it; the two agree.
- **The schedule builder `build_curve_dates`** (`schedule.dfy`, module `Schedule`). The
  step is `12 / (frequency as u32)` months, where the cast truncates and saturates. The
  loop is a recursive function on the month index. The re-clamp step and its second
  error path are modelled literally. The module also gives an independent definition of a
  schedule (`IsSchedule`) and proves that the builder returns exactly that schedule.
- **Cashflows** (`cashflows.dfy`, module `CashflowGenerator`). Each date gets one coupon,
  `coupon / frequency`, and the maturity date also gets the redemption of 100.
- **Accrual** (`accrual.dfy`, module `Accrual`). This is the previous-coupon date inside
  `accrued_fraction`, the accrued fraction itself, and `calculate_dirty_price`.
- **The yield search `bisection_find`** (`bisection.dfy`, module `Bisection`). It works
  over `real`, and the present-value function is a parameter `pv`.
- **`Bond::new`** (`bond.dfy`, module `BondModel`). This is the fail-fast composition:
  parse the day count, build the schedule, compute the accrued fraction, then apply the
  clean-to-dirty price adjustment.

`outcome.dfy` holds `Option`, `Result` and the error kinds of `BondCalculatorError`.

Three things become parameters:
- the day-count parser `DayCountConvention::from_str`, as `parseDayCount`;
- the year fraction of the external `yearfrac` crate, as `yearfrac`;
- the present value as a function of the rate, as `pv`.

Panics in the source become preconditions:
- integer division by zero when `frequency as u32` is 0;
- `pred_opt` of `NaiveDate::MIN` inside `ndays_in_month`;
- the `unwrap_or_else` in `accrued_fraction`.

A month step of 0 (a frequency of 13 or more) makes the loop run forever unless maturity
is already on or before settlement. `CallableWith` states this condition.

Notes on the code as written:
- **Clamping is sticky.** The loop steps from chrono's already-clamped date. The
  re-clamp at `src/bond.rs:249-253` never changes a valid date (`ReclampDay`). So a
  31 August maturity with two coupons a year gives 28 February and then 28 August, not
  31 August (`ClampingIsSticky`). Month-end coupons do not stay at month end.
- **Maturity can be on or before settlement.** The builder does not reject this. The
  schedule is then `[maturity]`, so not every date is after settlement. Every date other
  than maturity always is.
- **`cashflow_curve.first()` is never empty.** Maturity is always pushed, so the
  `expect` in `Bond::new` cannot fail. The previous coupon in `accrued_fraction` always
  exists for a built schedule (`PreviousCouponIsStopDate`).
- **The YTM is recomputed on every call.** `analysis_table` re-solves it each time. The
  `Cell` holds no cached state that needs modelling.
- **The date bounds follow recent chrono.** `NaiveDate::MIN` is 1 January -262143 and
  `NaiveDate::MAX` is 31 December 262142. The chrono version is not pinned in the sources
  modelled. Only results at those extreme dates depend on these constants.

## Model

| member | source | states |
|---|---|---|
| Calendar.NDaysInMonth | src/bond.rs:170-181 | Month length: 31 for Jan, Mar, May, Jul, Aug, Oct, Dec; 30 for Apr, Jun, Sep, Nov; 29 or 28 for February by the Gregorian leap rule. December rolls over to January of the next year; month 0 gives 31; `None` exactly when the first of the next month is out of range or the month is above 12 |
| Calendar.PredOpt | src/bond.rs:176-179 | `pred_opt`: `None` only at `NaiveDate::MIN`; otherwise a valid earlier date, the same month one day back, or the last day of the previous month |
| Calendar.PredIsImmediate | src/bond.rs:176-179 | No valid date lies strictly between a date and its predecessor |
| Calendar.CheckedSubMonths | src/bond.rs:233-239 | `checked_sub_months`: 0 months returns the date; otherwise it succeeds exactly when the count fits `i32` and the target month is in range. The result is valid, exactly `months` months earlier, strictly earlier, and has the day clamped to min(day, target month length) |
| Schedule.FrequencyAsU32 | src/bond.rs:234 | `frequency as u32`: at least 1 exactly when frequency >= 1; truncates toward zero below `u32::MAX` |
| Schedule.StepMonthsTruncates | src/bond.rs:234 | The step `12 / (frequency as u32)` is at least 1 exactly for frequencies below 13; it is the integer quotient (step*k <= 12 < (step+1)*k); 2.0 and 2.5 give 6, 5.0 gives 2, 12.0 gives 1 |
| Schedule.ReclampDay | src/bond.rs:245-253 | The re-clamp only lowers the day. A day within the month length is kept. A day beyond it is lowered to the month length exactly when `ndays_in_month` has an answer, that is, before December of the last representable year. A valid date is left unchanged |
| Schedule.CurveLoopIsChain | src/bond.rs:232-258 | On success the loop pushes a chain: each date is the previous one minus the step, every pushed date is valid and after settlement, and one more step from the last date lands on or before settlement (that date is not pushed) |
| Schedule.CurveLoopFailsOnlyOnStep | src/bond.rs:233-255 | The loop fails only when a month subtraction fails, with `Date(y, m, d)` of the date it was stepping from: the start, or the last date of a chain of successful steps that all stay after settlement. The error after `from_ymd_opt` never occurs |
| Schedule.ChainIsCurveLoop | src/bond.rs:232-258 | Any such chain is exactly what the loop returns, so the loop's output is determined by the chain definition |
| Schedule.BuildCurveDates | src/bond.rs:223-262 | Success gives a schedule: non-empty, ending exactly at maturity, all dates valid, each the next minus the step, all but maturity after settlement, and the first date one step after a date on or before settlement. Failure carries the date whose subtraction failed: maturity, or the end of a chain of successful steps back from maturity that all stay after settlement |
| Schedule.BuildCurveDatesComplete | src/bond.rs:223-262 | Every sequence meeting the schedule definition is what `build_curve_dates` returns: the schedule is unique and failure means none exists |
| Schedule.ScheduleAscending | src/bond.rs:259-261 | A schedule is strictly ascending |
| Schedule.ScheduleAfterSettlement | src/bond.rs:241-243 | If maturity is after settlement, all dates are. With a step of at least a month, the date where stepping stopped is before every schedule date, so it is discarded |
| Schedule.GiltSchedule | src/bond.rs:292-307 | Maturity 2025-01-31, settlement 2023-05-03, frequency 2 gives [2023-07-31, 2024-01-31, 2024-07-31, 2025-01-31] |
| Schedule.ClampingIsSticky | src/bond.rs:233-257 | Maturity 2025-08-31, settlement 2024-01-01, frequency 2 gives [2024-02-28, 2024-08-28, 2025-02-28, 2025-08-31]: once clamped, the day stays clamped |
| CashflowGenerator.Cashflows | src/bond.rs:74-84 | One pair per curve date in the same order; each amount is `coupon/frequency`, plus 100 on the date equal to maturity |
| CashflowGenerator.TotalOfCashflows | src/bond.rs:74-84 | Total paid is one coupon per date plus 100 for each occurrence of the maturity date |
| CashflowGenerator.RedemptionPaidOnce | src/bond.rs:74-84 | On a schedule, only the last pair (maturity) includes the redemption; all others are exactly one coupon; the total is n coupons plus 100 |
| Accrual.PreviousCoupon | src/bond.rs:198-206 | The previous coupon is a valid date exactly one step of months before the next coupon, with chrono's clamped day, min(next coupon's day, length of its month) |
| Accrual.PreviousCouponIsStopDate | src/bond.rs:198-206 | For a built schedule the previous coupon of the first date always exists, is the date where stepping stopped, and falls on or before settlement; when maturity is after settlement, settlement lies in [previous coupon, first coupon) and the previous coupon is before every schedule date |
| Accrual.AccruedFractionOfSchedule | src/bond.rs:192-211 | On a built schedule the accrued fraction is defined (no panic) and is not negative for a day count that gives non-negative fractions on ordered dates |
| Accrual.DirtyPrice | src/bond.rs:213-221 | Dirty price equals the clean price when nothing has accrued and adds exactly one coupon `coupon/frequency` for a full period; for a non-negative coupon, positive frequency and accrued fraction in [0, 1], it lies between clean price and clean price plus one coupon |
| Accrual.DirtyPriceExample | src/bond.rs:268-283 | Next coupon 2020-07-31, frequency 2: the previous coupon is 2020-01-31, before settlement 2020-02-20; with coupon 1.375 and price 99.8984 the dirty price adds 0.6875 per accrued period |
| Bisection.BisectStep | src/bond.rs:107-120 | One step moves to [mid, high] when pv(mid) > price, else to [low, mid]. The new bracket lies within the old one, is exactly half as wide, and preserves pv(low) > price >= pv(high) |
| Bisection.BisectionFind | src/bond.rs:107-120 | Stops once the width is <= 1e-9. The result lies in the starting bracket. For strictly decreasing pv, every rate in the bracket where pv equals the price is within 0.5e-9 of the result |
| Bisection.NoBracketBelowStaysAtLow | src/bond.rs:107-120 | For non-increasing pv with pv(low) <= price, the search returns a value within 0.5e-9 above low: a boundary value is returned without complaint |
| Bisection.NoBracketAboveStaysAtHigh | src/bond.rs:107-120 | For non-increasing pv with price < pv(high), the search returns a value within 0.5e-9 below high |
| Bisection.YieldToMaturity | src/bond.rs:99-101 | The yield is searched in [0, 2]; the result lies in [0, 2], and for strictly decreasing pv it is within 0.5e-9 of any yield in [0, 2] that prices the bond exactly |
| BondModel.NewBond | src/bond.rs:36-72 | An unknown day-count tag fails with `Daycount(tag)` before anything else runs, whatever the frequency; the frequency constraints of `build_curve_dates` apply only once the tag parses. Otherwise it fails exactly when `build_curve_dates` fails, with a step-failure date. On success it copies coupon, frequency and dates and carries the schedule that `build_curve_dates` returned |
| BondModel.NewBondAccrual | src/bond.rs:45-59 | A constructed bond measures accrual from the date where the schedule stopped, which is on or before settlement, and its price is dirty exactly when the input price was clean |

## Left out

- Command-line parsing and defaults (`src/args.rs`, `src/lib.rs`, `src/main.rs`) are left out: this is I/O glue. That includes `Utc::now()` as the default settlement date and the exit codes. The model takes a validated `BondCli` record instead.
- The integration test in `tests/cli.rs` is left out: it runs the binary.
- Table rendering (`analysis_table`, `cashflows_table`) and `round_to_3dp` / `round_to_3dp_string` are left out: they are presentation and float formatting.
- `sum_pv`, `macaulay_duration`, `modified_duration` and `unaccrued_fraction` are left out: they use `powf` and f64 sums. The yield search takes the present value as a parameter `pv`, so the end-to-end YTM and duration figures are not modelled.
- `DayCountConvention::from_str` and `yearfrac` are left out: they belong to an external crate whose code is not available. They appear as the parameters `parseDayCount` and `yearfrac`.
- The `Cell<f64>` holding the YTM is left out: it only stores the last solve.
- Floats are modelled as `real`. Rounding in `/`, `*` and the bisection midpoint is not modelled, NaN and infinite frequencies are not modelled, and `frequency as u32` is modelled for finite values only.
- Calendar.NDaysInMonth: `year + 1` is unbounded here. For `year == i32::MAX` the source overflows: a debug build panics, and a release build wraps to a year out of range and returns `None`, as the model does.
- CashflowGenerator.Cashflows: requires a nonzero frequency. The source would divide by zero and get an infinite coupon; callers always have a frequency of at least 1.
- Accrual.DirtyPrice: requires a nonzero frequency, for the same reason.
- Accrual.AccruedFractionOfSchedule: it does not prove that the accrued fraction is below 1. That depends on the day-count convention, which is a parameter here.
- Accrual.AccruedFraction has no contract of its own. Its behaviour is stated by `Accrual.AccruedFractionOfSchedule` and `BondModel.NewBondAccrual`.
- The search lemmas take the monotonicity of `pv` as an assumption (`StrictlyDecreasing`, `NonIncreasing`). They do not prove it, because `sum_pv` is left out.
- The `BTreeMap` that `sum_pv` collects the cashflows into is left out. On a schedule the dates are distinct and ascending (`Schedule.ScheduleAscending`), so the map holds exactly the cashflows in order.

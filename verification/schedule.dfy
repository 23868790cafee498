/** `build_curve_dates`: the coupon schedule, built by stepping back from maturity
    one coupon period at a time until a date falls on or before settlement. */
module Schedule {
  import opened Outcome
  import opened Calendar

  const U32Max: int := 0xffff_ffff

  /** Rust's `frequency as u32` for a finite float: truncation toward zero,
      saturating at 0 below and at `u32::MAX` above. */
  function FrequencyAsU32(frequency: real): (k: nat)
    ensures k <= U32Max
    ensures 1 <= k <==> 1.0 <= frequency
    ensures 1.0 <= frequency < U32Max as real ==> k as real <= frequency < (k + 1) as real
  {
    if frequency < 1.0 then 0
    else if U32Max as real <= frequency then U32Max
    else frequency.Floor
  }

  /** `12 / frequency as u32`: the coupon period in whole months. The source divides
      by zero, and panics, when the cast gives 0. */
  function StepMonths(frequency: real): nat
    requires 1.0 <= frequency
  {
    12 / FrequencyAsU32(frequency)
  }

  /** The period is at least one month exactly for frequencies below 13; it is the
      integer quotient, so a frequency that does not divide 12 is truncated. */
  lemma StepMonthsTruncates(frequency: real)
    requires 1.0 <= frequency
    ensures 1 <= StepMonths(frequency) <==> frequency < 13.0
    ensures StepMonths(frequency) * FrequencyAsU32(frequency) <= 12
    ensures 12 < StepMonths(frequency) * FrequencyAsU32(frequency) + FrequencyAsU32(frequency)
    ensures StepMonths(2.0) == 6 && StepMonths(2.5) == 6 && StepMonths(5.0) == 2 && StepMonths(12.0) == 1
  {
    var k := FrequencyAsU32(frequency);
    if frequency < 13.0 {
      assert k <= 12;
    } else {
      assert 13 <= k;
    }
  }

  /** The day `build_curve_dates` re-clamps a stepped date to: it lowers the day to
      `ndays_in_month` when that is smaller and otherwise keeps it. `ndays_in_month`
      has no answer for December of the last year chrono represents, so there the day is
      kept. On a valid date nothing changes, so the `from_ymd_opt` that follows always
      succeeds. */
  function ReclampDay(d: Date): (day: nat)
    requires MinYear <= d.year && 1 <= d.month <= 12
    ensures day <= d.day
    ensures ValidDate(d) ==> day == d.day
    ensures d.day <= DaysInMonth(d.year, d.month) ==> day == d.day
    ensures DaysInMonth(d.year, d.month) < d.day ==>
              (day == DaysInMonth(d.year, d.month) <==> d.year < MaxYear || (d.year == MaxYear && d.month < 12))
  {
    match NDaysInMonth(d.year, d.month)
    case Some(maxDay) => if maxDay < d.day then maxDay else d.day
    case None => d.day
  }

  /** The loop of `build_curve_dates` from the date `cur` on: the dates it pushes, in
      pushing (descending) order. The loop variable carries the date chrono returned,
      so the next turn steps from it, not from the re-clamped copy that is pushed. */
  function CurveLoop(cur: Date, settlement: Date, step: nat): Result<seq<Date>, BondError>
    requires ValidDate(cur)
    requires 1 <= step || OnOrBefore(cur, settlement)
    decreases MonthIndex(cur) - MinYear * 12
  {
    match CheckedSubMonths(cur, step)
    case None => Err(DateError(cur.year, cur.month, cur.day))
    case Some(next) =>
      if OnOrBefore(next, settlement) then Ok([])
      else
        var day := ReclampDay(next);
        match FromYmdOpt(next.year, next.month, day)
        case None => Err(DateError(next.year, next.month, day))
        case Some(pushed) =>
          match CurveLoop(next, settlement, step)
          case Err(e) => Err(e)
          case Ok(rest) => Ok([pushed] + rest)
  }

  /** Stepping back once more from `first` succeeds and lands on or before settlement. */
  predicate StopsAt(first: Date, settlement: Date, step: nat)
    requires ValidDate(first)
  {
    var p := CheckedSubMonths(first, step);
    p.Some? && OnOrBefore(p.value, settlement)
  }

  /** Successive steps from `cur`: each date is the previous one minus `step` months,
      and every date is after settlement. */
  ghost predicate IsSteppedChain(t: seq<Date>, cur: Date, settlement: Date, step: nat)
    requires ValidDate(cur)
  {
    && (forall i :: 0 <= i < |t| ==> ValidDate(t[i]) && Before(settlement, t[i]))
    && (0 < |t| ==> CheckedSubMonths(cur, step) == Some(t[0]))
    && (forall i, j :: 0 <= i < |t| && j == i + 1 < |t| ==> CheckedSubMonths(t[i], step) == Some(t[j]))
  }

  /** The loop's output as an independent definition: the stepped chain from `cur`
      whose next step lands on or before settlement. */
  ghost predicate IsPushedChain(t: seq<Date>, cur: Date, settlement: Date, step: nat)
    requires ValidDate(cur)
  {
    && IsSteppedChain(t, cur, settlement, step)
    && StopsAt(if |t| == 0 then cur else t[|t| - 1], settlement, step)
  }

  /** The error is `Date(y, m, d)` for the date the loop was stepping from: `cur`
      itself or the last date of a stepped chain from `cur`, a valid date from which
      `step` months cannot be subtracted. */
  ghost predicate StepFailure(e: BondError, cur: Date, settlement: Date, step: nat)
    requires ValidDate(cur)
  {
    && e.DateError?
    && var d := Date(e.year, e.month, e.day);
    && ValidDate(d)
    && OnOrBefore(d, cur)
    && (d == cur || exists t :: IsSteppedChain(t, cur, settlement, step) && 0 < |t| && t[|t| - 1] == d)
    && CheckedSubMonths(d, step).None?
  }

  /** What the loop returns on success is the chain from `cur`. */
  lemma {:induction false} CurveLoopIsChain(cur: Date, settlement: Date, step: nat)
    requires ValidDate(cur)
    requires 1 <= step || OnOrBefore(cur, settlement)
    ensures CurveLoop(cur, settlement, step).Ok? ==>
              IsPushedChain(CurveLoop(cur, settlement, step).value, cur, settlement, step)
    decreases MonthIndex(cur) - MinYear * 12
  {
    var next := CheckedSubMonths(cur, step);
    if next.Some? && !OnOrBefore(next.value, settlement) {
      CurveLoopIsChain(next.value, settlement, step);
      var r := CurveLoop(next.value, settlement, step);
      if r.Ok? {
        assert CurveLoop(cur, settlement, step) == Ok([next.value] + r.value);
        ExtendSteppedChain(r.value, next.value, cur, settlement, step);
      }
    }
  }

  /** The loop fails only where a month subtraction fails, naming the date stepped
      from; the `from_ymd_opt` error after the re-clamp never happens. */
  lemma {:induction false} CurveLoopFailsOnlyOnStep(cur: Date, settlement: Date, step: nat)
    requires ValidDate(cur)
    requires 1 <= step || OnOrBefore(cur, settlement)
    ensures CurveLoop(cur, settlement, step).Err? ==>
              StepFailure(CurveLoop(cur, settlement, step).error, cur, settlement, step)
    decreases MonthIndex(cur) - MinYear * 12
  {
    var next := CheckedSubMonths(cur, step);
    if next.Some? && !OnOrBefore(next.value, settlement) {
      CurveLoopFailsOnlyOnStep(next.value, settlement, step);
      var r := CurveLoop(next.value, settlement, step);
      if r.Err? {
        var d := Date(r.error.year, r.error.month, r.error.day);
        OnOrBeforeTransitive(d, next.value, cur);
        if d == next.value {
          assert IsSteppedChain([d], cur, settlement, step);
        } else {
          var t :| IsSteppedChain(t, next.value, settlement, step) && 0 < |t| && t[|t| - 1] == d;
          ExtendSteppedChain(t, next.value, cur, settlement, step);
          assert ([next.value] + t)[|t|] == d;
        }
      }
    }
  }

  /** One turn of the loop: when the step from `cur` lands after settlement, the loop
      pushes that date itself and carries on from it. */
  lemma CurveLoopPushes(cur: Date, next: Date, settlement: Date, step: nat)
    requires ValidDate(cur) && (1 <= step || OnOrBefore(cur, settlement))
    requires CheckedSubMonths(cur, step) == Some(next) && Before(settlement, next)
    ensures CurveLoop(next, settlement, step).Err? ==>
              CurveLoop(cur, settlement, step) == CurveLoop(next, settlement, step)
    ensures CurveLoop(next, settlement, step).Ok? ==>
              CurveLoop(cur, settlement, step) == Ok([next] + CurveLoop(next, settlement, step).value)
  {
    assert ReclampDay(next) == next.day;
  }

  /** The tail of a stepped chain from `cur` is a stepped chain from its first date. */
  lemma DropSteppedChain(t: seq<Date>, cur: Date, settlement: Date, step: nat)
    requires ValidDate(cur) && 0 < |t|
    requires IsSteppedChain(t, cur, settlement, step)
    ensures CheckedSubMonths(cur, step) == Some(t[0]) && ValidDate(t[0]) && Before(settlement, t[0])
    ensures IsSteppedChain(t[1..], t[0], settlement, step)
  {
    var rest := t[1..];
    forall i, j | 0 <= i < |rest| && j == i + 1 < |rest|
      ensures CheckedSubMonths(rest[i], step) == Some(rest[j])
    {
      assert rest[i] == t[i + 1] && rest[j] == t[j + 1];
    }
    if 0 < |rest| {
      assert CheckedSubMonths(t[0], step) == Some(t[1]);
    }
  }

  /** A stepped chain from `next` extends to one from `cur` when `next` is one step
      back from `cur` and after settlement. */
  lemma ExtendSteppedChain(t: seq<Date>, next: Date, cur: Date, settlement: Date, step: nat)
    requires ValidDate(cur) && ValidDate(next) && Before(settlement, next)
    requires IsSteppedChain(t, next, settlement, step)
    requires CheckedSubMonths(cur, step) == Some(next)
    ensures IsSteppedChain([next] + t, cur, settlement, step)
  {
    var u := [next] + t;
    forall i, j | 0 <= i < |u| && j == i + 1 < |u|
      ensures CheckedSubMonths(u[i], step) == Some(u[j])
    {
      if 0 < i {
        assert u[i] == t[i - 1] && u[j] == t[j - 1];
      }
    }
  }

  /** Conversely, any chain from `cur` is what the loop returns: the loop's output is
      determined by the chain definition. */
  lemma {:induction false} ChainIsCurveLoop(t: seq<Date>, cur: Date, settlement: Date, step: nat)
    requires ValidDate(cur)
    requires 1 <= step || OnOrBefore(cur, settlement)
    requires IsPushedChain(t, cur, settlement, step)
    ensures CurveLoop(cur, settlement, step) == Ok(t)
    decreases |t|
  {
    if 0 < |t| {
      var next, rest := t[0], t[1..];
      DropSteppedChain(t, cur, settlement, step);
      assert StopsAt(if |rest| == 0 then next else rest[|rest| - 1], settlement, step);
      ChainIsCurveLoop(rest, next, settlement, step);
      CurveLoopPushes(cur, next, settlement, step);
      assert [next] + rest == t;
    }
  }

  function Reverse<T>(s: seq<T>): (r: seq<T>)
    ensures |r| == |s|
    ensures forall i :: 0 <= i < |s| ==> r[i] == s[|s| - 1 - i]
  {
    if |s| == 0 then [] else Reverse(s[1..]) + [s[0]]
  }

  /** The schedule as an independent definition: ascending from the first coupon
      after settlement to maturity, each date the next one minus `step` months, all
      but maturity after settlement, and one more step from the first date landing on
      or before settlement. */
  ghost predicate IsSchedule(s: seq<Date>, maturity: Date, settlement: Date, step: nat) {
    && 0 < |s|
    && s[|s| - 1] == maturity
    && (forall i :: 0 <= i < |s| ==> ValidDate(s[i]))
    && (forall i :: 0 <= i < |s| - 1 ==> Before(settlement, s[i]))
    && (forall i, j :: 0 <= i < |s| && j == i + 1 < |s| ==> CheckedSubMonths(s[j], step) == Some(s[i]))
    && StopsAt(s[0], settlement, step)
  }

  /** Whether the frequency is one `build_curve_dates` can be called with: the cast
      must not be 0 (division by zero), and a period of 0 months loops forever unless
      maturity is already on or before settlement. */
  predicate CallableWith(maturity: Date, settlement: Date, frequency: real) {
    1.0 <= frequency && (1 <= StepMonths(frequency) || OnOrBefore(maturity, settlement))
  }

  /** `build_curve_dates`: push maturity, run the loop, reverse. It succeeds with the
      schedule, or fails with the date from which a month subtraction failed. */
  function BuildCurveDates(maturity: Date, settlement: Date, frequency: real): (r: Result<seq<Date>, BondError>)
    requires ValidDate(maturity) && ValidDate(settlement)
    requires CallableWith(maturity, settlement, frequency)
    ensures r.Ok? ==> IsSchedule(r.value, maturity, settlement, StepMonths(frequency))
    ensures r.Err? ==> StepFailure(r.error, maturity, settlement, StepMonths(frequency))
  {
    var step := StepMonths(frequency);
    CurveLoopIsChain(maturity, settlement, step);
    CurveLoopFailsOnlyOnStep(maturity, settlement, step);
    match CurveLoop(maturity, settlement, step)
    case Err(e) => Err(e)
    case Ok(pushed) =>
      var s := Reverse([maturity] + pushed);
      assert forall i :: 0 <= i < |s| ==> s[i] == ([maturity] + pushed)[|pushed| - i];
      Ok(s)
  }

  /** The schedule is strictly ascending: a period of at least one month moves every
      step strictly earlier, and a zero-month period admits only the one-date schedule. */
  lemma {:induction false} ScheduleAscending(s: seq<Date>, maturity: Date, settlement: Date, step: nat)
    requires IsSchedule(s, maturity, settlement, step)
    ensures forall i, j :: 0 <= i < j < |s| ==> Before(s[i], s[j])
  {
    forall j | 0 <= j < |s|
      ensures forall i :: 0 <= i < j ==> Before(s[i], s[j])
    {
      AscendingUpTo(s, maturity, settlement, step, j);
    }
  }

  lemma {:induction false} AscendingUpTo(s: seq<Date>, maturity: Date, settlement: Date, step: nat, j: nat)
    requires IsSchedule(s, maturity, settlement, step)
    requires 1 <= step || |s| == 1
    requires j < |s|
    ensures forall i :: 0 <= i < j ==> Before(s[i], s[j])
  {
    if 0 < j {
      AscendingUpTo(s, maturity, settlement, step, j - 1);
      assert Before(s[j - 1], s[j]);
      forall i | 0 <= i < j - 1
        ensures Before(s[i], s[j])
      {
        BeforeTransitive(s[i], s[j - 1], s[j]);
      }
    }
  }

  /** Every coupon date but maturity is after settlement; when maturity is after
      settlement, all are. With a period of at least a month, the date the stepping
      stopped at comes before every coupon date: it is discarded, not pushed. */
  lemma ScheduleAfterSettlement(s: seq<Date>, maturity: Date, settlement: Date, step: nat)
    requires IsSchedule(s, maturity, settlement, step)
    ensures Before(settlement, maturity) ==> forall i :: 0 <= i < |s| ==> Before(settlement, s[i])
    ensures 0 < step ==> forall i :: 0 <= i < |s| ==> Before(CheckedSubMonths(s[0], step).value, s[i])
  {
    if 0 < step {
      var stop := CheckedSubMonths(s[0], step).value;
      ScheduleAscending(s, maturity, settlement, step);
      forall i | 0 < i < |s|
        ensures Before(stop, s[i])
      {
        BeforeTransitive(stop, s[0], s[i]);
      }
    }
  }

  /** `build_curve_dates` returns every schedule: whatever satisfies the schedule
      definition is exactly what it computes, so the schedule is unique and the
      function fails only when no schedule exists. */
  lemma {:induction false} BuildCurveDatesComplete(s: seq<Date>, maturity: Date, settlement: Date, frequency: real)
    requires ValidDate(maturity) && ValidDate(settlement)
    requires CallableWith(maturity, settlement, frequency)
    requires IsSchedule(s, maturity, settlement, StepMonths(frequency))
    ensures BuildCurveDates(maturity, settlement, frequency) == Ok(s)
  {
    var step := StepMonths(frequency);
    var t := Reverse(s[..|s| - 1]);
    assert forall i :: 0 <= i < |t| ==> t[i] == s[|s| - 2 - i];
    assert IsSteppedChain(t, maturity, settlement, step) by {
      forall i, j | 0 <= i < |t| && j == i + 1 < |t|
        ensures CheckedSubMonths(t[i], step) == Some(t[j])
      {
        assert t[i] == s[|s| - 2 - i] && t[j] == s[|s| - 2 - j];
      }
    }
    assert StopsAt(if |t| == 0 then maturity else t[|t| - 1], settlement, step);
    ChainIsCurveLoop(t, maturity, settlement, step);
    var built := Reverse([maturity] + t);
    assert built == s;
  }

  /** Four dates, each one step before the next, form the schedule ending at the last
      when the first three are after settlement and one more step from the first stops. */
  lemma FourDateSchedule(a: Date, b: Date, c: Date, d: Date, settlement: Date, step: nat)
    requires ValidDate(a) && ValidDate(b) && ValidDate(c) && ValidDate(d)
    requires Before(settlement, a) && Before(settlement, b) && Before(settlement, c)
    requires CheckedSubMonths(d, step) == Some(c)
    requires CheckedSubMonths(c, step) == Some(b)
    requires CheckedSubMonths(b, step) == Some(a)
    requires StopsAt(a, settlement, step)
    ensures IsSchedule([a, b, c, d], d, settlement, step)
  {
    var s := [a, b, c, d];
    forall i, j | 0 <= i < |s| && j == i + 1 < |s|
      ensures CheckedSubMonths(s[j], step) == Some(s[i])
    {
    }
  }

  /** The schedule of the 2025 gilt: maturity 2025-01-31, settlement 2023-05-03,
      two coupons a year. */
  lemma GiltSchedule()
    ensures BuildCurveDates(Date(2025, 1, 31), Date(2023, 5, 3), 2.0)
              == Ok([Date(2023, 7, 31), Date(2024, 1, 31), Date(2024, 7, 31), Date(2025, 1, 31)])
  {
    GiltIsSchedule();
    BuildCurveDatesComplete([Date(2023, 7, 31), Date(2024, 1, 31), Date(2024, 7, 31), Date(2025, 1, 31)],
                            Date(2025, 1, 31), Date(2023, 5, 3), 2.0);
  }

  lemma GiltIsSchedule()
    ensures StepMonths(2.0) == 6
    ensures IsSchedule([Date(2023, 7, 31), Date(2024, 1, 31), Date(2024, 7, 31), Date(2025, 1, 31)],
                       Date(2025, 1, 31), Date(2023, 5, 3), 6)
  {
    GiltSteps();
    assert ValidDate(Date(2023, 7, 31)) && ValidDate(Date(2024, 1, 31)) && ValidDate(Date(2024, 7, 31)) && ValidDate(Date(2025, 1, 31));
    assert ValidDate(Date(2023, 1, 31)) && OnOrBefore(Date(2023, 1, 31), Date(2023, 5, 3));
    FourDateSchedule(Date(2023, 7, 31), Date(2024, 1, 31), Date(2024, 7, 31), Date(2025, 1, 31), Date(2023, 5, 3), 6);
  }

  lemma GiltSteps()
    ensures StepMonths(2.0) == 6
    ensures CheckedSubMonths(Date(2025, 1, 31), 6) == Some(Date(2024, 7, 31))
    ensures CheckedSubMonths(Date(2024, 7, 31), 6) == Some(Date(2024, 1, 31))
    ensures CheckedSubMonths(Date(2024, 1, 31), 6) == Some(Date(2023, 7, 31))
    ensures CheckedSubMonths(Date(2023, 7, 31), 6) == Some(Date(2023, 1, 31))
  {
    assert StepMonths(2.0) == 6;
  }

  /** Clamping is sticky: from 31 August the step lands on 28 February, and the next
      step goes on from the 28th, not from the original day of the month. */
  lemma ClampingIsSticky()
    ensures BuildCurveDates(Date(2025, 8, 31), Date(2024, 1, 1), 2.0)
              == Ok([Date(2024, 2, 28), Date(2024, 8, 28), Date(2025, 2, 28), Date(2025, 8, 31)])
  {
    StickyIsSchedule();
    BuildCurveDatesComplete([Date(2024, 2, 28), Date(2024, 8, 28), Date(2025, 2, 28), Date(2025, 8, 31)],
                            Date(2025, 8, 31), Date(2024, 1, 1), 2.0);
  }

  lemma StickyIsSchedule()
    ensures StepMonths(2.0) == 6
    ensures IsSchedule([Date(2024, 2, 28), Date(2024, 8, 28), Date(2025, 2, 28), Date(2025, 8, 31)],
                       Date(2025, 8, 31), Date(2024, 1, 1), 6)
  {
    StickySteps();
    assert ValidDate(Date(2024, 2, 28)) && ValidDate(Date(2024, 8, 28)) && ValidDate(Date(2025, 2, 28)) && ValidDate(Date(2025, 8, 31));
    assert ValidDate(Date(2023, 8, 28)) && OnOrBefore(Date(2023, 8, 28), Date(2024, 1, 1));
    FourDateSchedule(Date(2024, 2, 28), Date(2024, 8, 28), Date(2025, 2, 28), Date(2025, 8, 31), Date(2024, 1, 1), 6);
  }

  lemma StickySteps()
    ensures StepMonths(2.0) == 6
    ensures CheckedSubMonths(Date(2025, 8, 31), 6) == Some(Date(2025, 2, 28))
    ensures CheckedSubMonths(Date(2025, 2, 28), 6) == Some(Date(2024, 8, 28))
    ensures CheckedSubMonths(Date(2024, 8, 28), 6) == Some(Date(2024, 2, 28))
    ensures CheckedSubMonths(Date(2024, 2, 28), 6) == Some(Date(2023, 8, 28))
  {
    assert StepMonths(2.0) == 6;
  }
}

/** The calendar arithmetic the bond engine relies on: proleptic Gregorian dates in
    the range of chrono's `NaiveDate`, the day before a date (`pred_opt`), the month
    length helper `ndays_in_month`, and month subtraction with day clamping
    (`checked_sub_months`). */
module Calendar {
  import opened Outcome

  /** Year bounds of chrono's `NaiveDate::MIN` (1 January) and `NaiveDate::MAX` (31 December). */
  const MinYear: int := -262143
  const MaxYear: int := 262142

  /** Largest `i32`; chrono refuses a month count above it. */
  const I32Max: int := 0x7fff_ffff

  /** A year-month-day triple; `ValidDate` says when it is a real calendar day. */
  datatype Date = Date(year: int, month: nat, day: nat)

  /** The Gregorian leap-year rule, on astronomical year numbers (year 0 is a leap year). */
  predicate IsLeapYear(year: int) {
    year % 4 == 0 && (year % 100 != 0 || year % 400 == 0)
  }

  /** The calendar length of a month. */
  function DaysInMonth(year: int, month: nat): (n: nat)
    requires 1 <= month <= 12
    ensures 28 <= n <= 31
  {
    if month == 2 then (if IsLeapYear(year) then 29 else 28)
    else if month == 4 || month == 6 || month == 9 || month == 11 then 30
    else 31
  }

  predicate ValidDate(d: Date) {
    && MinYear <= d.year <= MaxYear
    && 1 <= d.month <= 12
    && 1 <= d.day <= DaysInMonth(d.year, d.month)
  }

  /** `NaiveDate::MIN`, the one date without a predecessor. */
  const MinDate: Date := Date(MinYear, 1, 1)

  /** Chronological order of dates, which on valid dates is the lexicographic order
      of (year, month, day) that `NaiveDate`'s `Ord` implements. */
  predicate Before(a: Date, b: Date) {
    || a.year < b.year
    || (a.year == b.year && a.month < b.month)
    || (a.year == b.year && a.month == b.month && a.day < b.day)
  }

  predicate OnOrBefore(a: Date, b: Date) {
    a == b || Before(a, b)
  }

  /** Months elapsed since January of year 0; one month later is one more. */
  function MonthIndex(d: Date): int {
    d.year * 12 + d.month - 1
  }

  lemma BeforeTransitive(a: Date, b: Date, c: Date)
    requires Before(a, b) && Before(b, c)
    ensures Before(a, c)
  {
  }

  lemma OnOrBeforeTransitive(a: Date, b: Date, c: Date)
    requires OnOrBefore(a, b) && OnOrBefore(b, c)
    ensures OnOrBefore(a, c)
  {
  }

  /** Exactly one of a < b, a == b, b < a holds. */
  lemma BeforeTrichotomy(a: Date, b: Date)
    ensures Before(a, b) || a == b || Before(b, a)
    ensures !(Before(a, b) && Before(b, a))
    ensures !Before(a, a)
  {
  }

  /** Between dates with proper month numbers, a smaller month index means an earlier date. */
  lemma MonthIndexOrder(a: Date, b: Date)
    requires 1 <= a.month <= 12 && 1 <= b.month <= 12
    requires MonthIndex(a) < MonthIndex(b)
    ensures Before(a, b)
  {
  }

  /** The month index determines the year and the month. */
  lemma MonthIndexDetermines(a: Date, b: Date)
    requires 1 <= a.month <= 12 && 1 <= b.month <= 12
    requires MonthIndex(a) == MonthIndex(b)
    ensures a.year == b.year && a.month == b.month
  {
  }

  /** chrono's `NaiveDate::from_ymd_opt`: the date when the triple is a calendar day
      within range, `None` otherwise. */
  function FromYmdOpt(year: int, month: nat, day: nat): Option<Date> {
    if ValidDate(Date(year, month, day)) then Some(Date(year, month, day)) else None
  }

  /** chrono's `NaiveDate::pred_opt`: the previous calendar day, `None` at `NaiveDate::MIN`. */
  function PredOpt(d: Date): (r: Option<Date>)
    requires ValidDate(d)
    ensures r.None? <==> d == MinDate
    ensures r.Some? ==> ValidDate(r.value) && Before(r.value, d)
    ensures r.Some? && 1 < d.day ==> r.value == Date(d.year, d.month, d.day - 1)
    ensures r.Some? && d.day == 1 ==>
              && MonthIndex(r.value) == MonthIndex(d) - 1
              && r.value.day == DaysInMonth(r.value.year, r.value.month)
  {
    if 1 < d.day then Some(Date(d.year, d.month, d.day - 1))
    else if 1 < d.month then Some(Date(d.year, d.month - 1, DaysInMonth(d.year, d.month - 1)))
    else if MinYear < d.year then Some(Date(d.year - 1, 12, 31))
    else None
  }

  /** No valid date lies strictly between a date and its predecessor. */
  lemma PredIsImmediate(d: Date, e: Date)
    requires ValidDate(d) && d != MinDate && ValidDate(e)
    requires Before(PredOpt(d).value, e)
    ensures OnOrBefore(d, e)
  {
  }

  /** The first day of the month after (year, month), as `ndays_in_month` forms it:
      December rolls over to January of the next year. */
  function NextMonthStart(year: int, month: nat): (int, nat) {
    if month == 12 then (year + 1, 1) else (year, month + 1)
  }

  /** `ndays_in_month`: the day number of the day before the first of the following
      month. `None` when that first day is not a date; the source panics when it is
      `NaiveDate::MIN` itself, which the precondition rules out. Month 0 is accepted by
      the source and yields the length of the December before. */
  function NDaysInMonth(year: int, month: nat): (r: Option<nat>)
    requires NextMonthStart(year, month) != (MinYear, 1)
    ensures r.Some? <==>
              || (1 <= month <= 11 && MinYear <= year <= MaxYear)
              || (month == 12 && MinYear <= year < MaxYear)
              || (month == 0 && MinYear < year <= MaxYear)
    ensures r.Some? && (month == 1 || month == 3 || month == 5 || month == 7) ==> r.value == 31
    ensures r.Some? && (month == 8 || month == 10 || month == 12) ==> r.value == 31
    ensures r.Some? && (month == 4 || month == 6 || month == 9 || month == 11) ==> r.value == 30
    ensures r.Some? && month == 2 ==> r.value == (if IsLeapYear(year) then 29 else 28)
    ensures r.Some? && month == 0 ==> r.value == 31
  {
    var (y, m) := NextMonthStart(year, month);
    match FromYmdOpt(y, m, 1)
    case None => None
    case Some(first) =>
      var last := PredOpt(first).value;
      assert 1 <= month <= 12 ==> last.year == year && last.month == month by {
        if 1 <= month <= 12 {
          MonthIndexDetermines(last, Date(year, month, 1));
        }
      }
      Some(last.day)
  }

  function Min(a: nat, b: nat): nat {
    if a <= b then a else b
  }

  /** chrono's `NaiveDate::checked_sub_months`: zero months returns the date
      unchanged and more than `i32::MAX` months fails. Otherwise the body follows the
      steps of earlier chrono releases: the whole years and the remaining months are
      taken off, the month borrows from the year when it drops to zero or below, the
      day is clamped to the target month's length, and the result fails when its year
      falls below `NaiveDate::MIN`. Later releases compute the same date through the
      month index, which is how the contract states it. */
  function CheckedSubMonths(d: Date, months: nat): (r: Option<Date>)
    requires ValidDate(d)
    ensures months == 0 ==> r == Some(d)
    ensures r.Some? <==> months <= I32Max && MinYear * 12 <= MonthIndex(d) - months
    ensures r.Some? ==> ValidDate(r.value)
    ensures r.Some? ==> MonthIndex(r.value) == MonthIndex(d) - months
    ensures r.Some? ==> r.value.day == Min(d.day, DaysInMonth(r.value.year, r.value.month))
    ensures r.Some? && 0 < months ==> Before(r.value, d)
  {
    if months == 0 then Some(d)
    else if I32Max < months then None
    else
      var years := months / 12;
      var left := months % 12;
      if d.year - MinYear < years then None
      else
        var year := d.year - years;
        var month: int := d.month - left;
        if month <= 0 && year == MinYear then None
        else
          var (y, m) := if month <= 0 then (year - 1, month + 12) else (year, month);
          var r := Date(y, m, Min(d.day, DaysInMonth(y, m)));
          assert MonthIndex(r) == MonthIndex(d) - months;
          MonthIndexOrder(r, d);
          Some(r)
  }
}

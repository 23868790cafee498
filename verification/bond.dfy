/** `Bond::new`: parse the day count, build the schedule, compute the accrued
    fraction and turn a clean price into a dirty one. The steps fail fast in that
    order. */
module BondModel {
  import opened Outcome
  import opened Calendar
  import opened Schedule
  import opened Accrual

  /** The validated command-line record the bond is built from. */
  datatype BondCli = BondCli(
    coupon: real,
    price: real,
    clean: bool,
    daycount: string,
    frequency: real,
    settlement: Date,
    maturity: Date)

  /** The bond record; `price` is always the dirty price. The YTM cell is left out. */
  datatype Bond = Bond(
    coupon: real,
    price: real,
    dayCount: DayCount,
    frequency: real,
    accruedFraction: real,
    settlement: Date,
    maturity: Date,
    curve: seq<Date>)

  /** What the schedule builder needs: valid dates, and a frequency that neither
      divides by zero nor loops forever. The command line accepts any frequency, so
      `Bond::new` asks for this only once the day count has parsed. */
  predicate WellFormedCli(cli: BondCli) {
    && ValidDate(cli.settlement)
    && ValidDate(cli.maturity)
    && CallableWith(cli.maturity, cli.settlement, cli.frequency)
  }

  /** `Bond::new`. `parseDayCount` stands for `DayCountConvention::from_str` and
      `yearfrac` for the crate's year fraction. An unknown tag fails with the tag
      before anything else runs, whatever the frequency; a schedule failure is passed on
      unchanged; otherwise the bond carries the schedule `build_curve_dates` returned. */
  function NewBond(cli: BondCli, parseDayCount: string -> Option<DayCount>,
                   yearfrac: (DayCount, Date, Date) -> real): (r: Result<Bond, BondError>)
    requires ValidDate(cli.settlement) && ValidDate(cli.maturity)
    requires parseDayCount(cli.daycount).Some? ==> CallableWith(cli.maturity, cli.settlement, cli.frequency)
    ensures parseDayCount(cli.daycount).None? ==> r == Err(DaycountError(cli.daycount))
    ensures parseDayCount(cli.daycount).Some? ==>
              (r.Err? <==> BuildCurveDates(cli.maturity, cli.settlement, cli.frequency).Err?)
    ensures parseDayCount(cli.daycount).Some? && r.Err? ==>
              StepFailure(r.error, cli.maturity, cli.settlement, StepMonths(cli.frequency))
    ensures r.Ok? ==>
              && Some(r.value.dayCount) == parseDayCount(cli.daycount)
              && r.value.coupon == cli.coupon
              && r.value.frequency == cli.frequency
              && r.value.settlement == cli.settlement
              && r.value.maturity == cli.maturity
              && BuildCurveDates(cli.maturity, cli.settlement, cli.frequency) == Ok(r.value.curve)
  {
    match parseDayCount(cli.daycount)
    case None => Err(DaycountError(cli.daycount))
    case Some(dayCount) =>
      match BuildCurveDates(cli.maturity, cli.settlement, cli.frequency)
      case Err(e) => Err(e)
      case Ok(curve) =>
        PreviousCouponIsStopDate(curve, cli.maturity, cli.settlement, cli.frequency);
        Ok(BondFromSchedule(cli, dayCount, curve, yearfrac))
  }

  /** A constructed bond's accrued fraction is measured from the date at which the
      schedule builder stopped, which lies on or before settlement, and its price is
      the dirty price exactly when the input price was marked clean. */
  lemma NewBondAccrual(cli: BondCli, parseDayCount: string -> Option<DayCount>,
                       yearfrac: (DayCount, Date, Date) -> real)
    requires ValidDate(cli.settlement) && ValidDate(cli.maturity)
    requires parseDayCount(cli.daycount).Some? ==> CallableWith(cli.maturity, cli.settlement, cli.frequency)
    requires NewBond(cli, parseDayCount, yearfrac).Ok?
    ensures var b := NewBond(cli, parseDayCount, yearfrac).value;
            var prev := CheckedSubMonths(b.curve[0], StepMonths(cli.frequency));
            && prev.Some?
            && OnOrBefore(prev.value, cli.settlement)
            && b.accruedFraction == yearfrac(b.dayCount, prev.value, cli.settlement) * cli.frequency
            && (!cli.clean ==> b.price == cli.price)
            && (cli.clean ==> b.price == DirtyPrice(b.accruedFraction, cli.coupon, cli.price, cli.frequency))
  {
    var dayCount := parseDayCount(cli.daycount).value;
    var curve := BuildCurveDates(cli.maturity, cli.settlement, cli.frequency).value;
    PreviousCouponIsStopDate(curve, cli.maturity, cli.settlement, cli.frequency);
    assert NewBond(cli, parseDayCount, yearfrac).value == BondFromSchedule(cli, dayCount, curve, yearfrac);
  }

  /** The last part of `Bond::new`, once the schedule is built: the accrued fraction
      from the first coupon date, and the dirty price when the input price is clean. */
  function BondFromSchedule(cli: BondCli, dayCount: DayCount, curve: seq<Date>,
                            yearfrac: (DayCount, Date, Date) -> real): Bond
    requires WellFormedCli(cli)
    requires 0 < |curve| && ValidDate(curve[0])
    requires CheckedSubMonths(curve[0], StepMonths(cli.frequency)).Some?
  {
    var accrued := AccruedFraction(curve[0], cli.settlement, cli.frequency, dayCount, yearfrac);
    var price := if cli.clean then DirtyPrice(accrued, cli.coupon, cli.price, cli.frequency) else cli.price;
    Bond(cli.coupon, price, dayCount, cli.frequency, accrued, cli.settlement, cli.maturity, curve)
  }
}

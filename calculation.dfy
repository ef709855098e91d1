/** The sum-only aggregator of data.py (class Calculation): a day's, a month's and a year's total power,
    computed by overwriting the `day` attribute of one shared MomentData object. */
module Calculation {
  import opened Options
  import opened Folds
  import opened Calendar
  import opened Hourly
  import Solar

  /** The shared MomentData object as the aggregator uses it: the constructor's input attributes. Only
      `day` is ever written; the derived attributes are not read here and are left out. */
  class MomentData {
    var day: int
    var gmt: int
    var hour: real
    var longitude: real
    var latitude: real
    var moduleAzimuth: real
    var moduleTilt: real
    var constantEff: real

    constructor (inp: Solar.MomentInput)
      ensures day == inp.day && gmt == inp.gmt && hour == inp.hour
      ensures longitude == inp.longitude && latitude == inp.latitude
      ensures moduleAzimuth == inp.moduleAzimuth && moduleTilt == inp.moduleTilt
      ensures constantEff == inp.constantEff
    {
      day, gmt, hour := inp.day, inp.gmt, inp.hour;
      longitude, latitude := inp.longitude, inp.latitude;
      moduleAzimuth, moduleTilt := inp.moduleAzimuth, inp.moduleTilt;
      constantEff := inp.constantEff;
    }

    /** The attributes every hour's MomentData copies from this object. */
    function Site(): Site
      reads this
    {
      Hourly.Site(gmt, longitude, latitude, moduleAzimuth, moduleTilt, constantEff)
    }
  }

  /** Calculation.daily_kw: builds a fresh MomentData for each hour 0..23 of `m.day` from `m`'s attributes
      and adds its power; an hour whose construction raises is skipped. `m` is only read. */
  method DailyKw(gen: Generator, m: MomentData) returns (sumKw: real)
    ensures sumKw == DayTotal(gen, m.Site(), m.day)
  {
    ghost var outs := HourOutcomes(gen, m.Site(), m.day);
    sumKw := 0.0;
    for i := 0 to 24
      invariant sumKw == Sum(Credits(outs[..i]))
    {
      HourPrefix(outs, i);
      var input := Solar.MomentInput(m.day, m.gmt, i as real, m.longitude, m.latitude,
                                     m.moduleAzimuth, m.moduleTilt, m.constantEff);
      assert input == m.Site().At(m.day, i);
      var data := gen(input);
      if data.Some? {
        sumKw := sumKw + data.value;
      }
    }
    assert outs[..24] == outs;
  }

  /** Calculation.calc_month: raises (None) when a month 1..month-1 or `month` itself is not in the table,
      before touching `m`; otherwise sets `m.day` to each day-of-year of the month in turn and sums their
      daily totals, leaving `m.day` at the month's last day. No other attribute changes. */
  method CalcMonth(gen: Generator, m: MomentData, month: int) returns (r: Option<real>)
    modifies m`day
    ensures m.Site() == old(m.Site()) && m.hour == old(m.hour)
    ensures r.None? <==> !(1 <= month <= 12)
    ensures r.None? ==> m.day == old(m.day)
    ensures r.Some? ==> && r.value == MonthTotal(gen, old(m.Site()), month)
                        && m.day == MonthBase(month) + DaysIn(month)
  {
    var before := DaysBefore(month);
    if before.None? {
      return None;
    }
    MonthKeys(month);
    if month !in DAYS_IN_MONTH {
      return None;
    }
    var base := before.value;
    ghost var site := m.Site();
    ghost var f := DailyTotals(gen, site);
    var n := DAYS_IN_MONTH[month];
    var total := 0.0;
    for d := 1 to n + 1
      invariant m.Site() == site
      invariant total == Sum(Span(f, base, d - 1))
      invariant d == 1 ==> m.day == old(m.day)
      invariant d > 1 ==> m.day == base + d - 1
    {
      m.day := base + d;
      var daily := DailyKw(gen, m);
      SumSpanStep(f, base, d - 1);
      total := total + daily;
    }
    r := Some(total);
  }

  /** Calculation.calc_year: sets `m.day` to each day 1..365 in turn and sums their daily totals, leaving
      `m.day` at 365. No other attribute changes. */
  method CalcYear(gen: Generator, m: MomentData) returns (totalKw: real)
    modifies m`day
    ensures m.Site() == old(m.Site()) && m.hour == old(m.hour)
    ensures totalKw == Sum(Span(DailyTotals(gen, old(m.Site())), 0, 365))
    ensures m.day == 365
  {
    ghost var site := m.Site();
    ghost var f := DailyTotals(gen, site);
    totalKw := 0.0;
    for day := 1 to 366
      invariant m.Site() == site
      invariant totalKw == Sum(Span(f, 0, day - 1))
      invariant day > 1 ==> m.day == day - 1
    {
      m.day := day;
      var daily := DailyKw(gen, m);
      SumSpanStep(f, 0, day - 1);
      totalKw := totalKw + daily;
    }
  }

  /** When every built hour's power is non-negative, so are the day, month and year totals. */
  lemma TotalsNonNegative(gen: Generator, site: Site)
    requires NonNegative(gen, site)
    ensures forall day :: DayTotal(gen, site, day) >= 0.0
    ensures forall month :: 1 <= month <= 12 ==> MonthTotal(gen, site, month) >= 0.0
    ensures Sum(Span(DailyTotals(gen, site), 0, 365)) >= 0.0
  {
    forall day
      ensures DayTotal(gen, site, day) >= 0.0
    {
      DayTotalNonNegative(gen, site, day);
    }
    forall base: int, n: nat
      ensures Sum(Span(DailyTotals(gen, site), base, n)) >= 0.0
    {
      SumNonNegative(Span(DailyTotals(gen, site), base, n));
    }
  }
}

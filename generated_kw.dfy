/** The three-level aggregation of classes/generated_kw.py: a day's 24 hours, a month's days, a year's
    months, each with a running total and running bests that change only on strict improvement. */
module GeneratedKw {
  import opened Options
  import opened Folds
  import opened Calendar
  import opened Hourly

  /** The daily result dictionary (its "Data" label left out). */
  datatype DailySummary = DailySummary(
    day: int,
    totalKw: real,
    maxKwInHour: real,
    hourOfMax: int,
    hoursGenerated: seq<int>,
    activeFraction: real)

  datatype BestDay = BestDay(day: int, kw: real)
  datatype BestHour = BestHour(day: int, hour: int, kw: real)

  /** The monthly result dictionary; `bestDay.day` and `bestHour.day` are days of the month. */
  datatype MonthlySummary = MonthlySummary(
    month: int,
    totalDays: nat,
    totalKw: real,
    bestDay: BestDay,
    bestHour: BestHour,
    averageDailyKw: real)

  datatype BestMonth = BestMonth(month: int, kw: real)
  datatype YearBestDay = YearBestDay(month: int, day: int, kw: real)
  datatype YearBestHour = YearBestHour(month: int, day: int, hour: int, kw: real)

  /** The yearly result dictionary. */
  datatype YearlySummary = YearlySummary(
    totalKw: real,
    bestMonth: BestMonth,
    bestDay: YearBestDay,
    bestHour: YearBestHour,
    averageDailyKw: real,
    averageMonthlyKw: real)

  // ----- Day -----

  /** A day's summary, from the outcomes of its 24 hours: the sum of the built hours' power, the running
      maximum (seeded with 0, strict `>`), the producing hours and their share of the 24. */
  function DaySpec(gen: Generator, site: Site, day: int): DailySummary {
    var outs := HourOutcomes(gen, site, day);
    var best := FirstBest(Credits(outs), 0);
    var hours := ActiveHours(outs);
    DailySummary(day, Sum(Credits(outs)), best.kw, best.at, hours, |hours| as real / 24.0)
  }

  /** What daily_kw promises, hour by hour: a raising hour adds nothing and is skipped; "Hours Generated
      Energy" lists, in increasing order, exactly the built hours with positive power; the fraction is that
      count over 24; "MaxKw In An Hour" is max(0, built hours' power) and "Hour Produced Max Kw" the earliest
      hour attaining it, 0 when no hour is positive. */
  lemma DaySpecProperties(gen: Generator, site: Site, day: int)
    ensures var d := DaySpec(gen, site, day);
      && d.day == day
      && d.totalKw == DayTotal(gen, site, day)
      && (forall k :: 0 <= k < |d.hoursGenerated| ==> 0 <= d.hoursGenerated[k] < 24)
      && (forall j, k :: 0 <= j < k < |d.hoursGenerated| ==> d.hoursGenerated[j] < d.hoursGenerated[k])
      && (forall h :: 0 <= h < 24 ==> (h in d.hoursGenerated <==> Producing(gen(site.At(day, h)))))
      && d.activeFraction == |d.hoursGenerated| as real / 24.0
      && 0.0 <= d.activeFraction <= 1.0
      && d.maxKwInHour >= 0.0
      && (forall h :: 0 <= h < 24 && gen(site.At(day, h)).Some? ==> gen(site.At(day, h)).value <= d.maxKwInHour)
      && (d.maxKwInHour == 0.0 ==> d.hourOfMax == 0)
      && (d.maxKwInHour > 0.0 ==>
            && 0 <= d.hourOfMax < 24
            && gen(site.At(day, d.hourOfMax)) == Some(d.maxKwInHour)
            && forall h :: 0 <= h < d.hourOfMax ==> Credit(gen(site.At(day, h))) < d.maxKwInHour)
  {
    var outs := HourOutcomes(gen, site, day);
    ActiveHoursExact(outs);
    FirstBestIsFirst(Credits(outs), 0);
    assert forall h :: 0 <= h < 24 ==> Credits(outs)[h] == Credit(gen(site.At(day, h)));
  }

  /** GeneratedKw.daily_kw: visits hours 0..23; an hour whose construction raises is skipped, any other adds
      its power to the total, replaces the maximum when strictly greater, and is listed when positive. */
  method DailyKw(gen: Generator, day: int, site: Site) returns (d: DailySummary)
    ensures d == DaySpec(gen, site, day)
  {
    ghost var outs := HourOutcomes(gen, site, day);
    var total, maxKw, hourOfMax, hours := 0.0, 0.0, 0, [];
    for i := 0 to 24
      invariant total == Sum(Credits(outs[..i]))
      invariant Best(hourOfMax, maxKw) == FirstBest(Credits(outs[..i]), 0)
      invariant hours == ActiveHours(outs[..i])
    {
      HourPrefix(outs, i);
      var moment := gen(site.At(day, i));
      if moment.Some? {
        var kw := moment.value;
        if kw > maxKw {
          maxKw, hourOfMax := kw, i;
        }
        if kw > 0.0 {
          hours := hours + [i];
        }
        total := total + kw;
      }
    }
    assert outs[..24] == outs;
    d := DailySummary(day, total, maxKw, hourOfMax, hours, |hours| as real / 24.0);
  }

  // ----- Month -----

  /** Each day's maximum hourly power, as a function of the day of the year. */
  function DailyMaxes(gen: Generator, site: Site): int -> real {
    day => DaySpec(gen, site, day).maxKwInHour
  }

  function Totals(days: seq<DailySummary>): (r: seq<real>)
    ensures |r| == |days|
  {
    seq(|days|, i requires 0 <= i < |days| => days[i].totalKw)
  }

  function Maxes(days: seq<DailySummary>): (r: seq<real>)
    ensures |r| == |days|
  {
    seq(|days|, i requires 0 <= i < |days| => days[i].maxKwInHour)
  }

  /** The running "Best Day" after visiting `days` (day of the month = position + 1). */
  function BestDayOf(days: seq<DailySummary>): BestDay {
    var b := FirstBest(Totals(days), 1);
    BestDay(b.at, b.kw)
  }

  /** The running "Best Hour" after visiting `days`: the day of the first strictly greatest daily maximum and
      that day's hour of maximum. */
  function BestHourOf(days: seq<DailySummary>): BestHour {
    var b := FirstBest(Maxes(days), 1);
    FirstBestIsFirst(Maxes(days), 1);
    BestHour(b.at, if b.kw > 0.0 then days[b.at - 1].hourOfMax else 0, b.kw)
  }

  /** The running "Best Hour" is the first strictly greatest positive daily maximum, labelled with its
      position + 1 and carrying that day's hour of maximum, or all zeros. */
  lemma BestHourOfFacts(days: seq<DailySummary>)
    ensures var h := BestHourOf(days);
      && IsFirstBest(Maxes(days), 1, Best(h.day, h.kw))
      && (h.kw == 0.0 ==> h == BestHour(0, 0, 0.0))
      && (h.kw > 0.0 ==> 1 <= h.day <= |days| && h.hour == days[h.day - 1].hourOfMax)
  {
    FirstBestIsFirst(Maxes(days), 1);
  }

  /** One more day replaces each best exactly when its value is strictly greater. */
  lemma DayVisited(days: seq<DailySummary>, x: DailySummary)
    ensures Sum(Totals(days + [x])) == Sum(Totals(days)) + x.totalKw
    ensures BestDayOf(days + [x])
         == if x.totalKw > BestDayOf(days).kw then BestDay(|days| + 1, x.totalKw) else BestDayOf(days)
    ensures BestHourOf(days + [x])
         == if x.maxKwInHour > BestHourOf(days).kw then BestHour(|days| + 1, x.hourOfMax, x.maxKwInHour)
            else BestHourOf(days)
  {
    assert Totals(days + [x]) == Totals(days) + [x.totalKw];
    assert Maxes(days + [x]) == Maxes(days) + [x.maxKwInHour];
    SumConcat(Totals(days), [x.totalKw]);
    FirstBestAppend(Totals(days), 1, x.totalKw);
    FirstBestAppend(Maxes(days), 1, x.maxKwInHour);
    FirstBestIsFirst(Maxes(days), 1);
  }

  /** The summaries of the days of month `month`, in order. */
  function MonthDays(gen: Generator, site: Site, month: int): (days: seq<DailySummary>)
    requires 1 <= month <= 12
    ensures |days| == DaysIn(month)
  {
    seq(DaysIn(month), i => DaySpec(gen, site, MonthBase(month) + i + 1))
  }

  /** The month's daily totals and maxima are those of days MonthBase(month) + 1 .. of the year. */
  lemma MonthDaysSpan(gen: Generator, site: Site, month: int)
    requires 1 <= month <= 12
    ensures Totals(MonthDays(gen, site, month)) == Span(DailyTotals(gen, site), MonthBase(month), DaysIn(month))
    ensures Maxes(MonthDays(gen, site, month)) == Span(DailyMaxes(gen, site), MonthBase(month), DaysIn(month))
  {
    var days := MonthDays(gen, site, month);
    forall i | 0 <= i < |days|
      ensures Totals(days)[i] == Span(DailyTotals(gen, site), MonthBase(month), DaysIn(month))[i]
    {
      DaySpecProperties(gen, site, MonthBase(month) + i + 1);
    }
  }

  /** A month's summary from the summaries of its days. */
  function MonthSpec(gen: Generator, site: Site, month: int): MonthlySummary
    requires 1 <= month <= 12
  {
    var days := MonthDays(gen, site, month);
    var n := DaysIn(month);
    var total := Sum(Totals(days));
    MonthlySummary(month, n, total, BestDayOf(days), BestHourOf(days), total / n as real)
  }

  /** What monthly_kw promises of its total and "Best Day": day d of the month is day MonthBase(month) + d
      of the year; the total is the sum of those days' totals and the average is that total over the month's
      length; "Best Day" holds the day of the MONTH of the first day with the strictly greatest positive
      total, or (0, 0). */
  lemma MonthSpecProperties(gen: Generator, site: Site, month: int)
    requires 1 <= month <= 12
    ensures var m := MonthSpec(gen, site, month);
      && m.month == month && m.totalDays == DaysIn(month)
      && m.totalKw == MonthTotal(gen, site, month)
      && m.averageDailyKw == m.totalKw / DaysIn(month) as real
      && IsFirstBest(Span(DailyTotals(gen, site), MonthBase(month), DaysIn(month)), 1,
                     Best(m.bestDay.day, m.bestDay.kw))
  {
    MonthDaysSpan(gen, site, month);
    FirstBestIsFirst(Totals(MonthDays(gen, site, month)), 1);
  }

  /** The month's "Best Hour" is the running "Best Hour" over its days. */
  lemma MonthSpecBestHour(gen: Generator, site: Site, month: int)
    requires 1 <= month <= 12
    ensures MonthSpec(gen, site, month).bestHour == BestHourOf(MonthDays(gen, site, month))
  {
    var days := MonthDays(gen, site, month);
    var total := Sum(Totals(days));
    assert MonthSpec(gen, site, month)
      == MonthlySummary(month, DaysIn(month), total, BestDayOf(days), BestHourOf(days), total / DaysIn(month) as real);
  }

  /** The month's "Best Hour" over its days is the running best over days MonthBase(month) + 1 .. of the year. */
  lemma MonthBestHourSpan(gen: Generator, site: Site, month: int)
    requires 1 <= month <= 12
    ensures var h := MonthSpec(gen, site, month).bestHour;
      IsFirstBest(Span(DailyMaxes(gen, site), MonthBase(month), DaysIn(month)), 1, Best(h.day, h.kw))
  {
    MonthSpecBestHour(gen, site, month);
    BestHourOfFacts(MonthDays(gen, site, month));
    MonthDaysSpan(gen, site, month);
  }

  /** A positive "Best Hour" of the month carries the hour of maximum of the day of the year it names. */
  lemma MonthBestHourDay(gen: Generator, site: Site, month: int)
    requires 1 <= month <= 12
    ensures var h := MonthSpec(gen, site, month).bestHour;
      h.kw > 0.0 ==> h.hour == DaySpec(gen, site, MonthBase(month) + h.day).hourOfMax
  {
    var days := MonthDays(gen, site, month);
    var h := BestHourOf(days);
    MonthSpecBestHour(gen, site, month);
    BestHourOfFacts(days);
    if h.kw > 0.0 {
      assert days[h.day - 1] == DaySpec(gen, site, MonthBase(month) + h.day);
    }
  }

  /** What monthly_kw promises of "Best Hour": the day of the MONTH of the first day with the strictly
      greatest positive daily maximum, with that day's hour of maximum; (0, 0, 0) when no day's maximum is
      positive. */
  lemma MonthBestHourProperties(gen: Generator, site: Site, month: int)
    requires 1 <= month <= 12
    ensures var h := MonthSpec(gen, site, month).bestHour;
      && IsFirstBest(Span(DailyMaxes(gen, site), MonthBase(month), DaysIn(month)), 1, Best(h.day, h.kw))
      && (h.kw == 0.0 ==> h == BestHour(0, 0, 0.0))
      && (h.kw > 0.0 ==> h.hour == DaySpec(gen, site, MonthBase(month) + h.day).hourOfMax)
  {
    MonthSpecBestHour(gen, site, month);
    BestHourOfFacts(MonthDays(gen, site, month));
    MonthBestHourSpan(gen, site, month);
    MonthBestHourDay(gen, site, month);
  }

  /** GeneratedKw.monthly_kw: raises (None) for a month outside 1..12 at the table lookup, before computing
      anything; otherwise visits the month's days through DailyKw and keeps the running total and bests. */
  method MonthlyKw(gen: Generator, site: Site, month: int) returns (r: Option<MonthlySummary>)
    ensures r.None? <==> !(1 <= month <= 12)
    ensures r.Some? ==> r.value == MonthSpec(gen, site, month)
  {
    MonthKeys(month);
    if month !in DAYS_IN_MONTH {
      return None;
    }
    var n := DAYS_IN_MONTH[month];
    var total, bestDay, bestHour := 0.0, BestDay(0, 0.0), BestHour(0, 0, 0.0);
    var before := DaysBefore(month);
    var base := before.value;
    ghost var days := MonthDays(gen, site, month);
    for d := 1 to n + 1
      invariant total == Sum(Totals(days[..d - 1]))
      invariant bestDay == BestDayOf(days[..d - 1])
      invariant bestHour == BestHourOf(days[..d - 1])
    {
      var daily := DailyKw(gen, base + d, site);
      assert daily == days[d - 1];
      DayVisited(days[..d - 1], daily);
      assert days[..d] == days[..d - 1] + [daily];
      total := total + daily.totalKw;
      if daily.totalKw > bestDay.kw {
        bestDay := BestDay(d, daily.totalKw);
      }
      if daily.maxKwInHour > bestHour.kw {
        bestHour := BestHour(d, daily.hourOfMax, daily.maxKwInHour);
      }
    }
    assert days[..n] == days;
    r := Some(MonthlySummary(month, n, total, bestDay, bestHour, total / n as real));
  }

  // ----- Year -----

  /** The summaries of the twelve months, January first. */
  function YearMonths(gen: Generator, site: Site): (months: seq<MonthlySummary>)
    ensures |months| == 12
  {
    seq(12, i requires 0 <= i < 12 => MonthSpec(gen, site, i + 1))
  }

  function MonthTotalsOf(months: seq<MonthlySummary>): (r: seq<real>)
    ensures |r| == |months|
  {
    seq(|months|, i requires 0 <= i < |months| => months[i].totalKw)
  }

  /** Each month's "Best Day" as a running best (day of the month, kW). */
  function DayBests(months: seq<MonthlySummary>): (r: seq<Best>)
    ensures |r| == |months|
  {
    seq(|months|, i requires 0 <= i < |months| => Best(months[i].bestDay.day, months[i].bestDay.kw))
  }

  /** Each month's "Best Hour" as a running best (day of the month, kW). */
  function HourBests(months: seq<MonthlySummary>): (r: seq<Best>)
    ensures |r| == |months|
  {
    seq(|months|, i requires 0 <= i < |months| => Best(months[i].bestHour.day, months[i].bestHour.kw))
  }

  function Kws(bests: seq<Best>): (r: seq<real>)
    ensures |r| == |bests|
  {
    seq(|bests|, i requires 0 <= i < |bests| => bests[i].kw)
  }

  /** The running "Best Month" after visiting `months` (month = position + 1). */
  function BestMonthOf(months: seq<MonthlySummary>): BestMonth {
    var b := FirstBest(MonthTotalsOf(months), 1);
    BestMonth(b.at, b.kw)
  }

  /** The running yearly "Best Day": the first month whose best day is strictly greatest, with that month's
      best day of the month. */
  function YearBestDayOf(months: seq<MonthlySummary>): YearBestDay {
    var kws := Kws(DayBests(months));
    var b := FirstBest(kws, 1);
    FirstBestIsFirst(kws, 1);
    YearBestDay(b.at, if b.kw > 0.0 then months[b.at - 1].bestDay.day else 0, b.kw)
  }

  /** The running yearly "Best Hour": the first month whose best hour is strictly greatest, with that
      month's day and hour. */
  function YearBestHourOf(months: seq<MonthlySummary>): YearBestHour {
    var kws := Kws(HourBests(months));
    var b := FirstBest(kws, 1);
    FirstBestIsFirst(kws, 1);
    var h := if b.kw > 0.0 then months[b.at - 1].bestHour else BestHour(0, 0, 0.0);
    YearBestHour(b.at, h.day, h.hour, b.kw)
  }

  /** One more month replaces each best exactly when its value is strictly greater. */
  lemma MonthVisited(months: seq<MonthlySummary>, x: MonthlySummary)
    ensures Sum(MonthTotalsOf(months + [x])) == Sum(MonthTotalsOf(months)) + x.totalKw
    ensures BestMonthOf(months + [x])
         == if x.totalKw > BestMonthOf(months).kw then BestMonth(|months| + 1, x.totalKw)
            else BestMonthOf(months)
    ensures YearBestDayOf(months + [x])
         == if x.bestDay.kw > YearBestDayOf(months).kw
            then YearBestDay(|months| + 1, x.bestDay.day, x.bestDay.kw)
            else YearBestDayOf(months)
    ensures YearBestHourOf(months + [x])
         == if x.bestHour.kw > YearBestHourOf(months).kw
            then YearBestHour(|months| + 1, x.bestHour.day, x.bestHour.hour, x.bestHour.kw)
            else YearBestHourOf(months)
  {
    assert MonthTotalsOf(months + [x]) == MonthTotalsOf(months) + [x.totalKw];
    assert Kws(DayBests(months + [x])) == Kws(DayBests(months)) + [x.bestDay.kw];
    assert Kws(HourBests(months + [x])) == Kws(HourBests(months)) + [x.bestHour.kw];
    SumConcat(MonthTotalsOf(months), [x.totalKw]);
    FirstBestAppend(MonthTotalsOf(months), 1, x.totalKw);
    FirstBestAppend(Kws(DayBests(months)), 1, x.bestDay.kw);
    FirstBestAppend(Kws(HourBests(months)), 1, x.bestHour.kw);
    FirstBestIsFirst(Kws(DayBests(months)), 1);
    FirstBestIsFirst(Kws(HourBests(months)), 1);
  }

  /** The year's summary from the summaries of its months. */
  function YearSpec(gen: Generator, site: Site): YearlySummary {
    var months := YearMonths(gen, site);
    var total := Sum(MonthTotalsOf(months));
    YearlySummary(total, BestMonthOf(months), YearBestDayOf(months), YearBestHourOf(months),
                  total / 365.0, total / 12.0)
  }

  /** The year's "Best Day" and "Best Hour" are the running bests over its month summaries. */
  lemma YearSpecBests(gen: Generator, site: Site)
    ensures YearSpec(gen, site).bestDay == YearBestDayOf(YearMonths(gen, site))
    ensures YearSpec(gen, site).bestHour == YearBestHourOf(YearMonths(gen, site))
  {
    var months := YearMonths(gen, site);
    var total := Sum(MonthTotalsOf(months));
    assert YearSpec(gen, site) == YearlySummary(total, BestMonthOf(months), YearBestDayOf(months),
                                                YearBestHourOf(months), total / 365.0, total / 12.0);
  }

  /** The year's month summaries restate, month by month, what MonthSpecProperties and
      MonthBestHourProperties prove. */
  lemma YearMonthsFacts(gen: Generator, site: Site)
    ensures MonthTotalsOf(YearMonths(gen, site)) == MonthTotals(gen, site)
    ensures forall m :: 1 <= m <= 12 ==>
      IsFirstBest(Span(DailyTotals(gen, site), MonthBase(m), DaysIn(m)), 1, DayBests(YearMonths(gen, site))[m - 1])
    ensures forall m :: 1 <= m <= 12 ==>
      IsFirstBest(Span(DailyMaxes(gen, site), MonthBase(m), DaysIn(m)), 1, HourBests(YearMonths(gen, site))[m - 1])
  {
    var months := YearMonths(gen, site);
    forall m | 1 <= m <= 12
      ensures MonthTotalsOf(months)[m - 1] == MonthTotals(gen, site)[m - 1]
      ensures IsFirstBest(Span(DailyTotals(gen, site), MonthBase(m), DaysIn(m)), 1, DayBests(months)[m - 1])
      ensures IsFirstBest(Span(DailyMaxes(gen, site), MonthBase(m), DaysIn(m)), 1, HourBests(months)[m - 1])
    {
      MonthSpecProperties(gen, site, m);
      MonthBestHourProperties(gen, site, m);
    }
  }

  /** The month a day of the year falls in. */
  lemma MonthOfDay(y: int) returns (m: int)
    requires 1 <= y <= 365
    ensures 1 <= m <= 12 && MonthBase(m) < y <= MonthBase(m) + DaysIn(m)
  {
    MonthsTileYear(y);
    m :| 1 <= m <= 12 && MonthBase(m) < y <= MonthBase(m) + DaysIn(m);
  }

  /** Inside one run of days, the running best bounds every day and beats every day before its own. */
  lemma WithinSpan(f: int -> real, base: int, n: nat, b: Best, y: int)
    requires IsFirstBest(Span(f, base, n), 1, b)
    requires base < y <= base + n
    ensures f(y) <= b.kw
    ensures b.kw > 0.0 && y < base + b.at ==> f(y) < b.kw
  {
    assert f(y) == Span(f, base, n)[y - base - 1];
  }

  /** A positive running best over a run of days is attained at its own day. */
  lemma SpanBestAttained(f: int -> real, base: int, n: nat, b: Best)
    requires IsFirstBest(Span(f, base, n), 1, b)
    requires b.kw > 0.0
    ensures 1 <= b.at <= n && f(base + b.at) == b.kw
  {
    assert f(base + b.at) == Span(f, base, n)[b.at - 1];
  }

  /** A best kept month by month over per-month running bests bounds `f` on every day 1..365. */
  lemma TwoLevelBound(f: int -> real, monthBest: seq<Best>, yb: Best)
    requires |monthBest| == 12
    requires forall m :: 1 <= m <= 12 ==> IsFirstBest(Span(f, MonthBase(m), DaysIn(m)), 1, monthBest[m - 1])
    requires IsFirstBest(Kws(monthBest), 1, yb)
    ensures forall y :: 1 <= y <= 365 ==> f(y) <= yb.kw
  {
    forall y | 1 <= y <= 365
      ensures f(y) <= yb.kw
    {
      var m := MonthOfDay(y);
      WithinSpan(f, MonthBase(m), DaysIn(m), monthBest[m - 1], y);
      assert Kws(monthBest)[m - 1] == monthBest[m - 1].kw;
    }
  }

  /** When positive, a best kept month by month is attained at day `at` of month `month`, and that is the
      earliest day of the year attaining it. */
  lemma TwoLevelFirst(f: int -> real, monthBest: seq<Best>, yb: Best)
    requires |monthBest| == 12
    requires forall m :: 1 <= m <= 12 ==> IsFirstBest(Span(f, MonthBase(m), DaysIn(m)), 1, monthBest[m - 1])
    requires IsFirstBest(Kws(monthBest), 1, yb)
    requires yb.kw > 0.0
    ensures 1 <= yb.at <= 12
    ensures 1 <= monthBest[yb.at - 1].at <= DaysIn(yb.at)
    ensures f(MonthBase(yb.at) + monthBest[yb.at - 1].at) == yb.kw
    ensures forall y :: 1 <= y < MonthBase(yb.at) + monthBest[yb.at - 1].at ==> f(y) < yb.kw
  {
    var mo := yb.at;
    var mb := monthBest[mo - 1];
    assert Kws(monthBest)[mo - 1] == mb.kw;
    SpanBestAttained(f, MonthBase(mo), DaysIn(mo), mb);
    MonthBaseOrdered(mo, 13);
    forall y | 1 <= y < MonthBase(mo) + mb.at
      ensures f(y) < yb.kw
    {
      var m := MonthOfDay(y);
      WithinSpan(f, MonthBase(m), DaysIn(m), monthBest[m - 1], y);
      if m < mo {
        assert Kws(monthBest)[m - 1] == monthBest[m - 1].kw;
      } else if mo < m {
        MonthBaseOrdered(mo, m);
        assert false;
      }
    }
  }

  /** What yearly_kw promises of its total: the sum of the twelve month totals, which is the sum of the
      365 day totals; the averages are that total over 365 and over 12; "Best Month" is the first month
      with the strictly greatest positive total, or (0, 0). */
  lemma YearTotalProperties(gen: Generator, site: Site)
    ensures var y := YearSpec(gen, site);
      && y.totalKw == Sum(MonthTotals(gen, site))
      && y.totalKw == Sum(Span(DailyTotals(gen, site), 0, 365))
      && y.averageDailyKw == y.totalKw / 365.0
      && y.averageMonthlyKw == y.totalKw / 12.0
      && IsFirstBest(MonthTotals(gen, site), 1, Best(y.bestMonth.month, y.bestMonth.kw))
  {
    YearMonthsFacts(gen, site);
    YearIsSumOfMonths(gen, site);
    FirstBestIsFirst(MonthTotals(gen, site), 1);
  }

  /** "Best Day" of the year bounds every day: no day of the year has a greater total; when no day's total
      is positive it is all zeros. */
  lemma YearBestDayBound(gen: Generator, site: Site)
    ensures var b := YearSpec(gen, site).bestDay;
      && b.kw >= 0.0
      && (forall d :: 1 <= d <= 365 ==> DayTotal(gen, site, d) <= b.kw)
      && (b.kw == 0.0 ==> b == YearBestDay(0, 0, 0.0))
  {
    YearSpecBests(gen, site);
    var months := YearMonths(gen, site);
    YearMonthsFacts(gen, site);
    FirstBestIsFirst(Kws(DayBests(months)), 1);
    TwoLevelBound(DailyTotals(gen, site), DayBests(months), FirstBest(Kws(DayBests(months)), 1));
    forall d | 1 <= d <= 365
      ensures DailyTotals(gen, site)(d) == DayTotal(gen, site, d)
    {
    }
  }

  /** A positive "Best Day" of the year names month and day of the month of the EARLIEST day of the year
      with the greatest total. */
  lemma YearBestDayFirst(gen: Generator, site: Site)
    ensures var b := YearSpec(gen, site).bestDay;
      b.kw > 0.0 ==>
        && 1 <= b.month <= 12 && 1 <= b.day <= DaysIn(b.month)
        && DayTotal(gen, site, MonthBase(b.month) + b.day) == b.kw
        && forall d :: 1 <= d < MonthBase(b.month) + b.day ==> DayTotal(gen, site, d) < b.kw
  {
    YearSpecBests(gen, site);
    var months := YearMonths(gen, site);
    var f, bests := DailyTotals(gen, site), DayBests(months);
    var yb := FirstBest(Kws(bests), 1);
    FirstBestIsFirst(Kws(bests), 1);
    if yb.kw > 0.0 {
      YearMonthsFacts(gen, site);
      TwoLevelFirst(f, bests, yb);
      assert bests[yb.at - 1].at == months[yb.at - 1].bestDay.day;
      forall d | 1 <= d <= MonthBase(yb.at) + bests[yb.at - 1].at
        ensures f(d) == DayTotal(gen, site, d)
      {
      }
    }
  }

  /** "Best Hour" of the year bounds every day: no day of the year has a greater hourly maximum; when no
      hour is positive it is all zeros. */
  lemma YearBestHourBound(gen: Generator, site: Site)
    ensures var b := YearSpec(gen, site).bestHour;
      && b.kw >= 0.0
      && (forall d :: 1 <= d <= 365 ==> DaySpec(gen, site, d).maxKwInHour <= b.kw)
      && (b.kw == 0.0 ==> b == YearBestHour(0, 0, 0, 0.0))
  {
    YearSpecBests(gen, site);
    var months := YearMonths(gen, site);
    YearMonthsFacts(gen, site);
    FirstBestIsFirst(Kws(HourBests(months)), 1);
    TwoLevelBound(DailyMaxes(gen, site), HourBests(months), FirstBest(Kws(HourBests(months)), 1));
    forall d | 1 <= d <= 365
      ensures DailyMaxes(gen, site)(d) == DaySpec(gen, site, d).maxKwInHour
    {
    }
  }

  /** A positive "Best Hour" of the year carries the hour of maximum of the day it names. */
  lemma YearBestHourOfDay(gen: Generator, site: Site)
    ensures var b := YearSpec(gen, site).bestHour;
      b.kw > 0.0 ==> 1 <= b.month <= 12 && b.hour == DaySpec(gen, site, MonthBase(b.month) + b.day).hourOfMax
  {
    YearSpecBests(gen, site);
    var months := YearMonths(gen, site);
    var yb := FirstBest(Kws(HourBests(months)), 1);
    FirstBestIsFirst(Kws(HourBests(months)), 1);
    if yb.kw > 0.0 {
      var mh := months[yb.at - 1].bestHour;
      assert YearBestHourOf(months) == YearBestHour(yb.at, mh.day, mh.hour, yb.kw);
      assert mh == MonthSpec(gen, site, yb.at).bestHour;
      MonthBestHourDay(gen, site, yb.at);
    }
  }

  /** A positive "Best Hour" of the year names month and day of the month of the EARLIEST day of the year
      reaching the greatest hourly power, and that day's hour of maximum. */
  lemma YearBestHourFirst(gen: Generator, site: Site)
    ensures var b := YearSpec(gen, site).bestHour;
      b.kw > 0.0 ==>
        && 1 <= b.month <= 12 && 1 <= b.day <= DaysIn(b.month)
        && DaySpec(gen, site, MonthBase(b.month) + b.day).maxKwInHour == b.kw
        && b.hour == DaySpec(gen, site, MonthBase(b.month) + b.day).hourOfMax
        && forall d :: 1 <= d < MonthBase(b.month) + b.day ==> DaySpec(gen, site, d).maxKwInHour < b.kw
  {
    YearSpecBests(gen, site);
    var months := YearMonths(gen, site);
    var f, bests := DailyMaxes(gen, site), HourBests(months);
    var yb := FirstBest(Kws(bests), 1);
    FirstBestIsFirst(Kws(bests), 1);
    if yb.kw > 0.0 {
      YearMonthsFacts(gen, site);
      TwoLevelFirst(f, bests, yb);
      var mh := months[yb.at - 1].bestHour;
      assert bests[yb.at - 1].at == mh.day;
      assert YearBestHourOf(months) == YearBestHour(yb.at, mh.day, mh.hour, yb.kw);
      forall d | 1 <= d <= MonthBase(yb.at) + mh.day
        ensures f(d) == DaySpec(gen, site, d).maxKwInHour
      {
      }
      YearBestHourOfDay(gen, site);
    }
  }

  /** GeneratedKw.yearly_kw: visits months 1..12 through MonthlyKw and keeps the running total and bests. */
  method YearlyKw(gen: Generator, site: Site) returns (y: YearlySummary)
    ensures y == YearSpec(gen, site)
  {
    ghost var months := YearMonths(gen, site);
    var total, bestMonth := 0.0, BestMonth(0, 0.0);
    var bestDay, bestHour := YearBestDay(0, 0, 0.0), YearBestHour(0, 0, 0, 0.0);
    for month := 1 to 13
      invariant total == Sum(MonthTotalsOf(months[..month - 1]))
      invariant bestMonth == BestMonthOf(months[..month - 1])
      invariant bestDay == YearBestDayOf(months[..month - 1])
      invariant bestHour == YearBestHourOf(months[..month - 1])
    {
      var r := MonthlyKw(gen, site, month);
      var monthly := r.value;
      assert monthly == months[month - 1];
      MonthVisited(months[..month - 1], monthly);
      assert months[..month] == months[..month - 1] + [monthly];
      total := total + monthly.totalKw;
      if monthly.totalKw > bestMonth.kw {
        bestMonth := BestMonth(month, monthly.totalKw);
      }
      if monthly.bestDay.kw > bestDay.kw {
        bestDay := YearBestDay(month, monthly.bestDay.day, monthly.bestDay.kw);
      }
      if monthly.bestHour.kw > bestHour.kw {
        bestHour := YearBestHour(month, monthly.bestHour.day, monthly.bestHour.hour, monthly.bestHour.kw);
      }
    }
    assert months[..12] == months;
    y := YearlySummary(total, bestMonth, bestDay, bestHour, total / 365.0, total / 12.0);
  }
}

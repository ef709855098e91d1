/** What both aggregators know of one hour: the outcome of building a MomentData for it, and the
    day-level folds over the 24 outcomes that the source's hour loops compute. */
module Hourly {
  import opened Options
  import opened Folds
  import opened Calendar
  import Solar

  /** The constructor seen from the aggregators: an input maps to its generated power, or to None when the
      constructor raises. */
  type Generator = Solar.MomentInput -> Option<real>

  /** The instance the program uses: Solar's model under the trigonometry `t`. */
  function Produce(t: Solar.Trig): Generator {
    inp => Solar.GeneratedKw(t, inp)
  }

  /** The arguments that stay fixed across every hour, day and month of a run. */
  datatype Site = Site(
    gmt: int,
    longitude: real,
    latitude: real,
    moduleAzimuth: real,
    moduleTilt: real,
    constantEff: real)
  {
    /** The constructor arguments for day-of-year `day` at integer hour `hour`. */
    function At(day: int, hour: int): Solar.MomentInput {
      Solar.MomentInput(day, gmt, hour as real, longitude, latitude, moduleAzimuth, moduleTilt, constantEff)
    }
  }

  /** The outcome of each hour 0..23 of day-of-year `day`. */
  function HourOutcomes(gen: Generator, site: Site, day: int): (outs: seq<Option<real>>)
    ensures |outs| == 24
  {
    seq(24, h => gen(site.At(day, h)))
  }

  /** What an hour adds to a total: its power, or nothing when its construction raised. */
  function Credit(o: Option<real>): real {
    match o
    case Some(v) => v
    case None => 0.0
  }

  function Credits(outs: seq<Option<real>>): (r: seq<real>)
    ensures |r| == |outs|
  {
    seq(|outs|, i requires 0 <= i < |outs| => Credit(outs[i]))
  }

  /** An hour counts as generating when it was built and its power is positive. */
  predicate Producing(o: Option<real>) {
    o.Some? && o.value > 0.0
  }

  /** The hours, in order, whose outcome is producing. */
  function ActiveHours(outs: seq<Option<real>>): seq<int> {
    if outs == [] then []
    else
      var n := |outs| - 1;
      ActiveHours(outs[..n]) + if Producing(outs[n]) then [n] else []
  }

  /** The active hours are strictly increasing positions of `outs`, and a position is listed exactly when
      its outcome is producing. */
  lemma {:induction false} ActiveHoursExact(outs: seq<Option<real>>)
    ensures var r := ActiveHours(outs);
      && |r| <= |outs|
      && (forall k :: 0 <= k < |r| ==> 0 <= r[k] < |outs|)
      && (forall j, k :: 0 <= j < k < |r| ==> r[j] < r[k])
      && (forall h :: 0 <= h < |outs| ==> (h in r <==> Producing(outs[h])))
  {
    if outs != [] {
      var n := |outs| - 1;
      ActiveHoursExact(outs[..n]);
    }
  }

  /** Extending the visited hours by one extends the credits and the active hours accordingly. */
  lemma HourPrefix(outs: seq<Option<real>>, i: nat)
    requires i < |outs|
    ensures Sum(Credits(outs[..i + 1])) == Sum(Credits(outs[..i])) + Credit(outs[i])
    ensures FirstBest(Credits(outs[..i + 1]), 0)
         == if Credit(outs[i]) > FirstBest(Credits(outs[..i]), 0).kw then Best(i, Credit(outs[i]))
            else FirstBest(Credits(outs[..i]), 0)
    ensures ActiveHours(outs[..i + 1]) == ActiveHours(outs[..i]) + if Producing(outs[i]) then [i] else []
  {
    assert outs[..i + 1][..i] == outs[..i];
    assert Credits(outs[..i + 1]) == Credits(outs[..i]) + [Credit(outs[i])];
    SumConcat(Credits(outs[..i]), [Credit(outs[i])]);
    FirstBestAppend(Credits(outs[..i]), 0, Credit(outs[i]));
  }

  /** Total power of a day: the sum over the hours whose construction succeeded. */
  function DayTotal(gen: Generator, site: Site, day: int): real {
    Sum(Credits(HourOutcomes(gen, site, day)))
  }

  /** The day totals as a function of the day of the year. */
  function DailyTotals(gen: Generator, site: Site): int -> real {
    day => DayTotal(gen, site, day)
  }

  /** Total of month `month`: the sum over its days, day-of-year MonthBase(month) + d for d = 1..length. */
  function MonthTotal(gen: Generator, site: Site, month: int): real
    requires 1 <= month <= 12
  {
    Sum(Span(DailyTotals(gen, site), MonthBase(month), DaysIn(month)))
  }

  /** The twelve month totals, January first. */
  function MonthTotals(gen: Generator, site: Site): (r: seq<real>)
    ensures |r| == 12
    ensures forall m :: 1 <= m <= 12 ==> r[m - 1] == MonthTotal(gen, site, m)
  {
    MonthSums(DailyTotals(gen, site))
  }

  /** The year's 365 day totals add up to the 12 month totals. */
  lemma YearIsSumOfMonths(gen: Generator, site: Site)
    ensures Sum(Span(DailyTotals(gen, site), 0, 365)) == Sum(MonthTotals(gen, site))
  {
    YearSpansMonths(DailyTotals(gen, site));
  }

  /** Every built hour has non-negative power. */
  ghost predicate NonNegative(gen: Generator, site: Site) {
    forall day, h :: gen(site.At(day, h)).Some? ==> gen(site.At(day, h)).value >= 0.0
  }

  /** With a non-negative generator the day totals cannot be negative. */
  lemma DayTotalNonNegative(gen: Generator, site: Site, day: int)
    requires NonNegative(gen, site)
    ensures DayTotal(gen, site, day) >= 0.0
  {
    var credits := Credits(HourOutcomes(gen, site, day));
    assert forall i :: 0 <= i < |credits| ==> credits[i] >= 0.0;
    SumNonNegative(credits);
  }

  /** Solar's generator is non-negative whenever the efficiency constant is. */
  lemma ProduceNonNegative(t: Solar.Trig, site: Site)
    requires site.constantEff >= 0.0
    ensures NonNegative(Produce(t), site)
  {
  }
}

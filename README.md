# Solar-yield estimator: per-moment model and period aggregation

This project models the core of a small solar-yield estimator. The estimator has two parts:

- the `MomentData` constructor, which turns a day of the year, an hour, a location and a module orientation
  into the power the module generates, or raises;
- the aggregators, which call that constructor for the 24 hours of a day, the days of a month (a fixed
  non-leap table) and the 12 months of a year. Each keeps a running total and, in `GeneratedKw`, running
  bests that change only on a strictly greater value (the first winner keeps its place on a tie).

Modules:

- `Solar` (solar.dfy): the constructor of `classes/moment_data.py`, as a function from `MomentInput` to
  `Construction`: `Built(state)` or `Raised`. The sine, cosine, inverse sine, inverse cosine and power
  functions are fields of a `Trig` value passed in, and `Lawful(t)` lists the range facts about them the
  proofs use.
- `Hourly` (hourly.dfy): what the aggregators see of that constructor: a `Generator` that maps an input to
  `Some(generated kW)` or `None` when the constructor raises. `Produce(t)` is the generator built from
  `Solar`. This module also holds the day, month and year totals as specification functions.
- `Folds` (folds.dfy): the running sum and the running "first strictly greatest" best, with lemmas that
  characterise them.
- `Calendar` (calendar.dfy): the month table, the day-of-year offset of each month, and the proof that the
  months tile days 1..365.
- `GeneratedKw` (generated_kw.dfy): `daily_kw`, `monthly_kw` and `yearly_kw` of `classes/generated_kw.py`
  as methods with loops, each proved equal to a specification function. Lemmas state what the summaries
  mean: sums, maxima, earliest argmax, day-of-month labels and averages.
- `Calculation` (calculation.dfy): `daily_kw`, `calc_month` and `calc_year` of `data.py`. They work on a
  `MomentData` object whose `day` attribute they overwrite. Here that object is a class, and the methods
  have `modifies m`day` frames.

## Model

| member | source | states |
|---|---|---|
| Calendar.MonthKeys | classes/generated_kw.py:89-98 | Looking a month up in the table succeeds exactly for 1..12, and every length is 28..31. |
| Calendar.DaysIn | classes/generated_kw.py:89-93 | A month's length, read from the table, is between 28 and 31. |
| Calendar.MonthBaseStep | classes/generated_kw.py:105 | The day-of-year offset of month 1 is 0. Each later offset is the previous one plus the previous month's length, so the offset is the sum of the earlier months' lengths. |
| Calendar.DaysBefore | data.py:203 | The day-of-year offset of a month, summed over the table: it fails exactly when the month is above 13 (the lookup of 13 is the first one missing); otherwise it is the sum of the earlier months' lengths, and 0 for a month below 1, whose range of earlier months is empty. |
| Calendar.YearLength | data.py:223 | Proof step: the last running sum of the offset table is 365. With MonthBaseStep this says the twelve lengths add up to 365. |
| Calendar.MonthBaseOrdered | data.py:203-206 | A month ends no later than any later month begins. |
| Calendar.MonthsTileYear | data.py:203-206 | Every day 1..365 lies in exactly one month's range of days. |
| Calendar.SumSpanStep | data.py:205-208 | Proof step: the sum's own recursive equation at a run one day longer, used as the `total_kw +=` loop step. |
| Calendar.YearSpansMonths | data.py:196-227 | For any per-day quantity, the sum over days 1..365 equals the sum of the twelve monthly sums. |
| Folds.SumNonNegative | data.py:165-183 | A sum of non-negative values is non-negative. |
| Folds.SumConcat | classes/generated_kw.py:110 | Summing a concatenation sums the parts. |
| Folds.FirstBestIsFirst | classes/generated_kw.py:53-55 | A best seeded with (0, 0) and replaced only on a strictly greater value ends as max(0, values). When that is positive, its label is the earliest position attaining it; otherwise the label is still 0. |
| Folds.FirstBestAppend | classes/generated_kw.py:112-119 | Proof step: the running best's own recursive equation at a sequence one element longer. One more value replaces the best exactly when it is strictly greater, so ties keep the earlier winner. |
| Folds.FirstBestUnique | classes/generated_kw.py:53-55 | That characterisation determines the running best completely. |
| Solar.Timing | classes/moment_data.py:33-48 | The time-correction chain gives B = 0 on day 81, and hra = 15·hour − 180 + (longitude − 15·gmt) + eot/4. |
| Solar.HourAngleStep | classes/moment_data.py:39-48 | One hour later, the hour angle is exactly 15 greater. |
| Solar.EquinoxDeclination | classes/moment_data.py:33-51 | On day 81 the declination is 0. |
| Solar.Clamp | classes/moment_data.py:69-72 | The clamped azimuth cosine lies in [−1, 1]. It is the input itself inside that range, and 1 or −1 outside it. |
| Solar.Power | classes/moment_data.py:84-87 | A float power with a non-integral exponent fails for a negative base (a complex value). With a zero base it succeeds exactly when the exponent is positive. With a positive base and lawful trigonometry it is positive. |
| Solar.AirMass | classes/moment_data.py:84 | The air mass fails whenever zenith ≥ 96.07995. It is defined and positive for zenith in [0, 90]. |
| Solar.Compute | classes/moment_data.py:19-101 | A built object has: the hour angle and declination of the chain; an asin argument in [−1, 1]; zenith = 90 − elevation < 96.07995; cos(elevation) ≠ 0; morning + afternoon azimuth = 360, with azimuth the afternoon one exactly when hra > 0; module irradiance = max(0, incident · fraction), hence ≥ 0; generated kW = module irradiance · efficiency constant, hence ≥ 0 when that constant is ≥ 0. |
| Solar.AzimuthRange | classes/moment_data.py:69-81 | The base azimuth is in [0, 180]. The azimuth is in [0, 180] when hra ≤ 0 (noon included) and in [180, 360] when hra > 0. |
| Solar.RaisesOnDomainErrors | classes/moment_data.py:54-99 | The constructor raises when the asin argument leaves [−1, 1], when cos(elevation) = 0, and when zenith ≥ 96.07995. |
| Solar.BuildsInDaylight | classes/moment_data.py:54-99 | With lawful trigonometry, the sun at or above the horizon, an asin argument in range and cos(elevation) ≠ 0, the constructor succeeds. |
| Solar.RaisesExactly | classes/moment_data.py:54-99 | The constructor raises exactly when the asin argument leaves [−1, 1], cos(elevation) = 0, the air mass fails (zenith at or past 96.07995, or a zero denominator), or the air mass is negative (a complex value under `** 0.678`). Every other hour builds, including hours with the sun up to 6.07995° below the horizon. |
| Solar.GeneratedKw | classes/moment_data.py:99-101 | The generated power exists exactly when the constructor succeeds, and then it is the built object's generated kW. It is ≥ 0 when the efficiency constant is ≥ 0. |
| Solar.PositiveExactlyWhenLit | classes/moment_data.py:99-101 | With a positive efficiency constant, an hour yields positive power exactly when the object is built and incident · fraction > 0. Every other built hour is floored to 0 kW and so is left out of "Hours Generated Energy". |
| Hourly.ActiveHoursExact | classes/generated_kw.py:41-58 | The producing hours are strictly increasing positions within 0..23. An hour is listed exactly when it was built with positive power. |
| Hourly.HourPrefix | classes/generated_kw.py:53-60 | Proof step: the recursive equations of the total, the running maximum and the hour list at one more hour, used as the loop step. |
| Hourly.YearIsSumOfMonths | data.py:212-227 | The sum of the 365 daily totals equals the sum of the 12 month totals, so `calc_year` equals the sum of `calc_month` over months 1..12. |
| Hourly.DayTotalNonNegative | data.py:165-183 | With non-negative hourly power, a day's total is non-negative. |
| Hourly.ProduceNonNegative | classes/moment_data.py:99-101 | The constructor's generator never yields negative power when the efficiency constant is ≥ 0. |
| GeneratedKw.DaySpecProperties | classes/generated_kw.py:31-65 | A day's summary holds: the sum over built hours (a raising hour adds nothing); the exact, increasing list of producing hours; their count over 24, which lies in [0, 1]; max(0, hourly power); and the earliest hour attaining that maximum, or 0 when no hour is positive. |
| GeneratedKw.DailyKw | classes/generated_kw.py:9-67 | The 24-hour loop, with failures skipped and a strict-`>` maximum, returns exactly the day's specified summary. |
| GeneratedKw.DayVisited | classes/generated_kw.py:110-119 | One more day adds its total, and replaces "Best Day" or "Best Hour" exactly on a strictly greater value. |
| GeneratedKw.MonthDaysSpan | classes/generated_kw.py:105-108 | Day d of month m is day MonthBase(m) + d of the year, for d = 1..length. |
| GeneratedKw.MonthSpecProperties | classes/generated_kw.py:95-121 | A month's summary holds: its month and length; a total equal to the sum of its daily totals; an average equal to total / length. "Best Day" is the day of the MONTH of the first day with the strictly greatest positive total, or (0, 0) when no day's total is positive. |
| GeneratedKw.BestHourOfFacts | classes/generated_kw.py:101-119 | The running "Best Hour" over a list of daily summaries is the first strictly greatest positive daily maximum, labelled with its position + 1 and carrying that day's hour of maximum. When no maximum is positive it stays (0, 0, 0). |
| GeneratedKw.MonthBestHourProperties | classes/generated_kw.py:101-119 | A month's "Best Hour" is the first day of the month with the strictly greatest positive daily maximum, as day of the MONTH, together with that day's hour of maximum. When no day's maximum is positive it stays (0, 0, 0). |
| GeneratedKw.MonthBestHourDay | classes/generated_kw.py:116-119 | Proof step: a positive monthly "Best Hour" carries the hour of maximum of the day of the year it names (the last clause of MonthBestHourProperties, on its own). |
| GeneratedKw.YearBestHourOfDay | classes/generated_kw.py:168-172 | Proof step: a positive yearly "Best Hour" carries the hour of maximum of the day it names (one clause of YearBestHourFirst, on its own). |
| GeneratedKw.MonthlyKw | classes/generated_kw.py:69-122 | It fails exactly for a month outside 1..12, at the table lookup. Otherwise its day loop returns exactly the month's specified summary. |
| GeneratedKw.MonthVisited | classes/generated_kw.py:157-172 | One more month adds its total, and replaces each yearly best exactly on a strictly greater value, copying the month's day and hour. |
| GeneratedKw.TwoLevelBound | classes/generated_kw.py:163-172 | A best kept month by month over per-month bests bounds the quantity on every day of the year. |
| GeneratedKw.TwoLevelFirst | classes/generated_kw.py:163-172 | A positive best kept month by month is attained at its recorded month and day, and no earlier day of the year reaches it. |
| GeneratedKw.YearTotalProperties | classes/generated_kw.py:155-175 | The year's total is the sum of the 12 month totals and also of the 365 day totals. The averages are total / 365 and total / 12. "Best Month" is the first month with the strictly greatest positive total. |
| GeneratedKw.YearBestDayBound | classes/generated_kw.py:163-166 | The yearly "Best Day" kW is ≥ 0 and at least every daily total of the year. When it is 0, the record is all zeros. |
| GeneratedKw.YearBestDayFirst | classes/generated_kw.py:163-166 | A positive yearly "Best Day" names the month and day of the month of the EARLIEST day of the year with that total. |
| GeneratedKw.YearBestHourBound | classes/generated_kw.py:168-172 | The yearly "Best Hour" kW is ≥ 0 and at least every daily hourly maximum. When it is 0, the record is all zeros. |
| GeneratedKw.YearBestHourFirst | classes/generated_kw.py:168-172 | A positive yearly "Best Hour" names the earliest day of the year reaching it, as month and day of the month, together with that day's hour of maximum. |
| GeneratedKw.YearlyKw | classes/generated_kw.py:124-177 | The month loop returns exactly the year's specified summary. |
| Calculation.MomentData.constructor | data.py:46-57 | The object holds the given input attributes. |
| Calculation.DailyKw | data.py:157-183 | It returns the sum of the power of the hours 0..23 of `m.day` that are built; failures are skipped, and `m` is only read. |
| Calculation.CalcMonth | data.py:185-210 | It fails, leaving `m.day` unchanged, exactly for a month outside 1..12. Otherwise it returns the month's total over days base+1 .. base+length and leaves `m.day` at the month's last day of the year. No other attribute changes. |
| Calculation.CalcYear | data.py:212-227 | It returns the sum of the daily totals of days 1..365 and leaves `m.day` at 365. No other attribute changes. |
| Calculation.TotalsNonNegative | data.py:165-210 | With non-negative hourly power, every day, month and year total is non-negative. |

Behaviour of the code worth noting:

- The code validates neither the day of the year nor the efficiency constant. Days outside 1..365 are
  computed like any other day.
- A month outside 1..12 fails at the table lookup.
- `data.py` overwrites the shared object's `day` instead of building a fresh input for each day.
- The running bests are nested records updated in place.

## Left out

- The values of sine, cosine, inverse sine, inverse cosine and `**`, and floating-point rounding. They are
  uninterpreted functions with only the range facts in `Solar.Lawful`. Numeric scenarios, such as the
  elevation at equinox noon or a worked example for a given city, are therefore not stated.
- The radians/degrees conversions are folded into the `Trig` functions, which take and return degrees.
- Python's distinct exception classes (ValueError from `asin`, ZeroDivisionError, TypeError from complex
  arithmetic, KeyError from the table) are one failure: `Raised` in `Solar`, `None` above it.
- A negative base under a non-integral float power makes a complex number. Such a value stays complex until
  `max(0, ·)` raises, so `Solar.Power` fails at once instead of carrying a complex value.
- Printing: `formatted_print`, `print_data` and the module-level script of `data.py`.
- `Panles.get_constant_eff` and the `CONSTANT_EFF` literal. The efficiency constant is an input.
- The duplicate `MomentData` computation in `data.py` is the same constructor as in
  `classes/moment_data.py`, modelled once by `Solar.Compute`. `Calculation.MomentData` keeps only the input
  attributes. The derived attributes it would carry go stale once `day` is overwritten, and `Calculation`
  never reads them.
- The "Data" label strings of the result dictionaries.
- The aggregators take the constructor as a parameter `gen` (a `Hourly.Generator`). `Hourly.Produce`
  instantiates it with `Solar`.
- The six fixed arguments are bundled as `Hourly.Site`.
- Python's mixing of `int` and `float` in the accumulators (which start at integer 0) is not modelled. All
  values are reals.
- The result dictionaries, including the nested best records mutated in place, are datatype values that
  the loops reassign. No dictionary is shared outside one call, so no aliasing is lost.
- `data.py` fails at line 203 for a month above 13 and at line 205 for other bad months. Both are failures
  before `day` is written, and the model does not tell them apart.

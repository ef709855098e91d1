/** The fixed non-leap calendar shared by both aggregators (classes/generated_kw.py, data.py). */
module Calendar {
  import opened Options
  import opened Folds

  /** Month lengths of a non-leap year, keyed by month number, as the dictionary literal of the source. */
  const DAYS_IN_MONTH: map<int, nat> :=
    map[1 := 31, 2 := 28, 3 := 31, 4 := 30, 5 := 31, 6 := 30,
        7 := 31, 8 := 31, 9 := 30, 10 := 31, 11 := 30, 12 := 31]

  /** Looking a month up in the table succeeds exactly for 1..12; every other key raises. */
  lemma MonthKeys(month: int)
    ensures month in DAYS_IN_MONTH <==> 1 <= month <= 12
    ensures month in DAYS_IN_MONTH ==> 28 <= DAYS_IN_MONTH[month] <= 31
  {
  }

  /** Length of a month 1..12, read from the table. */
  function DaysIn(month: int): (n: nat)
    requires 1 <= month <= 12
    ensures 28 <= n <= 31
  {
    MonthKeys(month);
    DAYS_IN_MONTH[month]
  }

  /** Number of days of the year before the first day of `month` (13 gives the whole year): the running
      sums of the table's lengths. */
  function MonthBase(month: int): (r: nat)
    requires 1 <= month <= 13
  {
    [0, 31, 59, 90, 120, 151, 181, 212, 243, 273, 304, 334, 365][month - 1]
  }

  /** MonthBase is the sum of the lengths of the months before `month`: it starts at 0 and each month adds
      its own length. */
  lemma MonthBaseStep(month: int)
    requires 1 <= month <= 12
    ensures MonthBase(1) == 0
    ensures MonthBase(month + 1) == MonthBase(month) + DaysIn(month)
  {
    MonthKeys(month);
  }

  /** The day-of-year offset as monthly_kw and calc_month compute it, by looking up each earlier month in the
      table: the total length of the months before `month` (0 when there are none), or a failed lookup (None)
      once those months reach one past 12. */
  method DaysBefore(month: int) returns (r: Option<nat>)
    ensures r.None? <==> month > 13
    ensures r.Some? ==> r.value == if month < 1 then 0 else MonthBase(month)
  {
    var base := 0;
    var k := 1;
    while k < month
      invariant 1 <= k <= 13
      invariant k <= month || k == 1
      invariant base == MonthBase(k)
    {
      MonthKeys(k);
      if k !in DAYS_IN_MONTH {
        return None;
      }
      MonthBaseStep(k);
      base := base + DAYS_IN_MONTH[k];
      k := k + 1;
    }
    return Some(base);
  }

  /** The twelve month lengths add up to a 365-day year. */
  lemma YearLength()
    ensures MonthBase(13) == 365
  {
  }

  /** Earlier months start earlier: month a ends no later than month b begins. */
  lemma {:induction false} MonthBaseOrdered(a: int, b: int)
    requires 1 <= a < b <= 13
    ensures MonthBase(a) + DaysIn(a) <= MonthBase(b)
  {
    MonthBaseStep(a);
    if a + 1 < b {
      MonthBaseOrdered(a, b - 1);
      MonthBaseStep(b - 1);
    }
  }

  /** The month ranges MonthBase(m)+1 .. MonthBase(m)+DaysIn(m) tile 1..365: every day of the year lies
      in exactly one month. */
  lemma {:induction false} MonthsTileYear(y: int)
    requires 1 <= y <= 365
    ensures exists m :: 1 <= m <= 12 && MonthBase(m) < y <= MonthBase(m) + DaysIn(m)
    ensures forall m1, m2 ::
      (1 <= m1 <= 12 && 1 <= m2 <= 12
       && MonthBase(m1) < y <= MonthBase(m1) + DaysIn(m1)
       && MonthBase(m2) < y <= MonthBase(m2) + DaysIn(m2)) ==> m1 == m2
  {
    YearLength();
    var m := 1;
    while MonthBase(m) + DaysIn(m) < y
      invariant 1 <= m <= 12
      invariant MonthBase(m) < y
      decreases 12 - m
    {
      if m == 12 {
        assert false;
      }
      m := m + 1;
    }
    forall m1, m2 | 1 <= m1 <= 12 && 1 <= m2 <= 12
      && MonthBase(m1) < y <= MonthBase(m1) + DaysIn(m1)
      && MonthBase(m2) < y <= MonthBase(m2) + DaysIn(m2)
      ensures m1 == m2
    {
      if m1 < m2 {
        MonthBaseOrdered(m1, m2);
      } else if m2 < m1 {
        MonthBaseOrdered(m2, m1);
      }
    }
  }

  /** The values of `f` on the `n` consecutive days of the year after day `base`. */
  function Span(f: int -> real, base: int, n: nat): (r: seq<real>)
    ensures |r| == n
  {
    seq(n, i => f(base + i + 1))
  }

  /** Consecutive runs of days concatenate. */
  lemma SpanSplit(f: int -> real, base: int, n: nat, m: nat)
    ensures Span(f, base, n + m) == Span(f, base, n) + Span(f, base + n, m)
  {
  }

  /** Extending a run by the next day adds that day's value to its sum. */
  lemma SumSpanStep(f: int -> real, base: int, k: nat)
    ensures Sum(Span(f, base, k + 1)) == Sum(Span(f, base, k)) + f(base + k + 1)
  {
    assert Span(f, base, k + 1)[..k] == Span(f, base, k);
  }

  /** The sums of `f` over each month's days, January first. */
  function MonthSums(f: int -> real): (r: seq<real>)
    ensures |r| == 12
  {
    seq(12, i requires 0 <= i < 12 => Sum(Span(f, MonthBase(i + 1), DaysIn(i + 1))))
  }

  /** The days before month k + 1 add up to the sums of the first k months. */
  lemma {:induction false} MonthsPrefix(f: int -> real, k: nat)
    requires k <= 12
    ensures Sum(Span(f, 0, MonthBase(k + 1))) == Sum(MonthSums(f)[..k])
  {
    if k == 0 {
      assert Span(f, 0, MonthBase(1)) == [];
      assert MonthSums(f)[..0] == [];
    } else {
      MonthsPrefix(f, k - 1);
      var before := Span(f, 0, MonthBase(k));
      var current := Span(f, MonthBase(k), DaysIn(k));
      MonthBaseStep(k);
      assert Span(f, 0, MonthBase(k + 1)) == before + current by {
        SpanSplit(f, 0, MonthBase(k), DaysIn(k));
      }
      SumConcat(before, current);
      assert MonthSums(f)[k - 1] == Sum(current);
      SumPrefix(MonthSums(f), k);
    }
  }

  /** Because the month ranges tile 1..365, any per-day quantity summed over the year equals the sum of its
      twelve monthly sums. */
  lemma YearSpansMonths(f: int -> real)
    ensures Sum(Span(f, 0, 365)) == Sum(MonthSums(f))
  {
    MonthsPrefix(f, 12);
    YearLength();
    assert MonthSums(f)[..12] == MonthSums(f);
  }
}

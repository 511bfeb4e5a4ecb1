/** The proleptic Gregorian calendar and ISO weeks, as Python's `date` implements them between year 1 and year 9999. */
module Calendar {

  const MAX_YEAR: int := 9999
  const MAX_ORDINAL: int := 3652059

  datatype Date = Date(year: int, month: int, day: int)

  predicate Leap(y: int) { y % 4 == 0 && (y % 100 != 0 || y % 400 == 0) }

  function YearLength(y: int): int { if Leap(y) then 366 else 365 }

  function MonthLength(y: int, m: int): int
    requires 1 <= m <= 12
  {
    if m == 2 then if Leap(y) then 29 else 28
    else if m == 4 || m == 6 || m == 9 || m == 11 then 30 else 31
  }

  /** Days before January 1 of year `y`, counted from January 1 of year 1. */
  function DaysBeforeYear(y: int): int {
    var p := y - 1;
    365 * p + p / 4 - p / 100 + p / 400
  }

  function DaysBeforeMonth(y: int, m: int): int
    requires 1 <= m <= 13
  {
    if m == 1 then 0 else DaysBeforeMonth(y, m - 1) + MonthLength(y, m - 1)
  }

  predicate IsDate(d: Date) { 1 <= d.year <= MAX_YEAR && 1 <= d.month <= 12 && 1 <= d.day <= MonthLength(d.year, d.month) }

  function Ordinal(d: Date): int
    requires 1 <= d.month <= 12
  {
    DaysBeforeYear(d.year) + DaysBeforeMonth(d.year, d.month) + d.day
  }

  lemma QuotientSteps(y: int, k: int, p: int)
    requires k in {4, 100, 400} && p == y - 1
    ensures y / k == p / k + if y % k == 0 then 1 else 0
  {
    if k == 4 {
      assert y == 4 * (y / 4) + y % 4 && p == 4 * (p / 4) + p % 4;
    } else if k == 100 {
      assert y == 100 * (y / 100) + y % 100 && p == 100 * (p / 100) + p % 100;
    } else {
      assert y == 400 * (y / 400) + y % 400 && p == 400 * (p / 400) + p % 400;
    }
  }

  lemma MultipleOf4(y: int, m: int)
    requires y == 4 * m
    ensures y % 4 == 0
  {
  }

  lemma MultipleOf100(y: int, m: int)
    requires y == 100 * m
    ensures y % 100 == 0
  {
  }

  lemma CenturyYears(y: int)
    ensures y % 400 == 0 ==> y % 100 == 0
    ensures y % 100 == 0 ==> y % 4 == 0
  {
    var q, r := y / 400, y / 100;
    assert y == 400 * q + y % 400 && y == 100 * r + y % 100;
    if y % 400 == 0 {
      MultipleOf100(y, 4 * q);
    }
    if y % 100 == 0 {
      MultipleOf4(y, 25 * r);
    }
  }

  lemma YearAdds(y: int)
    ensures DaysBeforeYear(y + 1) == DaysBeforeYear(y) + YearLength(y)
  {
    var p := y - 1;
    QuotientSteps(y, 4, p);
    QuotientSteps(y, 100, p);
    QuotientSteps(y, 400, p);
    CenturyYears(y);
  }

  lemma {:induction false} YearsGrow(y: int, z: int)
    requires y <= z
    ensures DaysBeforeYear(y) + 365 * (z - y) <= DaysBeforeYear(z)
    decreases z - y
  {
    if y < z {
      YearsGrow(y, z - 1);
      YearAdds(z - 1);
    }
  }

  lemma MonthsFillYear(y: int)
    ensures DaysBeforeMonth(y, 13) == YearLength(y)
  {
    assert DaysBeforeMonth(y, 2) == 31;
    assert DaysBeforeMonth(y, 3) == DaysBeforeMonth(y, 2) + MonthLength(y, 2);
    assert DaysBeforeMonth(y, 4) == DaysBeforeMonth(y, 3) + 31;
    assert DaysBeforeMonth(y, 5) == DaysBeforeMonth(y, 4) + 30;
    assert DaysBeforeMonth(y, 6) == DaysBeforeMonth(y, 5) + 31;
    assert DaysBeforeMonth(y, 7) == DaysBeforeMonth(y, 6) + 30;
    assert DaysBeforeMonth(y, 8) == DaysBeforeMonth(y, 7) + 31;
    assert DaysBeforeMonth(y, 9) == DaysBeforeMonth(y, 8) + 31;
    assert DaysBeforeMonth(y, 10) == DaysBeforeMonth(y, 9) + 30;
    assert DaysBeforeMonth(y, 11) == DaysBeforeMonth(y, 10) + 31;
    assert DaysBeforeMonth(y, 12) == DaysBeforeMonth(y, 11) + 30;
  }

  lemma {:induction false} MonthsGrow(y: int, m: int, k: int)
    requires 1 <= m <= k <= 13
    ensures DaysBeforeMonth(y, m) + 28 * (k - m) <= DaysBeforeMonth(y, k)
    decreases k - m
  {
    if m < k {
      MonthsGrow(y, m, k - 1);
    }
  }

  // ------------------------------------------------------------------
  // From a day number back to a date
  // ------------------------------------------------------------------

  function FindYear(n: int, y: int): (z: int)
    requires DaysBeforeYear(y) < n
    ensures y <= z && DaysBeforeYear(z) < n <= DaysBeforeYear(z + 1)
    decreases n - DaysBeforeYear(y)
  {
    YearAdds(y);
    if n <= DaysBeforeYear(y + 1) then y else FindYear(n, y + 1)
  }

  function FindMonth(y: int, k: int, m: int): (r: int)
    requires 1 <= m <= 12 && DaysBeforeMonth(y, m) < k <= YearLength(y)
    ensures m <= r <= 12 && DaysBeforeMonth(y, r) < k <= DaysBeforeMonth(y, r) + MonthLength(y, r)
    decreases 12 - m
  {
    MonthsFillYear(y);
    if k <= DaysBeforeMonth(y, m) + MonthLength(y, m) then m else FindMonth(y, k, m + 1)
  }

  function FromOrdinal(n: int): (d: Date)
    requires 1 <= n <= MAX_ORDINAL
    ensures IsDate(d) && Ordinal(d) == n
  {
    var y := FindYear(n, 1);
    YearAdds(y);
    assert y <= MAX_YEAR by {
      if y > MAX_YEAR {
        YearsGrow(MAX_YEAR + 1, y);
      }
    }
    var m := FindMonth(y, n - DaysBeforeYear(y), 1);
    Date(y, m, n - DaysBeforeYear(y) - DaysBeforeMonth(y, m))
  }

  lemma OrdinalInRange(d: Date)
    requires IsDate(d)
    ensures 1 <= Ordinal(d) <= MAX_ORDINAL
    ensures DaysBeforeYear(d.year) < Ordinal(d) <= DaysBeforeYear(d.year + 1)
    ensures DaysBeforeMonth(d.year, d.month) < Ordinal(d) - DaysBeforeYear(d.year) <= DaysBeforeMonth(d.year, d.month + 1)
  {
    YearAdds(d.year);
    MonthsFillYear(d.year);
    MonthsGrow(d.year, 1, d.month);
    MonthsGrow(d.year, d.month + 1, 13);
    YearsGrow(1, d.year);
    YearsGrow(d.year + 1, MAX_YEAR + 1);
  }

  predicate Earlier(a: Date, b: Date) {
    a.year < b.year || (a.year == b.year && (a.month < b.month || (a.month == b.month && a.day < b.day)))
  }

  lemma EarlierIsSmaller(a: Date, b: Date)
    requires IsDate(a) && IsDate(b) && Earlier(a, b)
    ensures Ordinal(a) < Ordinal(b)
  {
    OrdinalInRange(a);
    OrdinalInRange(b);
    if a.year < b.year {
      YearsGrow(a.year + 1, b.year);
    } else if a.month < b.month {
      MonthsGrow(a.year, a.month + 1, b.month);
    }
  }

  /** Day numbers tell dates apart. */
  lemma OrdinalsDiffer(a: Date, b: Date)
    requires IsDate(a) && IsDate(b) && Ordinal(a) == Ordinal(b)
    ensures a == b
  {
    if Earlier(a, b) {
      EarlierIsSmaller(a, b);
    } else if Earlier(b, a) {
      EarlierIsSmaller(b, a);
    }
  }

  lemma OrdinalRoundTrip(d: Date)
    requires IsDate(d)
    ensures 1 <= Ordinal(d) <= MAX_ORDINAL && FromOrdinal(Ordinal(d)) == d
  {
    OrdinalInRange(d);
    OrdinalsDiffer(FromOrdinal(Ordinal(d)), d);
  }

  // ------------------------------------------------------------------
  // ISO weeks
  // ------------------------------------------------------------------

  /** Monday is 0. January 1 of year 1 is a Monday. */
  function Weekday(n: int): int { (n + 6) % 7 }

  function MondayOf(n: int): int { n - Weekday(n) }

  /** The Monday of the week that contains the first Thursday of a year beginning on day `first`. */
  function Week1From(first: int): int { MondayOf(first) + if Weekday(first) > 3 then 7 else 0 }

  function Week1Monday(y: int): int { Week1From(DaysBeforeYear(y) + 1) }

  /** The year has a week 53: it starts on a Thursday, or on a Wednesday and is a leap year. */
  predicate LongYear(y: int) {
    var first := Weekday(DaysBeforeYear(y) + 1);
    first == 3 || (first == 2 && Leap(y))
  }

  predicate IsWeek(y: int, w: int) {
    1 <= y <= MAX_YEAR && (1 <= w <= 52 || (w == 53 && LongYear(y)))
  }

  function WeekStart(y: int, w: int): int { Week1Monday(y) + 7 * (w - 1) }

  /** The number of the week, counted from the first. */
  function WeekNumber(n: int): int { (n + 6) / 7 }

  lemma Weeks(n: int)
    ensures n + 6 == 7 * WeekNumber(n) + Weekday(n) && 0 <= Weekday(n) <= 6
  {
  }

  lemma WeekdayIs(n: int, q: int, r: int)
    requires n + 6 == 7 * q + r && 0 <= r <= 6
    ensures Weekday(n) == r && WeekNumber(n) == q && MondayOf(n) == n - r
  {
  }

  lemma MondayIsMonday(n: int)
    ensures Weekday(MondayOf(n)) == 0 && MondayOf(n) <= n <= MondayOf(n) + 6
    ensures MondayOf(MondayOf(n)) == MondayOf(n)
  {
    Weeks(n);
    WeekdayIs(n - Weekday(n), WeekNumber(n), 0);
  }

  lemma Week1Shape(first: int)
    ensures Weekday(Week1From(first)) == 0 && first - 3 <= Week1From(first) <= first + 3
  {
    Weeks(first);
    WeekdayIs(first - Weekday(first), WeekNumber(first), 0);
    WeekdayIs(first - Weekday(first) + 7, WeekNumber(first) + 1, 0);
  }

  lemma Week1IsMonday(y: int)
    ensures Weekday(Week1Monday(y)) == 0
    ensures DaysBeforeYear(y) - 2 <= Week1Monday(y) <= DaysBeforeYear(y) + 4
  {
    Week1Shape(DaysBeforeYear(y) + 1);
  }

  lemma Week1Steps(first: int, next: int, length: int)
    requires next == first + length && (length == 365 || length == 366)
    ensures Week1From(next) ==
      Week1From(first) + if Weekday(first) == 3 || (Weekday(first) == 2 && length == 366) then 371 else 364
  {
    Weeks(first);
    var q, r := WeekNumber(first), Weekday(first) + (length - 364);
    if r <= 6 {
      WeekdayIs(next, q + 52, r);
    } else {
      WeekdayIs(next, q + 53, r - 7);
    }
  }

  /** A year has 53 weeks when it is long and 52 otherwise. */
  lemma WeeksInYear(y: int)
    ensures Week1Monday(y + 1) == Week1Monday(y) + if LongYear(y) then 371 else 364
  {
    YearAdds(y);
    Week1Steps(DaysBeforeYear(y) + 1, DaysBeforeYear(y + 1) + 1, YearLength(y));
  }

  lemma {:induction false} Week1Grows(y: int, z: int)
    requires y <= z
    ensures Week1Monday(y) + 364 * (z - y) <= Week1Monday(z)
    decreases z - y
  {
    if y < z {
      Week1Grows(y, z - 1);
      WeeksInYear(z - 1);
    }
  }

  /** The ISO year and week of a day: those of its week's Thursday. */
  function IsoYear(n: int): int
    requires n >= 1
  {
    FindYear(MondayOf(n) + 3, 1)
  }

  function IsoWeek(n: int): int
    requires n >= 1
  {
    (MondayOf(n) - Week1Monday(IsoYear(n))) / 7 + 1
  }

  /** A Monday lies in the ISO year whose week 1 begins at or before it and whose successor's begins after it. */
  lemma IsoYearFits(n: int)
    requires n >= 1
    ensures var y := IsoYear(n); Week1Monday(y) <= MondayOf(n) < Week1Monday(y + 1)
  {
    var y := IsoYear(n);
    MondayIsMonday(n);
    YearAdds(y);
    ThursdayDecides(y, MondayOf(n));
    ThursdayDecides(y + 1, MondayOf(n));
  }

  lemma ThursdayOfWeek1(first: int, monday: int)
    requires Weekday(monday) == 0
    ensures Week1From(first) <= monday <==> first < monday + 4
  {
    Weeks(first);
    Weeks(monday);
  }

  /** A week belongs to a year or a later one exactly when its Thursday does. */
  lemma ThursdayDecides(y: int, monday: int)
    requires Weekday(monday) == 0
    ensures Week1Monday(y) <= monday <==> DaysBeforeYear(y) < monday + 3
  {
    ThursdayOfWeek1(DaysBeforeYear(y) + 1, monday);
  }

  lemma MondaysApart(a: int, b: int)
    requires Weekday(a) == 0 && Weekday(b) == 0
    ensures b - a == 7 * (WeekNumber(b) - WeekNumber(a)) && (b - a) / 7 == WeekNumber(b) - WeekNumber(a)
  {
    Weeks(a);
    Weeks(b);
  }

  lemma IsoWeekIsWeek(n: int)
    requires 1 <= n && MondayOf(n) + 6 <= MAX_ORDINAL
    ensures IsWeek(IsoYear(n), IsoWeek(n)) && WeekStart(IsoYear(n), IsoWeek(n)) == MondayOf(n)
  {
    var y := IsoYear(n);
    IsoYearFits(n);
    WeeksInYear(y);
    Week1IsMonday(y);
    MondayIsMonday(n);
    MondaysApart(Week1Monday(y), MondayOf(n));
    if y > MAX_YEAR {
      YearsGrow(MAX_YEAR + 1, y);
    }
  }

  /** The weeks of an earlier year begin earlier. */
  lemma EarlierYearsFirst(y: int, w: int, z: int, v: int)
    requires IsWeek(y, w) && IsWeek(z, v) && y < z
    ensures WeekStart(y, w) < WeekStart(z, v)
  {
    WeeksInYear(y);
    Week1Grows(y + 1, z);
  }

  /** Two weeks that begin on the same day are the same week. */
  lemma WeekStartsDiffer(y: int, w: int, z: int, v: int)
    requires IsWeek(y, w) && IsWeek(z, v) && WeekStart(y, w) == WeekStart(z, v)
    ensures y == z && w == v
  {
    if y < z {
      EarlierYearsFirst(y, w, z, v);
    } else if z < y {
      EarlierYearsFirst(z, v, y, w);
    }
  }

  lemma WeekStartIsMonday(y: int, w: int)
    ensures Weekday(WeekStart(y, w)) == 0
  {
    Week1IsMonday(y);
    var monday := Week1Monday(y);
    Weeks(monday);
    WeekdayIs(monday + 7 * (w - 1), WeekNumber(monday) + w - 1, 0);
  }

  lemma MondayWithin(monday: int, n: int)
    requires Weekday(monday) == 0
    ensures monday <= n <= monday + 6 <==> monday == MondayOf(n)
  {
    Weeks(monday);
    Weeks(n);
  }

  /** A day lies in the seven days of a week exactly when that week begins on the day's Monday. */
  lemma InWeek(n: int, y: int, w: int)
    ensures WeekStart(y, w) <= n <= WeekStart(y, w) + 6 <==> WeekStart(y, w) == MondayOf(n)
  {
    WeekStartIsMonday(y, w);
    MondayWithin(WeekStart(y, w), n);
  }

  /** Every day whose week lies inside the calendar is in exactly one week. */
  lemma EveryDayInOneWeek(n: int, y: int, w: int)
    requires 1 <= n && MondayOf(n) + 6 <= MAX_ORDINAL && IsWeek(y, w)
    ensures WeekStart(y, w) <= n <= WeekStart(y, w) + 6 <==> (y, w) == (IsoYear(n), IsoWeek(n))
  {
    InWeek(n, y, w);
    IsoWeekIsWeek(n);
    if WeekStart(y, w) == MondayOf(n) {
      WeekStartsDiffer(y, w, IsoYear(n), IsoWeek(n));
    }
  }
}

/** Resolving a period name to a range of dates.
    Models `resolve_period`, `_month_end` and `_normalize_period` in gubbi/tools/context.py. */
module Periods {
  import opened Prelude
  import opened Calendar

  datatype Resolution =
    | Resolved(from: Date, to: Date)
    | Invalid          // ValueError
    | Overflows        // OverflowError, which only the week and month names relative to today let escape

  // ------------------------------------------------------------------
  // Names
  // ------------------------------------------------------------------

  predicate IsGap(c: char) { IsSpace(c) || c == '_' }

  function LowerChar(c: char): char { if 'A' <= c <= 'Z' then c + 32 as char else c }

  function Lower(s: string): string { seq(|s|, i requires 0 <= i < |s| => LowerChar(s[i])) }

  /** `re.sub(r"[\s_]+", "-", s)` */
  function Hyphenate(s: string): string
    decreases |s|
  {
    if s == "" then ""
    else if IsGap(s[0]) then "-" + Hyphenate(StripLeft(s[1..], IsGap))
    else [s[0]] + Hyphenate(s[1..])
  }

  function Normalize(period: string): string { Hyphenate(Lower(Strip(period, IsSpace))) }

  predicate AllDigits(s: string) { s != "" && forall i :: 0 <= i < |s| ==> IsDigit(s[i]) }

  function DigitsValue(s: string): int
    requires forall i :: 0 <= i < |s| ==> IsDigit(s[i])
  {
    if s == "" then 0 else 10 * DigitsValue(s[..|s| - 1]) + (s[|s| - 1] as int - '0' as int)
  }

  /** `int(s)`: an optional sign and digits. */
  function ParseInt(s: string): Option<int> {
    var body := if s != "" && (s[0] == '+' || s[0] == '-') then s[1..] else s;
    if !AllDigits(body) then None
    else if s[0] == '-' then Some(-DigitsValue(body)) else Some(DigitsValue(body))
  }

  predicate SeparatorAt(s: string, i: nat) { i + 1 < |s| && s[i] == '-' && s[i + 1] == 'w' }

  predicate HasSeparator(s: string, from: nat) { exists i :: from <= i < |s| && SeparatorAt(s, i) }

  /** The position of the first "-w". */
  function FindSeparator(s: string, i: nat): (j: nat)
    requires HasSeparator(s, i)
    ensures i <= j && SeparatorAt(s, j) && forall k :: i <= k < j ==> !SeparatorAt(s, k)
    decreases |s| - i
  {
    if SeparatorAt(s, i) then i else FindSeparator(s, i + 1)
  }

  // ------------------------------------------------------------------
  // Resolution
  // ------------------------------------------------------------------

  function MonthEnd(year: int, month: int): Date
    requires 1 <= year <= MAX_YEAR && 1 <= month <= 12
  {
    if month == 12 then Date(year, 12, 31)
    else
      OrdinalInRange(Date(year, month + 1, 1));
      MonthsGrow(year, 1, month + 1);
      YearsGrow(1, year);
      FromOrdinal(Ordinal(Date(year, month + 1, 1)) - 1)
  }

  /** Seven days from day number `start`, or the overflow that building them raises. */
  function SevenDays(start: int): Resolution {
    if InCalendar(start) then Resolved(FromOrdinal(start), FromOrdinal(start + 6)) else Overflows
  }

  predicate InCalendar(start: int) { 1 <= start && start + 6 <= MAX_ORDINAL }

  function LastMonth(today: Date): Resolution
    requires IsDate(today)
  {
    var before := Ordinal(Date(today.year, today.month, 1)) - 1;
    if before < 1 then Overflows
    else
      OrdinalInRange(Date(today.year, today.month, 1));
      var end := FromOrdinal(before);
      Resolved(end.(day := 1), end)
  }

  /** YYYY-WNN; both kinds of error are caught here. */
  function ResolveWeek(period: string): Resolution {
    if !HasSeparator(period, 0) then Invalid
    else
      var i := FindSeparator(period, 0);
      if HasSeparator(period, i + 2) || i == 0 || !AllDigits(period[i + 2..]) || ParseInt(period[..i]).None? then Invalid
      else
        var year, week := ParseInt(period[..i]).value, DigitsValue(period[i + 2..]);
        if !IsWeek(year, week) || SevenDays(WeekStart(year, week)).Overflows? then Invalid
        else SevenDays(WeekStart(year, week))
  }

  predicate YearShape(period: string) { |period| == 4 && AllDigits(period) && DigitsValue(period) >= 1 }

  predicate MonthShape(period: string) {
    && |period| == 7 && period[4] == '-' && AllDigits(period[5..]) && ParseInt(period[..4]).Some?
    && 1 <= ParseInt(period[..4]).value <= MAX_YEAR && 1 <= DigitsValue(period[5..]) <= 12
  }

  function FourDigits(s: string): (n: int)
    requires |s| == 4 && AllDigits(s)
    ensures n == DigitsValue(s) && 0 <= n <= MAX_YEAR
  {
    assert DigitsValue(s[..0]) == 0;
    assert s[..1][..0] == s[..0] && s[..2][..1] == s[..1] && s[..3][..2] == s[..2] && s[..4] == s && s[..|s| - 1] == s[..3];
    assert DigitsValue(s[..1]) == s[0] as int - 48;
    assert DigitsValue(s[..2]) == 10 * DigitsValue(s[..1]) + s[1] as int - 48;
    assert DigitsValue(s[..3]) == 10 * DigitsValue(s[..2]) + s[2] as int - 48;
    DigitsValue(s)
  }

  /** The forms that do not depend on today. */
  function ResolveAbsolute(period: string): Resolution {
    if YearShape(period) then
      var year := FourDigits(period);
      Resolved(Date(year, 1, 1), Date(year, 12, 31))
    else if MonthShape(period) then
      var year, month := ParseInt(period[..4]).value, DigitsValue(period[5..]);
      Resolved(Date(year, month, 1), MonthEnd(year, month))
    else ResolveWeek(period)
  }

  datatype Form = Today | ThisWeek | LastWeek | ThisMonth | LastMonthForm | Absolute(period: string)

  function FormOf(period: string): Form {
    if period == "today" then Today
    else if period == "this-week" then ThisWeek
    else if period == "last-week" then LastWeek
    else if period == "this-month" then ThisMonth
    else if period == "last-month" then LastMonthForm
    else Absolute(period)
  }

  function ResolveForm(form: Form, today: Date): Resolution
    requires IsDate(today)
  {
    match form
    case Today => Resolved(today, today)
    case ThisWeek => SevenDays(MondayOf(Ordinal(today)))
    case LastWeek => SevenDays(MondayOf(Ordinal(today)) - 7)
    case ThisMonth => Resolved(today.(day := 1), MonthEnd(today.year, today.month))
    case LastMonthForm => LastMonth(today)
    case Absolute(period) => ResolveAbsolute(period)
  }

  function ResolvePeriod(name: string, today: Date): Resolution
    requires IsDate(today)
  {
    ResolveForm(FormOf(Normalize(name)), today)
  }

  /** The range of a resolved period contains the date. */
  predicate Covers(r: Resolution, d: Date)
    requires IsDate(d)
  {
    r.Resolved? && IsDate(r.from) && IsDate(r.to) && Ordinal(r.from) <= Ordinal(d) <= Ordinal(r.to)
  }

  // ------------------------------------------------------------------
  // Names relative to today
  // ------------------------------------------------------------------

  predicate Clean(s: string) { forall i :: 0 <= i < |s| ==> !IsGap(s[i]) }

  lemma {:induction false} CleanHasNoGaps(s: string)
    requires Clean(s)
    ensures Hyphenate(s) == s && Strip(s, IsSpace) == s
  {
    if s != "" {
      assert Clean(s[1..]);
      CleanHasNoGaps(s[1..]);
    }
  }

  /** A name without gaps only has its letters lowered. */
  lemma CleanIsLowered(s: string)
    requires Clean(s)
    ensures Normalize(s) == Lower(s)
  {
    CleanHasNoGaps(s);
    assert Clean(Lower(s));
    CleanHasNoGaps(Lower(s));
  }

  lemma MonthEndIs(year: int, month: int)
    requires 1 <= year <= MAX_YEAR && 1 <= month <= 12
    ensures MonthEnd(year, month) == Date(year, month, MonthLength(year, month))
  {
    if month < 12 {
      var last := Date(year, month, MonthLength(year, month));
      OrdinalRoundTrip(last);
      assert Ordinal(last) == Ordinal(Date(year, month + 1, 1)) - 1;
    }
  }

  lemma WeekLeavesCalendar(n: int)
    requires 1 <= n <= MAX_ORDINAL
    ensures InCalendar(MondayOf(n)) <==> n <= MAX_ORDINAL - 5
    ensures InCalendar(MondayOf(n) - 7) <==> n > 7
  {
    Weeks(n);
    assert MAX_ORDINAL + 2 == 7 * 521723;
  }

  lemma LastMonthOverflows(today: Date)
    requires IsDate(today)
    ensures LastMonth(today).Overflows? <==> today.year == 1 && today.month == 1
  {
    var first := Date(today.year, today.month, 1);
    OrdinalInRange(first);
    if today.year > 1 {
      YearsGrow(1, today.year);
      MonthsGrow(today.year, 1, today.month);
    } else if today.month > 1 {
      MonthsGrow(1, 1, today.month);
    }
  }

  lemma AbsoluteNeverOverflows(period: string)
    ensures !ResolveAbsolute(period).Overflows?
  {
  }

  lemma FormOverflows(form: Form, today: Date)
    requires IsDate(today)
    ensures ResolveForm(form, today).Overflows? <==>
      match form
      case ThisWeek => Ordinal(today) > MAX_ORDINAL - 5
      case LastWeek => Ordinal(today) <= 7
      case LastMonthForm => today.year == 1 && today.month == 1
      case _ => false
  {
    OrdinalInRange(today);
    match form
    case ThisWeek => WeekLeavesCalendar(Ordinal(today));
    case LastWeek => WeekLeavesCalendar(Ordinal(today));
    case LastMonthForm => LastMonthOverflows(today);
    case Absolute(period) => AbsoluteNeverOverflows(period);
    case _ =>
  }

  lemma FormsOfNames(s: string)
    ensures FormOf(s) == ThisWeek <==> s == "this-week"
    ensures FormOf(s) == LastWeek <==> s == "last-week"
    ensures FormOf(s) == LastMonthForm <==> s == "last-month"
  {
  }

  /** The names relative to today fail exactly where their range leaves the calendar: this week in the last five
      days before year 10000, last week in the first seven days of year 1, last month in January of year 1. They
      fail with an overflow, not with the documented ValueError. No other name does. */
  lemma OverflowsExactly(name: string, today: Date)
    requires IsDate(today)
    ensures ResolvePeriod(name, today).Overflows? <==>
      || (Normalize(name) == "this-week" && Ordinal(today) > MAX_ORDINAL - 5)
      || (Normalize(name) == "last-week" && Ordinal(today) <= 7)
      || (Normalize(name) == "last-month" && today.year == 1 && today.month == 1)
  {
    var s := Normalize(name);
    FormOverflows(FormOf(s), today);
    FormsOfNames(s);
  }

  /** The names relative to today are in normal form. */
  lemma NameNormalizes(name: string)
    requires Clean(name) && forall i :: 0 <= i < |name| ==> 'a' <= name[i] <= 'z' || name[i] == '-'
    ensures Normalize(name) == name
  {
    CleanIsLowered(name);
    assert Lower(name) == name;
  }

  /** Near the end of the calendar there is no "this week". */
  lemma ThisWeekOverflows(today: Date)
    requires IsDate(today) && Ordinal(today) > MAX_ORDINAL - 5
    ensures ResolvePeriod("this-week", today) == Overflows
  {
    var name := "this-week";
    NameNormalizes(name);
    assert FormOf(name) == ThisWeek;
    OverflowsExactly(name, today);
  }

  /** The concrete case: Monday the 27th of December 9999. */
  lemma LastMonday()
    ensures IsDate(Date(9999, 12, 27)) && Ordinal(Date(9999, 12, 27)) == MAX_ORDINAL - 4
  {
    MonthsFillYear(9999);
    YearAdds(9999);
    assert DaysBeforeMonth(9999, 13) == DaysBeforeMonth(9999, 12) + 31;
  }

  predicate SevenDaysFromMonday(r: Resolution) {
    && r.Resolved? && IsDate(r.from) && IsDate(r.to)
    && Weekday(Ordinal(r.from)) == 0 && Ordinal(r.to) == Ordinal(r.from) + 6
  }

  lemma SevenDaysAre(start: int)
    requires Weekday(start) == 0 && SevenDays(start).Resolved?
    ensures SevenDaysFromMonday(SevenDays(start)) && Ordinal(SevenDays(start).from) == start
  {
  }

  lemma WeekAround(start: int, d: Date, n: int, r: Resolution)
    requires IsDate(d) && n == Ordinal(d) && Weekday(start) == 0 && start <= n <= start + 6 && r == SevenDays(start) && r.Resolved?
    ensures SevenDaysFromMonday(r) && Covers(r, d) && Ordinal(r.from) == start
  {
  }

  lemma WeekBefore(monday: int, last: int, r: Resolution)
    requires Weekday(monday) == 0 && last == monday - 7 && r == SevenDays(last) && r.Resolved?
    ensures SevenDaysFromMonday(r) && Ordinal(r.to) + 1 == monday
  {
    Weeks(monday);
    WeekdayIs(last, WeekNumber(monday) - 1, 0);
    SevenDaysAre(last);
  }

  lemma MondaysOf(n: int) returns (monday: int, last: int)
    requires 1 <= n <= MAX_ORDINAL
    ensures monday == MondayOf(n) && last == MondayOf(n) - 7
    ensures Weekday(monday) == 0 && monday <= n <= monday + 6
    ensures (InCalendar(monday) <==> n <= MAX_ORDINAL - 5) && (InCalendar(last) <==> n > 7)
  {
    MondayIsMonday(n);
    WeekLeavesCalendar(n);
    monday, last := MondayOf(n), MondayOf(n) - 7;
  }

  lemma ThisWeekName(today: Date, name: string)
    requires IsDate(today) && name == "this-week"
    ensures ResolvePeriod(name, today) == ResolveForm(ThisWeek, today)
  {
    NameNormalizes(name);
    assert FormOf(name) == ThisWeek;
  }

  lemma LastWeekName(today: Date, name: string)
    requires IsDate(today) && name == "last-week"
    ensures ResolvePeriod(name, today) == ResolveForm(LastWeek, today)
  {
    NameNormalizes(name);
    assert FormOf(name) == LastWeek;
  }

  lemma ThisMonthName(today: Date, name: string)
    requires IsDate(today) && name == "this-month"
    ensures ResolvePeriod(name, today) == ResolveForm(ThisMonth, today)
  {
    NameNormalizes(name);
    assert FormOf(name) == ThisMonth;
  }

  lemma LastMonthName(today: Date, name: string)
    requires IsDate(today) && name == "last-month"
    ensures ResolvePeriod(name, today) == ResolveForm(LastMonthForm, today)
  {
    NameNormalizes(name);
    assert FormOf(name) == LastMonthForm;
  }

  /** `today` is that day alone. */
  lemma TodayIsItself(today: Date, name: string)
    requires IsDate(today) && name == "today"
    ensures ResolvePeriod(name, today) == Resolved(today, today)
  {
    NameNormalizes(name);
    assert FormOf(name) == Today;
  }

  /** `this-week` is the seven days around today, and `last-week` ends the day before it begins. */
  lemma WeeksAbut(today: Date)
    requires IsDate(today)
    ensures var now, before := ResolvePeriod("this-week", today), ResolvePeriod("last-week", today);
      && (if Ordinal(today) <= MAX_ORDINAL - 5 then SevenDaysFromMonday(now) && Covers(now, today) else now == Overflows)
      && (if Ordinal(today) > 7 then SevenDaysFromMonday(before) else before == Overflows)
      && (now.Resolved? && before.Resolved? ==> Ordinal(before.to) + 1 == Ordinal(now.from))
  {
    ThisWeekName(today, "this-week");
    LastWeekName(today, "last-week");
    WeekFormsAbut(today, ResolveForm(ThisWeek, today), ResolveForm(LastWeek, today));
  }

  lemma WeekFormsAbut(today: Date, now: Resolution, before: Resolution)
    requires IsDate(today) && now == ResolveForm(ThisWeek, today) && before == ResolveForm(LastWeek, today)
    ensures if Ordinal(today) <= MAX_ORDINAL - 5 then SevenDaysFromMonday(now) && Covers(now, today) else now == Overflows
    ensures if Ordinal(today) > 7 then SevenDaysFromMonday(before) else before == Overflows
    ensures now.Resolved? && before.Resolved? ==> Ordinal(before.to) + 1 == Ordinal(now.from)
  {
    var n := DayNumber(today);
    ThisWeekHolds(today, n, now);
    LastWeekHolds(today, n, before);
  }

  lemma DayNumber(today: Date) returns (n: int)
    requires IsDate(today)
    ensures n == Ordinal(today) && 1 <= n <= MAX_ORDINAL
  {
    n := Ordinal(today);
    OrdinalInRange(today);
  }

  lemma ThisWeekHolds(today: Date, n: int, now: Resolution)
    requires IsDate(today) && n == Ordinal(today) && 1 <= n <= MAX_ORDINAL && now == ResolveForm(ThisWeek, today)
    ensures if n <= MAX_ORDINAL - 5 then SevenDaysFromMonday(now) && Covers(now, today) && Ordinal(now.from) == MondayOf(n)
            else now == Overflows
  {
    var monday, _ := MondaysOf(n);
    ThisWeekIs(today);
    if now.Resolved? {
      WeekAround(monday, today, n, now);
    }
  }

  lemma LastWeekHolds(today: Date, n: int, before: Resolution)
    requires IsDate(today) && n == Ordinal(today) && 1 <= n <= MAX_ORDINAL && before == ResolveForm(LastWeek, today)
    ensures if n > 7 then SevenDaysFromMonday(before) && Ordinal(before.to) + 1 == MondayOf(n) else before == Overflows
  {
    var monday, last := MondaysOf(n);
    LastWeekIs(today, last);
    if n > 7 {
      WeekBefore(monday, last, before);
    }
  }

  lemma ThisWeekIs(today: Date)
    requires IsDate(today)
    ensures ResolveForm(ThisWeek, today) == SevenDays(MondayOf(Ordinal(today)))
  {
  }

  lemma LastWeekIs(today: Date, last: int)
    requires IsDate(today) && last == MondayOf(Ordinal(today)) - 7
    ensures ResolveForm(LastWeek, today) == if InCalendar(last) then SevenDays(last) else Overflows
  {
  }

  predicate WholeMonth(r: Resolution, year: int, month: int) {
    && 1 <= year <= MAX_YEAR && 1 <= month <= 12
    && r == Resolved(Date(year, month, 1), Date(year, month, MonthLength(year, month)))
  }

  /** The month before. */
  function Previous(year: int, month: int): (int, int) { if month == 1 then (year - 1, 12) else (year, month - 1) }

  lemma DayBeforeMonth(today: Date, year: int, month: int) returns (last: Date, before: int)
    requires IsDate(today) && (today.year > 1 || today.month > 1) && (year, month) == Previous(today.year, today.month)
    ensures 1 <= year <= MAX_YEAR && 1 <= month <= 12
    ensures before == Ordinal(Date(today.year, today.month, 1)) - 1 && IsDate(last) && before == Ordinal(last)
    ensures 1 <= before <= MAX_ORDINAL && FromOrdinal(before) == last
    ensures last == Date(year, month, MonthLength(year, month))
  {
    last := Date(year, month, MonthLength(year, month));
    before := Ordinal(last);
    LastDayBefore(today.year, today.month, last);
    OrdinalRoundTrip(last);
  }

  lemma LastDayBefore(year: int, month: int, last: Date)
    requires 1 <= year <= MAX_YEAR && 1 <= month <= 12 && (year > 1 || month > 1)
    requires last == if month == 1 then Date(year - 1, 12, 31) else Date(year, month - 1, MonthLength(year, month - 1))
    ensures Ordinal(last) == Ordinal(Date(year, month, 1)) - 1
  {
    if month == 1 {
      YearAdds(year - 1);
      MonthsFillYear(year - 1);
    }
  }

  lemma LastMonthIs(today: Date, year: int, month: int)
    requires IsDate(today) && (today.year > 1 || today.month > 1) && (year, month) == Previous(today.year, today.month)
    ensures WholeMonth(LastMonth(today), year, month)
    ensures Ordinal(LastMonth(today).to) + 1 == Ordinal(Date(today.year, today.month, 1))
  {
    var last, before := DayBeforeMonth(today, year, month);
    LastMonthEnds(today, before, last);
  }

  lemma LastMonthEnds(today: Date, before: int, last: Date)
    requires IsDate(today) && before == Ordinal(Date(today.year, today.month, 1)) - 1
    requires 1 <= before <= MAX_ORDINAL && FromOrdinal(before) == last
    ensures LastMonth(today) == Resolved(last.(day := 1), last)
  {
  }

  /** `this-month` is the whole month of today; `last-month` is the whole month before it and ends the day before it
      begins. */
  lemma MonthsAbut(today: Date)
    requires IsDate(today)
    ensures var now, before := ResolvePeriod("this-month", today), ResolvePeriod("last-month", today);
      && WholeMonth(now, today.year, today.month)
      && (if today.year == 1 && today.month == 1 then before == Overflows
          else
            && WholeMonth(before, Previous(today.year, today.month).0, Previous(today.year, today.month).1)
            && Ordinal(before.to) + 1 == Ordinal(now.from))
  {
    ThisMonthName(today, "this-month");
    LastMonthName(today, "last-month");
    MonthFormsAbut(today, ResolveForm(ThisMonth, today), ResolveForm(LastMonthForm, today));
  }

  lemma MonthFormsAbut(today: Date, now: Resolution, before: Resolution)
    requires IsDate(today) && now == ResolveForm(ThisMonth, today) && before == ResolveForm(LastMonthForm, today)
    ensures WholeMonth(now, today.year, today.month)
    ensures before == Overflows <==> today.year == 1 && today.month == 1
    ensures before != Overflows ==>
      && WholeMonth(before, Previous(today.year, today.month).0, Previous(today.year, today.month).1)
      && Ordinal(before.to) + 1 == Ordinal(now.from)
  {
    MonthEndIs(today.year, today.month);
    LastMonthOverflows(today);
    if today.year > 1 || today.month > 1 {
      LastMonthIs(today, Previous(today.year, today.month).0, Previous(today.year, today.month).1);
    }
  }

  // ------------------------------------------------------------------
  // The canonical names
  // ------------------------------------------------------------------

  function Digit(n: int): char
    requires 0 <= n <= 9
  {
    "0123456789"[n]
  }

  function TwoDigits(n: int): string
    requires 0 <= n <= 99
  {
    [Digit(n / 10), Digit(n % 10)]
  }

  function YearName(y: int): string
    requires 0 <= y <= 9999
  {
    TwoDigits(y / 100) + TwoDigits(y % 100)
  }

  function MonthName(y: int, m: int): string
    requires 0 <= y <= 9999 && 0 <= m <= 99
  {
    YearName(y) + "-" + TwoDigits(m)
  }

  function WeekName(y: int, w: int): string
    requires 0 <= y <= 9999 && 0 <= w <= 99
  {
    YearName(y) + "-W" + TwoDigits(w)
  }

  lemma DigitIs(n: int)
    requires 0 <= n <= 9
    ensures IsDigit(Digit(n)) && Digit(n) as int - '0' as int == n && LowerChar(Digit(n)) == Digit(n) && !IsGap(Digit(n))
  {
  }

  lemma TwoDigitsAre(n: int)
    requires 0 <= n <= 99
    ensures AllDigits(TwoDigits(n)) && DigitsValue(TwoDigits(n)) == n && Clean(TwoDigits(n)) && Lower(TwoDigits(n)) == TwoDigits(n)
  {
    DigitIs(n / 10);
    DigitIs(n % 10);
    var s := TwoDigits(n);
    assert s[..1] == [Digit(n / 10)] && s[..1][..0] == "";
    assert DigitsValue(s[..1]) == n / 10;
  }

  lemma YearNameIs(y: int)
    requires 0 <= y <= 9999
    ensures |YearName(y)| == 4 && AllDigits(YearName(y)) && DigitsValue(YearName(y)) == y
    ensures Clean(YearName(y)) && Lower(YearName(y)) == YearName(y) && ParseInt(YearName(y)) == Some(y)
  {
    var s, a, b := YearName(y), TwoDigits(y / 100), TwoDigits(y % 100);
    TwoDigitsAre(y / 100);
    TwoDigitsAre(y % 100);
    DigitIs(y % 100 / 10);
    DigitIs(y % 100 % 10);
    assert s[..2] == a && s[..3][..2] == a && s[..3] == a + [b[0]] && s[..3][2] == b[0];
    assert DigitsValue(s[..3]) == 10 * (y / 100) + y % 100 / 10;
    assert s[..|s| - 1] == s[..3];
    assert forall i :: 0 <= i < 4 ==> s[i] == if i < 2 then a[i] else b[i - 2];
    assert s[0] != '+' && s[0] != '-' by {
      assert IsDigit(a[0]);
    }
  }

  lemma CleanAppend(a: string, b: string)
    requires Clean(a) && Clean(b)
    ensures Clean(a + b) && Lower(a + b) == Lower(a) + Lower(b)
  {
  }

  lemma YearNormalizes(y: int)
    requires 0 <= y <= 9999
    ensures Normalize(YearName(y)) == YearName(y)
  {
    YearNameIs(y);
    CleanIsLowered(YearName(y));
  }

  lemma MonthNormalizes(y: int, n: int)
    requires 0 <= y <= 9999 && 0 <= n <= 99
    ensures Normalize(MonthName(y, n)) == MonthName(y, n)
  {
    YearNameIs(y);
    TwoDigitsAre(n);
    CleanAppend(YearName(y), "-");
    CleanAppend(YearName(y) + "-", TwoDigits(n));
    CleanIsLowered(MonthName(y, n));
    assert Lower("-") == "-";
  }

  lemma WeekNormalizes(y: int, n: int)
    requires 0 <= y <= 9999 && 0 <= n <= 99
    ensures Normalize(WeekName(y, n)) == YearName(y) + "-w" + TwoDigits(n)
  {
    YearNameIs(y);
    TwoDigitsAre(n);
    CleanAppend(YearName(y), "-W");
    CleanAppend(YearName(y) + "-W", TwoDigits(n));
    CleanIsLowered(WeekName(y, n));
    assert Lower("-W") == "-w";
  }

  /** What the canonical names look like once normalized. */
  lemma NamesNormalize(y: int, n: int)
    requires 0 <= y <= 9999 && 0 <= n <= 99
    ensures Normalize(YearName(y)) == YearName(y)
    ensures Normalize(MonthName(y, n)) == MonthName(y, n)
    ensures Normalize(WeekName(y, n)) == YearName(y) + "-w" + TwoDigits(n)
  {
    YearNormalizes(y);
    MonthNormalizes(y, n);
    WeekNormalizes(y, n);
  }

  lemma {:induction false} HyphenateFrom(a: string, rest: string)
    requires Clean(a)
    ensures Hyphenate(a + rest) == a + Hyphenate(rest)
  {
    if a == "" {
      assert a + rest == rest;
      assert a + Hyphenate(rest) == Hyphenate(rest);
    } else {
      assert (a + rest)[1..] == a[1..] + rest && (a + rest)[0] == a[0];
      HyphenateFrom(a[1..], rest);
    }
  }

  lemma {:induction false} SpanOver(run: string, rest: string, p: char -> bool)
    requires (forall i :: 0 <= i < |run| ==> p(run[i])) && (rest == "" || !p(rest[0]))
    ensures Span(run + rest, p) == |run| && StripLeft(run + rest, p) == rest
  {
    if run == "" {
      assert run + rest == rest;
    } else {
      assert (run + rest)[1..] == run[1..] + rest;
      SpanOver(run[1..], rest, p);
    }
    assert (run + rest)[|run|..] == rest;
  }

  lemma {:induction false} StripRightOver(s: string, run: string, p: char -> bool)
    requires (forall i :: 0 <= i < |run| ==> p(run[i])) && (s == "" || !p(s[|s| - 1]))
    ensures StripRight(s + run, p) == s
  {
    if run == "" {
      assert s + run == s;
    } else {
      assert (s + run)[..|s + run| - 1] == s + run[..|run| - 1];
      StripRightOver(s, run[..|run| - 1], p);
    }
  }

  lemma GapsHyphenate(gap: string, b: string)
    requires gap != "" && b != "" && Clean(b) && forall i :: 0 <= i < |gap| ==> IsGap(gap[i])
    ensures Hyphenate(gap + b) == "-" + b
  {
    assert (gap + b)[1..] == gap[1..] + b && (gap + b)[0] == gap[0];
    SpanOver(gap[1..], b, IsGap);
    CleanHasNoGaps(b);
  }

  lemma GapsStayLow(gap: string)
    requires forall i :: 0 <= i < |gap| ==> IsGap(gap[i])
    ensures Lower(gap) == gap
  {
  }

  /** However a name of two words is spaced, underscored and capitalised, normalization joins the words in lower case
      with one hyphen. */
  lemma SpacedNamesNormalize(pre: string, a: string, gap: string, b: string, post: string)
    requires a != "" && Clean(a) && b != "" && Clean(b) && gap != "" && forall i :: 0 <= i < |gap| ==> IsGap(gap[i])
    requires (forall i :: 0 <= i < |pre| ==> IsSpace(pre[i])) && forall i :: 0 <= i < |post| ==> IsSpace(post[i])
    ensures Normalize(pre + (a + (gap + b)) + post) == Lower(a) + ("-" + Lower(b))
  {
    var middle := a + (gap + b);
    assert middle[0] == a[0] && middle[|middle| - 1] == b[|b| - 1];
    assert pre + middle + post == pre + (middle + post);
    assert (middle + post)[0] == a[0];
    SpanOver(pre, middle + post, IsSpace);
    StripRightOver(middle, post, IsSpace);
    LowersJoin(a, gap, b);
    assert Clean(Lower(a)) && Clean(Lower(b));
    HyphenateFrom(Lower(a), gap + Lower(b));
    GapsHyphenate(gap, Lower(b));
  }

  lemma LowersJoin(a: string, gap: string, b: string)
    requires forall i :: 0 <= i < |gap| ==> IsGap(gap[i])
    ensures Lower(a + (gap + b)) == Lower(a) + (gap + Lower(b))
  {
    GapsStayLow(gap);
    assert Lower(gap + b) == Lower(gap) + Lower(b);
    assert Lower(a + (gap + b)) == Lower(a) + Lower(gap + b);
  }

  /** A normalized name that starts with a digit is none of the names relative to today. */
  lemma DigitsAreAbsolute(period: string)
    requires period != "" && IsDigit(period[0])
    ensures FormOf(period) == Absolute(period)
  {
    assert "today"[0] == 't' && "this-week"[0] == 't' && "this-month"[0] == 't' && "last-week"[0] == 'l' && "last-month"[0] == 'l';
  }

  /** YYYY: the whole year; only 0000 is refused. */
  lemma YearsResolve(y: int, today: Date)
    requires 0 <= y <= 9999 && IsDate(today)
    ensures y > 0 ==> ResolvePeriod(YearName(y), today) == Resolved(Date(y, 1, 1), Date(y, 12, 31))
    ensures y == 0 ==> ResolvePeriod(YearName(y), today) == Invalid
  {
    YearNormalizes(y);
    YearNameIs(y);
    AbsoluteResolves(YearName(y), YearName(y), today);
    forall i | 0 <= i < 4 ensures !SeparatorAt(YearName(y), i) {
      assert IsDigit(YearName(y)[i]);
    }
  }

  lemma MonthNameSplits(y: int, m: int)
    requires 0 <= y <= 9999 && 0 <= m <= 99
    ensures var s := MonthName(y, m);
      && |s| == 7 && s[..4] == YearName(y) && s[4] == '-' && s[5..] == TwoDigits(m) && IsDigit(s[0]) && !HasSeparator(s, 0)
  {
    var s := MonthName(y, m);
    YearNameIs(y);
    TwoDigitsAre(m);
    assert s[..4] == YearName(y) && s[5..] == TwoDigits(m) && s[4] == '-';
    assert s[0] == YearName(y)[0];
    forall i | 0 <= i < 7 ensures !SeparatorAt(s, i) {
      assert i < 4 ==> IsDigit(s[..4][i]);
      assert i > 4 ==> IsDigit(s[5..][i - 5]);
      assert i == 4 ==> IsDigit(s[5..][0]);
    }
  }

  lemma MonthNameShape(y: int, m: int)
    requires 0 <= y <= 9999 && 0 <= m <= 99
    ensures var s := MonthName(y, m);
      && !YearShape(s) && !HasSeparator(s, 0)
      && (MonthShape(s) <==> y > 0 && 1 <= m <= 12)
      && (MonthShape(s) ==> ParseInt(s[..4]).value == y && DigitsValue(s[5..]) == m)
  {
    YearNameIs(y);
    TwoDigitsAre(m);
    MonthNameSplits(y, m);
  }

  lemma AbsoluteResolves(name: string, s: string, today: Date)
    requires Normalize(name) == s && s != "" && IsDigit(s[0]) && IsDate(today)
    ensures ResolvePeriod(name, today) == ResolveAbsolute(s)
  {
    DigitsAreAbsolute(s);
  }

  /** YYYY-MM: the whole month of an existing month of a year from 1 to 9999. */
  lemma MonthsResolve(y: int, m: int, today: Date)
    requires 0 <= y <= 9999 && 0 <= m <= 99 && IsDate(today)
    ensures y > 0 && 1 <= m <= 12 ==> WholeMonth(ResolvePeriod(MonthName(y, m), today), y, m)
    ensures !(y > 0 && 1 <= m <= 12) ==> ResolvePeriod(MonthName(y, m), today) == Invalid
  {
    var s := MonthName(y, m);
    MonthNormalizes(y, m);
    MonthNameSplits(y, m);
    AbsoluteResolves(s, s, today);
    MonthNameShape(y, m);
    if y > 0 && 1 <= m <= 12 {
      MonthEndIs(y, m);
    }
  }

  lemma WeekNameSplits(y: int, w: int)
    requires 0 <= y <= 9999 && 0 <= w <= 99
    ensures var s := YearName(y) + "-w" + TwoDigits(w);
      && |s| == 8 && HasSeparator(s, 0) && FindSeparator(s, 0) == 4 && !HasSeparator(s, 6)
      && s[..4] == YearName(y) && s[6..] == TwoDigits(w) && IsDigit(s[0])
  {
    var s := YearName(y) + "-w" + TwoDigits(w);
    YearNameIs(y);
    TwoDigitsAre(w);
    assert s[..4] == YearName(y) && s[6..] == TwoDigits(w) && s[4] == '-' && s[5] == 'w';
    assert SeparatorAt(s, 4);
    forall i | 0 <= i < 4 ensures !SeparatorAt(s, i) {
      assert IsDigit(s[..4][i]);
    }
    forall i | 6 <= i < 8 ensures !SeparatorAt(s, i) {
      assert IsDigit(s[6..][i - 6]);
    }
  }

  /** YYYY-WNN: the seven days of an existing week that lies inside the calendar, nothing otherwise. */
  lemma WeeksResolve(y: int, w: int, today: Date)
    requires 0 <= y <= 9999 && 0 <= w <= 99 && IsDate(today)
    ensures IsWeek(y, w) && InCalendar(WeekStart(y, w)) ==> ResolvePeriod(WeekName(y, w), today) == SevenDays(WeekStart(y, w))
    ensures !(IsWeek(y, w) && InCalendar(WeekStart(y, w))) ==> ResolvePeriod(WeekName(y, w), today) == Invalid
  {
    var s := YearName(y) + "-w" + TwoDigits(w);
    WeekNormalizes(y, w);
    YearNameIs(y);
    TwoDigitsAre(w);
    WeekNameSplits(y, w);
    AbsoluteResolves(WeekName(y, w), s, today);
    assert ResolveAbsolute(s) == ResolveWeek(s);
  }

  // ------------------------------------------------------------------
  // Weeks and months tile the calendar
  // ------------------------------------------------------------------

  /** Every accepted week is seven days from a Monday, and the week after it begins the day after it ends. */
  lemma AcceptedWeeksAbut(y: int, w: int, today: Date)
    requires 0 <= y <= 9999 && 0 <= w <= 99 && IsDate(today) && ResolvePeriod(WeekName(y, w), today).Resolved?
    ensures SevenDaysFromMonday(ResolvePeriod(WeekName(y, w), today))
    ensures Ordinal(ResolvePeriod(WeekName(y, w), today).to) + 1 ==
      if IsWeek(y, w + 1) then WeekStart(y, w + 1) else WeekStart(y + 1, 1)
  {
    WeeksResolve(y, w, today);
    WeekStartIsMonday(y, w);
    SevenDaysAre(WeekStart(y, w));
    WeeksInYear(y);
  }

  /** Every date whose week lies inside the calendar is in the range of exactly one accepted YYYY-WNN. */
  lemma EveryDateInOneWeek(d: Date, y: int, w: int, today: Date)
    requires IsDate(d) && IsDate(today) && InCalendar(MondayOf(Ordinal(d)))
    requires 0 <= y <= 9999 && 0 <= w <= 99
    ensures Ordinal(d) >= 1 && IsWeek(IsoYear(Ordinal(d)), IsoWeek(Ordinal(d)))
    ensures Covers(ResolvePeriod(WeekName(y, w), today), d) <==> (y, w) == (IsoYear(Ordinal(d)), IsoWeek(Ordinal(d)))
  {
    var n := Ordinal(d);
    OrdinalInRange(d);
    IsoWeekIsWeek(n);
    WeeksResolve(y, w, today);
    if IsWeek(y, w) {
      EveryDayInOneWeek(n, y, w);
      InWeek(n, y, w);
      if InCalendar(WeekStart(y, w)) {
        WeekStartIsMonday(y, w);
        SevenDaysAre(WeekStart(y, w));
      }
    }
  }

  /** Every date is in the range of exactly one accepted YYYY-MM, that of its own year and month. */
  lemma EveryDateInOneMonth(d: Date, y: int, m: int, today: Date)
    requires IsDate(d) && IsDate(today) && 0 <= y <= 9999 && 0 <= m <= 99
    ensures Covers(ResolvePeriod(MonthName(y, m), today), d) <==> y == d.year && m == d.month
  {
    MonthsResolve(y, m, today);
    if y > 0 && 1 <= m <= 12 {
      BetweenDates(Date(y, m, 1), Date(y, m, MonthLength(y, m)), d);
    }
  }

  /** Every date is in the range of exactly one accepted YYYY, that of its own year: so the twelve months of a year
      partition the range of the year. */
  lemma EveryDateInOneYear(d: Date, y: int, today: Date)
    requires IsDate(d) && IsDate(today) && 0 <= y <= 9999
    ensures Covers(ResolvePeriod(YearName(y), today), d) <==> y == d.year
  {
    YearsResolve(y, today);
    if y > 0 {
      BetweenDates(Date(y, 1, 1), Date(y, 12, 31), d);
    }
  }

  /** Day numbers order dates as their years, months and days do. */
  lemma BetweenDates(a: Date, b: Date, d: Date)
    requires IsDate(a) && IsDate(b) && IsDate(d)
    ensures Ordinal(a) <= Ordinal(d) <= Ordinal(b) <==> !Earlier(d, a) && !Earlier(b, d)
  {
    if Earlier(d, a) {
      EarlierIsSmaller(d, a);
    } else if Earlier(a, d) {
      EarlierIsSmaller(a, d);
    }
    if Earlier(b, d) {
      EarlierIsSmaller(b, d);
    } else if Earlier(d, b) {
      EarlierIsSmaller(d, b);
    }
  }
}

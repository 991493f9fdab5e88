/**
 The period calendar of budget-service.  An instant is an integer number of nanoseconds
 since 1970-01-01T00:00:00Z and a day is the number of whole days since that date, both
 unbounded in both directions (proleptic Gregorian calendar).
 */
module Calendar {

  type Instant = int

  datatype Civil = Civil(year: int, month: int, day: int)

  /** `Unrecognised` stands for any stored string other than the three cadences. */
  datatype Period = Weekly | Monthly | Yearly | Unrecognised(name: string)

  // ---------- Gregorian years ----------

  predicate IsLeap(y: int) {
    y % 4 == 0 && (y % 100 != 0 || y % 400 == 0)
  }

  function YearLength(y: int): int {
    if IsLeap(y) then 366 else 365
  }

  /** Day number of 1 January of year y: the lengths of the years in between, summed. */
  function YearStart(y: int): int
    decreases if y < 1970 then 1970 - y else y - 1970
  {
    if y == 1970 then 0
    else if y > 1970 then YearStart(y - 1) + YearLength(y - 1)
    else YearStart(y + 1) - YearLength(y)
  }

  /** The year holding day n, searched from 1970. */
  function YearOf(n: int): (y: int)
    ensures YearStart(y) <= n < YearStart(y) + YearLength(y)
  {
    if n >= 0 then YearUp(1970, n) else YearDown(1969, n)
  }

  function YearUp(y: int, n: int): (r: int)
    requires 1970 <= y && YearStart(y) <= n
    ensures YearStart(r) <= n < YearStart(r) + YearLength(r)
    decreases n - YearStart(y)
  {
    if n < YearStart(y) + YearLength(y) then y else YearUp(y + 1, n)
  }

  function YearDown(y: int, n: int): (r: int)
    requires y < 1970 && n < YearStart(y) + YearLength(y)
    ensures YearStart(r) <= n < YearStart(r) + YearLength(r)
    decreases YearStart(y) - n
  {
    if YearStart(y) <= n then y else YearDown(y - 1, n)
  }

  lemma YearStep(y: int)
    ensures YearStart(y + 1) == YearStart(y) + YearLength(y)
  {
  }

  lemma {:induction false} YearStartMonotone(y: int, z: int)
    requires y <= z
    ensures YearStart(y) + 365 * (z - y) <= YearStart(z)
    decreases z - y
  {
    if y < z {
      YearStep(z - 1);
      YearStartMonotone(y, z - 1);
    }
  }

  // ---------- Months and civil dates ----------

  /** Days of year y that precede month m; m == 13 gives the length of the year. */
  function DaysBeforeMonth(y: int, m: int): int
    requires 1 <= m <= 13
  {
    [0, 31, 59, 90, 120, 151, 181, 212, 243, 273, 304, 334, 365][m - 1] + (if m > 2 && IsLeap(y) then 1 else 0)
  }

  /** Day number of day d of month m of year y; d may lie outside the month. */
  function DayNumber(y: int, m: int, d: int): int
    requires 1 <= m <= 12
  {
    YearStart(y) + DaysBeforeMonth(y, m) + d - 1
  }

  predicate ValidCivil(c: Civil) {
    && 1 <= c.month <= 12
    && 1 <= c.day <= DaysBeforeMonth(c.year, c.month + 1) - DaysBeforeMonth(c.year, c.month)
  }

  function MonthOf(y: int, yday: int): (m: int)
    ensures 1 <= m <= 12
    ensures m > 1 ==> DaysBeforeMonth(y, m) <= yday
    ensures m < 12 ==> yday < DaysBeforeMonth(y, m + 1)
  {
    var e := if IsLeap(y) then 1 else 0;
    if yday < 31 then 1
    else if yday < 59 + e then 2
    else if yday < 90 + e then 3
    else if yday < 120 + e then 4
    else if yday < 151 + e then 5
    else if yday < 181 + e then 6
    else if yday < 212 + e then 7
    else if yday < 243 + e then 8
    else if yday < 273 + e then 9
    else if yday < 304 + e then 10
    else if yday < 334 + e then 11
    else 12
  }

  function CivilOf(n: int): Civil {
    var y := YearOf(n);
    var yday := n - YearStart(y);
    var m := MonthOf(y, yday);
    Civil(y, m, yday - DaysBeforeMonth(y, m) + 1)
  }

  /** Every day has a valid civil date, and that date names the day again. */
  lemma CivilNamesDay(n: int)
    ensures ValidCivil(CivilOf(n))
    ensures DayNumber(CivilOf(n).year, CivilOf(n).month, CivilOf(n).day) == n
  {
  }

  lemma YearOfUnique(n: int, y: int)
    requires YearStart(y) <= n < YearStart(y + 1)
    ensures YearOf(n) == y
  {
    hide IsLeap;
    YearStep(YearOf(n));
    var z := YearOf(n);
    if z < y {
      YearStartMonotone(z + 1, y);
    } else if y < z {
      YearStartMonotone(y + 1, z);
    }
  }

  /** The month table of a year starts at 0 and ends where the next year starts. */
  lemma YearTable(y: int)
    ensures DaysBeforeMonth(y, 1) == 0
    ensures YearStart(y) + DaysBeforeMonth(y, 13) == YearStart(y + 1)
    ensures DaysBeforeMonth(y, 13) >= DaysBeforeMonth(y, 12) + 31
  {
    hide IsLeap;
    YearStep(y);
  }

  lemma MonthTableMonotone(y: int, m: int, k: int)
    requires 1 <= m < k <= 13
    ensures DaysBeforeMonth(y, m) + 28 <= DaysBeforeMonth(y, k)
  {
  }

  /** Every valid civil date is the date of the day it names. */
  lemma DayNamesCivil(c: Civil)
    requires ValidCivil(c)
    ensures CivilOf(DayNumber(c.year, c.month, c.day)) == c
  {
    hide IsLeap, YearStart, YearOf, MonthOf;
    var n := DayNumber(c.year, c.month, c.day);
    YearStep(c.year);
    if c.month < 12 {
      MonthTableMonotone(c.year, c.month + 1, 13);
    }
    YearOfUnique(n, c.year);
    var m := CivilOf(n).month;
    if m < c.month {
      MonthTableMonotone(c.year, m, c.month);
      if m + 1 < c.month { MonthTableMonotone(c.year, m + 1, c.month); }
    } else if c.month < m {
      MonthTableMonotone(c.year, c.month, m);
      if c.month + 1 < m { MonthTableMonotone(c.year, c.month + 1, m); }
    }
  }

  // ---------- Instants ----------

  function DayOf(t: Instant): int {
    t / 86_400_000_000_000
  }

  function Midnight(n: int): Instant {
    n * 86_400_000_000_000
  }

  /** Sunday is 0; 1970-01-01 was a Thursday. */
  function Weekday(n: int): int {
    (n + 4) % 7
  }

  /** Go's time.Date at midnight UTC: a day outside the month carries over. */
  function TimeDate(y: int, m: int, d: int): Instant
    requires 1 <= m <= 12
  {
    Midnight(DayNumber(y, m, d))
  }

  /** Go's Time.AddDate(0, 0, k): the day field is shifted and the date normalised again. */
  function AddDays(t: Instant, k: int): Instant {
    var c := CivilOf(DayOf(t));
    TimeDate(c.year, c.month, c.day + k) + t % 86_400_000_000_000
  }

  function CurrentPeriodStart(period: Period, now: Instant): Instant {
    var c := CivilOf(DayOf(now));
    match period
    case Weekly =>
      var offset := (Weekday(DayOf(now)) + 6) % 7;
      AddDays(TimeDate(c.year, c.month, c.day), -offset)
    case Yearly => TimeDate(c.year, 1, 1)
    case Monthly => TimeDate(c.year, c.month, 1)
    case Unrecognised(_) => TimeDate(c.year, c.month, 1)
  }

  // ---------- Periods as numbered intervals of days ----------

  /** Weeks are counted from Monday 1969-12-29, months from January of year 0, years as such. */
  function PeriodIndex(period: Period, n: int): int {
    match period
    case Weekly => (n + 3) / 7
    case Yearly => CivilOf(n).year
    case _ => 12 * CivilOf(n).year + CivilOf(n).month - 1
  }

  ghost function YearOfMonth(i: int): (y: int)
    ensures 12 * y <= i < 12 * y + 12
  {
    assert 12 * (i / 12) <= i < 12 * (i / 12) + 12;
    var y :| 12 * y <= i < 12 * y + 12;
    y
  }

  ghost function FirstDay(period: Period, i: int): int {
    match period
    case Weekly => 7 * i - 3
    case Yearly => YearStart(i)
    case _ => DayNumber(YearOfMonth(i), i - 12 * YearOfMonth(i) + 1, 1)
  }

  lemma FirstDayStep(period: Period, i: int)
    ensures FirstDay(period, i) + 7 <= FirstDay(period, i + 1)
  {
    hide IsLeap, YearStart, YearOf, MonthOf;
    if period.Yearly? {
      YearStep(i);
    } else if !period.Weekly? {
      var y := YearOfMonth(i);
      var m := i - 12 * y + 1;
      YearTable(y);
      YearTable(y + 1);
      MonthTableMonotone(y, m, m + 1);
    }
  }

  lemma {:induction false} FirstDayMonotone(period: Period, i: int, j: int)
    requires i <= j
    ensures FirstDay(period, i) + 7 * (j - i) <= FirstDay(period, j)
    decreases j - i
  {
    hide IsLeap, YearStart, YearOf, MonthOf;
    if i < j {
      FirstDayStep(period, j - 1);
      FirstDayMonotone(period, i, j - 1);
    }
  }

  /** Month m of year y is the one numbered 12 * y + m - 1, and the month after it comes next. */
  lemma MonthNumbers(y: int, m: int)
    requires 1 <= m <= 12
    ensures FirstDay(Monthly, 12 * y + m - 1) == DayNumber(y, m, 1)
    ensures FirstDay(Monthly, 12 * y + m) == if m == 12 then DayNumber(y + 1, 1, 1) else DayNumber(y, m + 1, 1)
  {
    hide DayNumber;
  }

  lemma MonthBrackets(n: int)
    ensures var i := PeriodIndex(Monthly, n); FirstDay(Monthly, i) <= n < FirstDay(Monthly, i + 1)
  {
    hide IsLeap, YearStart, YearOf, MonthOf, DaysBeforeMonth, CivilOf, FirstDay;
    var c := CivilOf(n);
    CivilNamesDay(n);
    MonthNumbers(c.year, c.month);
    YearTable(c.year);
    YearTable(c.year + 1);
  }

  lemma YearBrackets(n: int)
    ensures var i := PeriodIndex(Yearly, n); FirstDay(Yearly, i) <= n < FirstDay(Yearly, i + 1)
  {
    hide YearStart, MonthOf, DaysBeforeMonth;
    YearStep(CivilOf(n).year);
  }

  lemma IndexBrackets(period: Period, n: int)
    ensures FirstDay(period, PeriodIndex(period, n)) <= n < FirstDay(period, PeriodIndex(period, n) + 1)
  {
    hide CivilOf, DayNumber, YearStart;
    YearBrackets(n);
    MonthBrackets(n);
  }

  lemma IndexUnique(period: Period, n: int, i: int)
    requires FirstDay(period, i) <= n < FirstDay(period, i + 1)
    ensures PeriodIndex(period, n) == i
  {
    hide IsLeap, YearStart, YearOf, MonthOf;
    IndexBrackets(period, n);
    var k := PeriodIndex(period, n);
    if k < i {
      FirstDayMonotone(period, k + 1, i);
    } else if i < k {
      FirstDayMonotone(period, i + 1, k);
    }
  }

  /** Shifting the day field moves the day number by the same amount, across months and years. */
  lemma AddDaysShifts(n: int, k: int)
    ensures AddDays(Midnight(n), k) == Midnight(n + k)
  {
    hide IsLeap, YearStart, YearOf, MonthOf;
    CivilNamesDay(n);
  }

  lemma DayOfMidnight(n: int)
    ensures DayOf(Midnight(n)) == n
  {
  }

  /** Going back (weekday + 6) mod 7 days from n reaches the Monday that opens week (n + 3) / 7. */
  lemma MondayOfWeek(n: int)
    ensures n - (Weekday(n) + 6) % 7 == FirstDay(Weekly, (n + 3) / 7)
    ensures Weekday(FirstDay(Weekly, (n + 3) / 7)) == 1
    ensures Weekday(n) == 1 ==> n == FirstDay(Weekly, (n + 3) / 7)
  {
  }

  lemma StartIsFirstDay(period: Period, now: Instant)
    ensures CurrentPeriodStart(period, now) == Midnight(FirstDay(period, PeriodIndex(period, DayOf(now))))
  {
    hide IsLeap, YearStart, YearOf, MonthOf;
    var n := DayOf(now);
    CivilNamesDay(n);
    match period
    case Weekly =>
      MondayOfWeek(n);
      AddDaysShifts(n, -((Weekday(n) + 6) % 7));
    case Yearly =>
      YearTable(CivilOf(n).year);
    case _ =>
      MonthNumbers(CivilOf(n).year, CivilOf(n).month);
  }

  // ---------- What a period start promises ----------

  /** The days that open a period: a Monday, the 1st of a month, or 1 January. */
  predicate OpensPeriod(period: Period, n: int) {
    var c := CivilOf(n);
    match period
    case Weekly => Weekday(n) == 1
    case Yearly => c.month == 1 && c.day == 1
    case _ => c.day == 1
  }

  /** The day after the period opened on day n ends: seven days, one month or one year later. */
  function NextOpening(period: Period, n: int): int {
    var c := CivilOf(n);
    match period
    case Weekly => n + 7
    case Yearly => DayNumber(c.year + 1, 1, 1)
    case _ => if c.month == 12 then DayNumber(c.year + 1, 1, 1) else DayNumber(c.year, c.month + 1, 1)
  }

  predicate IsBoundary(period: Period, s: Instant) {
    s == Midnight(DayOf(s)) && OpensPeriod(period, DayOf(s))
  }

  function NextStart(period: Period, s: Instant): Instant {
    Midnight(NextOpening(period, DayOf(s)))
  }

  predicate SamePeriod(period: Period, a: Instant, b: Instant) {
    var ca, cb := CivilOf(DayOf(a)), CivilOf(DayOf(b));
    match period
    case Weekly => (DayOf(a) + 3) / 7 == (DayOf(b) + 3) / 7
    case Yearly => ca.year == cb.year
    case _ => ca.year == cb.year && ca.month == cb.month
  }

  /** Opening days are the first days of the numbered intervals, and the next one follows. */
  lemma OpeningIsFirstDay(period: Period, n: int)
    requires OpensPeriod(period, n)
    ensures n == FirstDay(period, PeriodIndex(period, n))
    ensures NextOpening(period, n) == FirstDay(period, PeriodIndex(period, n) + 1)
  {
    match period
    case Weekly => MondayOfWeek(n);
    case Yearly => JanuaryFirst(n);
    case _ => FirstOfMonth(n);
  }

  lemma JanuaryFirst(n: int)
    requires OpensPeriod(Yearly, n)
    ensures n == FirstDay(Yearly, PeriodIndex(Yearly, n))
    ensures NextOpening(Yearly, n) == FirstDay(Yearly, PeriodIndex(Yearly, n) + 1)
  {
    hide IsLeap, YearStart, YearLength, YearOf, MonthOf, CivilOf, DaysBeforeMonth;
    CivilNamesDay(n);
    YearTable(CivilOf(n).year);
    YearTable(CivilOf(n).year + 1);
  }

  lemma FirstOfMonth(n: int)
    requires OpensPeriod(Monthly, n)
    ensures n == FirstDay(Monthly, PeriodIndex(Monthly, n))
    ensures NextOpening(Monthly, n) == FirstDay(Monthly, PeriodIndex(Monthly, n) + 1)
  {
    hide CivilOf, DayNumber, FirstDay;
    CivilNamesDay(n);
    MonthNumbers(CivilOf(n).year, CivilOf(n).month);
  }

  lemma FirstDayOpens(period: Period, i: int)
    ensures OpensPeriod(period, FirstDay(period, i))
    ensures PeriodIndex(period, FirstDay(period, i)) == i
  {
    hide IsLeap, YearStart, YearOf, MonthOf;
    FirstDayStep(period, i);
    IndexUnique(period, FirstDay(period, i), i);
    match period
    case Weekly =>
      MondayOfWeek(FirstDay(Weekly, i));
    case Yearly =>
      YearTable(i);
      MonthTableMonotone(i, 1, 2);
      DayNamesCivil(Civil(i, 1, 1));
    case _ =>
      var y := YearOfMonth(i);
      var m := i - 12 * y + 1;
      MonthTableMonotone(y, m, m + 1);
      DayNamesCivil(Civil(y, m, 1));
  }

  lemma NowIsBefore(now: Instant, first: int, next: int)
    requires first <= DayOf(now) < next
    ensures Midnight(first) <= now < Midnight(next)
  {
  }

  /** The start opens a period, and that period contains now. */
  lemma StartBracketsNow(period: Period, now: Instant)
    ensures IsBoundary(period, CurrentPeriodStart(period, now))
    ensures CurrentPeriodStart(period, now) <= now < NextStart(period, CurrentPeriodStart(period, now))
  {
    hide DayOf, Midnight, OpensPeriod, NextOpening, FirstDay, PeriodIndex, CurrentPeriodStart;
    var i := PeriodIndex(period, DayOf(now));
    StartIsFirstDay(period, now);
    IndexBrackets(period, DayOf(now));
    FirstDayOpens(period, i);
    DayOfMidnight(FirstDay(period, i));
    OpeningIsFirstDay(period, FirstDay(period, i));
    NowIsBefore(now, FirstDay(period, i), FirstDay(period, i + 1));
  }

  /** No other instant does: bracketing determines the start. */
  lemma StartIsTheOnlyBracket(period: Period, now: Instant, s: Instant)
    requires IsBoundary(period, s)
    requires s <= now < NextStart(period, s)
    ensures s == CurrentPeriodStart(period, now)
  {
    hide IsLeap, YearStart, YearOf, MonthOf;
    OpeningIsFirstDay(period, DayOf(s));
    IndexUnique(period, DayOf(now), PeriodIndex(period, DayOf(s)));
    StartIsFirstDay(period, now);
  }

  lemma StartIdempotent(period: Period, now: Instant)
    ensures CurrentPeriodStart(period, CurrentPeriodStart(period, now)) == CurrentPeriodStart(period, now)
  {
    hide IsLeap, YearStart, YearOf, MonthOf;
    StartBracketsNow(period, now);
    var s := CurrentPeriodStart(period, now);
    StartIsTheOnlyBracket(period, s, s);
  }

  lemma StartMonotone(period: Period, a: Instant, b: Instant)
    requires a <= b
    ensures CurrentPeriodStart(period, a) <= CurrentPeriodStart(period, b)
  {
    hide IsLeap, YearStart, YearOf, MonthOf;
    StartIsFirstDay(period, a);
    StartIsFirstDay(period, b);
    IndexBrackets(period, DayOf(a));
    IndexBrackets(period, DayOf(b));
    var i, j := PeriodIndex(period, DayOf(a)), PeriodIndex(period, DayOf(b));
    if j < i {
      FirstDayMonotone(period, j + 1, i);
    } else {
      FirstDayMonotone(period, i, j);
    }
  }

  /** Two instants share a start exactly when they share the week, month or year. */
  lemma EqualStartsIffSamePeriod(period: Period, a: Instant, b: Instant)
    ensures CurrentPeriodStart(period, a) == CurrentPeriodStart(period, b) <==> SamePeriod(period, a, b)
  {
    hide CurrentPeriodStart, CivilOf, DayNumber, DayOf, FirstDay;
    StartIsFirstDay(period, a);
    StartIsFirstDay(period, b);
    CivilNamesDay(DayOf(a));
    CivilNamesDay(DayOf(b));
    var i, j := PeriodIndex(period, DayOf(a)), PeriodIndex(period, DayOf(b));
    if i < j {
      FirstDayMonotone(period, i, j);
    } else if j < i {
      FirstDayMonotone(period, j, i);
    }
  }

  /** A week starts on the Monday at most six days before now, whatever month or year that is in. */
  lemma WeekStartsOnMonday(now: Instant)
    ensures var s := CurrentPeriodStart(Weekly, now);
            && s == Midnight(DayOf(s))
            && Weekday(DayOf(s)) == 1
            && DayOf(now) - 6 <= DayOf(s) <= DayOf(now)
  {
    hide IsLeap, YearStart, YearOf, MonthOf;
    StartIsFirstDay(Weekly, now);
    MondayOfWeek(DayOf(now));
    DayOfMidnight(FirstDay(Weekly, (DayOf(now) + 3) / 7));
  }

  // ---------- The Gregorian rules, without the leap test ----------

  /** Days before year y, counted from 1970, by the rule of 4, 100 and 400. */
  function GregorianStart(y: int): int {
    365 * (y - 1970) + (y - 1) / 4 - (y - 1) / 100 + (y - 1) / 400 - 477
  }

  lemma QuotientStep(y: int, d: int)
    requires d > 0
    ensures y / d == (y - 1) / d + (if y % d == 0 then 1 else 0)
  {
    var q, r := (y - 1) / d, (y - 1) % d;
    assert y - 1 == d * q + r;
    if r == d - 1 {
      assert y == d * (q + 1) + 0;
      QuotientOf(y, d, q + 1, 0);
    } else {
      QuotientOf(y, d, q, r + 1);
    }
  }

  lemma QuotientOf(y: int, d: int, q: int, r: int)
    requires d > 0 && 0 <= r < d && y == d * q + r
    ensures y / d == q && y % d == r
  {
    var e := y / d - q;
    assert d * e == r - y % d;
    assert e > 0 ==> d * e >= d;
    assert e < 0 ==> d * e <= -d;
  }

  lemma GregorianStep(y: int)
    ensures GregorianStart(y + 1) - GregorianStart(y)
         == if y % 4 == 0 && (y % 100 != 0 || y % 400 == 0) then 366 else 365
  {
    QuotientStep(y, 4);
    QuotientStep(y, 100);
    QuotientStep(y, 400);
    Multiples(y);
    assert y + 1 - 1 == y;
    StartDifference(y);
    hide GregorianStart;
  }

  lemma StartDifference(y: int)
    ensures GregorianStart(y + 1) - GregorianStart(y)
         == 365 + (y / 4 - (y - 1) / 4) - (y / 100 - (y - 1) / 100) + (y / 400 - (y - 1) / 400)
  {
  }

  lemma Multiples(y: int)
    ensures y % 100 == 0 ==> y % 4 == 0
    ensures y % 400 == 0 ==> y % 100 == 0
  {
  }

  /** Years begin where the Gregorian rule says. */
  lemma {:induction false} YearsAreGregorian(y: int)
    ensures YearStart(y) == 365 * (y - 1970) + (y - 1) / 4 - (y - 1) / 100 + (y - 1) / 400 - 477
    decreases if y < 1970 then 1970 - y else y - 1970
  {
    hide GregorianStart;
    GregorianMeans(y);
    if y == 1970 {
      assert 1969 / 4 == 492 && 1969 / 100 == 19 && 1969 / 400 == 4;
    } else if y > 1970 {
      YearsAreGregorian(y - 1);
      GregorianMeans(y - 1);
      GregorianStep(y - 1);
    } else {
      YearsAreGregorian(y + 1);
      GregorianMeans(y + 1);
      GregorianStep(y);
    }
  }

  lemma GregorianMeans(y: int)
    ensures GregorianStart(y) == 365 * (y - 1970) + (y - 1) / 4 - (y - 1) / 100 + (y - 1) / 400 - 477
  {
  }

  /** The days each month has; February has a 29th exactly in years of 366 days. */
  lemma MonthsAreGregorian(y: int, m: int, d: int)
    ensures ValidCivil(Civil(y, m, d)) ==> 1 <= m <= 12 && 1 <= d <= 31
    ensures 1 <= m <= 12 && 1 <= d <= 28 ==> ValidCivil(Civil(y, m, d))
    ensures ValidCivil(Civil(y, m, 31)) <==> m in {1, 3, 5, 7, 8, 10, 12}
    ensures ValidCivil(Civil(y, m, 30)) <==> 1 <= m <= 12 && m != 2
    ensures ValidCivil(Civil(y, m, 29)) <==> 1 <= m <= 12 && (m == 2 ==> YearStart(y + 1) - YearStart(y) == 366)
  {
    YearStep(y);
  }

  /** 1 January 1970 was day 0 and a Thursday, and the weekday advances by one each day. */
  lemma WeekdaysAdvance(n: int)
    ensures CivilOf(0) == Civil(1970, 1, 1) && Weekday(0) == 4
    ensures 0 <= Weekday(n) <= 6
    ensures Weekday(n + 1) == if Weekday(n) == 6 then 0 else Weekday(n) + 1
  {
    hide CivilOf, YearStart, YearOf;
    EpochIsJanuaryFirst();
  }

  lemma EpochIsJanuaryFirst()
    ensures CivilOf(0) == Civil(1970, 1, 1)
  {
    hide CivilOf;
    assert YearStart(1970) == 0;
    DayNamesCivil(Civil(1970, 1, 1));
  }

  /**
   In Unix seconds: all of March 2026 starts on the 1st, all of 2026 on 1 January, and the week of
   9 March on that Monday; the week of 1 January 2026 starts in the year before, on 29 December.
   */
  lemma StartsIn2026(now: Instant)
    ensures 1_772_323_200 <= now / 1_000_000_000 < 1_775_001_600 ==>
      CurrentPeriodStart(Monthly, now) == 1_772_323_200_000_000_000
    ensures 1_767_225_600 <= now / 1_000_000_000 < 1_798_761_600 ==>
      CurrentPeriodStart(Yearly, now) == 1_767_225_600_000_000_000
    ensures 1_773_014_400 <= now / 1_000_000_000 < 1_773_619_200 ==>
      CurrentPeriodStart(Weekly, now) == 1_773_014_400_000_000_000
    ensures 1_766_966_400 <= now / 1_000_000_000 < 1_767_571_200 ==>
      CurrentPeriodStart(Weekly, now) == 1_766_966_400_000_000_000
  {
    hide CurrentPeriodStart, YearStart, CivilOf, IsBoundary;
    YearsAreGregorian(2026);
    YearsAreGregorian(2027);
    var monthly, yearly := 1_772_323_200_000_000_000, 1_767_225_600_000_000_000;
    March2026();
    if 1_772_323_200 <= now / 1_000_000_000 < 1_775_001_600 {
      StartIsTheOnlyBracket(Monthly, now, monthly);
    }
    if 1_767_225_600 <= now / 1_000_000_000 < 1_798_761_600 {
      StartIsTheOnlyBracket(Yearly, now, yearly);
    }
    if 1_773_014_400 <= now / 1_000_000_000 < 1_773_619_200 {
      StartIsTheOnlyBracket(Weekly, now, 1_773_014_400_000_000_000);
    }
    if 1_766_966_400 <= now / 1_000_000_000 < 1_767_571_200 {
      StartIsTheOnlyBracket(Weekly, now, 1_766_966_400_000_000_000);
    }
  }

  lemma March2026()
    ensures IsBoundary(Monthly, 1_772_323_200_000_000_000)
    ensures NextStart(Monthly, 1_772_323_200_000_000_000) == 1_775_001_600_000_000_000
    ensures IsBoundary(Yearly, 1_767_225_600_000_000_000)
    ensures NextStart(Yearly, 1_767_225_600_000_000_000) == 1_798_761_600_000_000_000
    ensures IsBoundary(Weekly, 1_773_014_400_000_000_000) && IsBoundary(Weekly, 1_766_966_400_000_000_000)
    ensures NextStart(Weekly, 1_773_014_400_000_000_000) == 1_773_619_200_000_000_000
    ensures NextStart(Weekly, 1_766_966_400_000_000_000) == 1_767_571_200_000_000_000
  {
    hide CivilOf, YearStart;
    YearsAreGregorian(2026);
    YearsAreGregorian(2027);
    DayNamesCivil(Civil(2026, 3, 1));
    DayNamesCivil(Civil(2026, 1, 1));
    assert DayNumber(2026, 3, 1) == 20513 && DayNumber(2026, 1, 1) == 20454;
  }
}

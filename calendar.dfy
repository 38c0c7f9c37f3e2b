/**
 * The proleptic Gregorian calendar of Python's `datetime.date`, by day
 * number: day 1 is 0001-01-01 and a date's number is its `toordinal()`.
 * The bot compares, shifts and buckets dates; in this model all of that
 * happens on day numbers, and the conversions between a (year, month, day)
 * triple and a day number are proved to be inverse bijections that keep
 * the calendar order.
 */
module Calendar {

  datatype Date = Date(year: int, month: int, day: int)

  /** The last day Python can represent, 9999-12-31. */
  const MaxDayNumber := 3652059

  predicate IsLeap(y: int)
  {
    y % 4 == 0 && (y % 100 != 0 || y % 400 == 0)
  }

  function DaysInMonth(y: int, m: int): (n: int)
    requires 1 <= m <= 12
    ensures 28 <= n <= 31
  {
    if m == 2 then (if IsLeap(y) then 29 else 28)
    else if m == 4 || m == 6 || m == 9 || m == 11 then 30
    else 31
  }

  function DaysInYear(y: int): int
  {
    if IsLeap(y) then 366 else 365
  }

  /** A date `datetime.date` accepts: years 1 to 9999 and a day that exists in its month. */
  predicate ValidDate(d: Date)
  {
    1 <= d.year <= 9999 && 1 <= d.month <= 12 && 1 <= d.day <= DaysInMonth(d.year, d.month)
  }

  type CalDate = d: Date | ValidDate(d) witness Date(1, 1, 1)

  /** The days in the years before `y` (Python's `_days_before_year`). */
  function DaysBeforeYear(y: int): int
    requires y >= 1
  {
    var p := y - 1;
    p * 365 + p / 4 - p / 100 + p / 400
  }

  /** The days in the months of year `y` before month `m` (Python's `_days_before_month`). */
  function DaysBeforeMonth(y: int, m: int): int
    requires 1 <= m <= 12
  {
    (match m
     case 1 => 0 case 2 => 31 case 3 => 59 case 4 => 90 case 5 => 120 case 6 => 151
     case 7 => 181 case 8 => 212 case 9 => 243 case 10 => 273 case 11 => 304 case _ => 334)
    + (if m > 2 && IsLeap(y) then 1 else 0)
  }

  /** `date.toordinal()`. */
  function DayNumber(d: CalDate): int
  {
    DaysBeforeYear(d.year) + DaysBeforeMonth(d.year, d.month) + d.day
  }

  /** Year `y` adds one to the count of multiples of 4, 100 and 400 exactly when it is one. */
  lemma MultiplesStep(y: int)
    requires y >= 1
    ensures y / 4 == (y - 1) / 4 + (if y % 4 == 0 then 1 else 0)
    ensures y / 100 == (y - 1) / 100 + (if y % 100 == 0 then 1 else 0)
    ensures y / 400 == (y - 1) / 400 + (if y % 400 == 0 then 1 else 0)
    ensures y % 400 == 0 ==> y % 100 == 0
    ensures y % 100 == 0 ==> y % 4 == 0
  {
  }

  /** Each year adds its own length to the running count. */
  lemma YearStep(y: int)
    requires y >= 1
    ensures DaysBeforeYear(y + 1) == DaysBeforeYear(y) + DaysInYear(y)
  {
    MultiplesStep(y);
  }

  /** Later years start strictly later, by at least a year's worth of days. */
  lemma {:induction false} YearsOrdered(a: int, b: int)
    requires 1 <= a < b
    ensures DaysBeforeYear(a) + DaysInYear(a) <= DaysBeforeYear(b)
    decreases b - a
  {
    YearStep(a);
    if a + 1 < b {
      YearsOrdered(a + 1, b);
    }
  }

  /** Each month of a year adds its own length, and the twelve fill the year. */
  lemma MonthStep(y: int, m: int)
    requires 1 <= m <= 12
    ensures DaysBeforeMonth(y, m) + DaysInMonth(y, m) == if m == 12 then DaysInYear(y) else DaysBeforeMonth(y, m + 1)
  {
  }

  /** Later months of a year start after an earlier month has ended. */
  lemma MonthsOrdered(y: int, a: int, b: int)
    requires 1 <= a < b <= 12
    ensures DaysBeforeMonth(y, a) + DaysInMonth(y, a) <= DaysBeforeMonth(y, b)
  {
  }

  /** A date's number lies inside its year. */
  lemma DayNumberInYear(d: CalDate)
    ensures DaysBeforeYear(d.year) < DayNumber(d) <= DaysBeforeYear(d.year) + DaysInYear(d.year)
  {
    MonthStep(d.year, d.month);
    if d.month < 12 {
      MonthsOrdered(d.year, d.month, 12);
      MonthStep(d.year, 12);
    }
  }

  /** The calendar (lexicographic) order of dates. */
  predicate Before(a: Date, b: Date)
  {
    a.year < b.year
    || (a.year == b.year && a.month < b.month)
    || (a.year == b.year && a.month == b.month && a.day < b.day)
  }

  /** Day numbers follow the calendar: an earlier date has a smaller number. */
  lemma {:induction false} DayNumberMonotone(a: CalDate, b: CalDate)
    requires Before(a, b)
    ensures DayNumber(a) < DayNumber(b)
  {
    if a.year < b.year {
      DayNumberInYear(a);
      DayNumberInYear(b);
      YearsOrdered(a.year, b.year);
    } else if a.month < b.month {
      MonthsOrdered(a.year, a.month, b.month);
    }
  }

  /** Day numbers are an order isomorphism: comparing numbers is comparing dates. */
  lemma DayNumberOrder(a: CalDate, b: CalDate)
    ensures Before(a, b) <==> DayNumber(a) < DayNumber(b)
    ensures a == b <==> DayNumber(a) == DayNumber(b)
  {
    if Before(a, b) {
      DayNumberMonotone(a, b);
    } else if Before(b, a) {
      DayNumberMonotone(b, a);
    }
  }

  /** All day numbers of valid dates lie in `[1, MaxDayNumber]`. */
  lemma DayNumberRange(d: CalDate)
    ensures 1 <= DayNumber(d) <= MaxDayNumber
  {
    DayNumberInYear(d);
    if d.year < 9999 {
      YearsOrdered(d.year, 9999);
    }
  }

  /** Day numbers up to `MaxDayNumber` lie in years up to 9999. */
  lemma YearInRange(n: int, y: int)
    requires 1 <= y && DaysBeforeYear(y) < n <= MaxDayNumber
    ensures y <= 9999
  {
    if y > 9999 {
      YearsOrdered(10000, y);
    }
  }

  /** The year holding day `n`, searched upwards from a year `y` that starts before it. */
  function YearContaining(n: int, y: int): (r: int)
    requires 1 <= y && DaysBeforeYear(y) < n
    ensures y <= r && DaysBeforeYear(r) < n <= DaysBeforeYear(r) + DaysInYear(r)
    decreases n - DaysBeforeYear(y)
  {
    YearStep(y);
    if n <= DaysBeforeYear(y) + DaysInYear(y) then y else YearContaining(n, y + 1)
  }

  /** The month of year `y` holding its `k`-th day, searched upwards from month `m`. */
  function MonthContaining(y: int, k: int, m: int): (r: int)
    requires 1 <= m <= 12 && DaysBeforeMonth(y, m) < k <= DaysInYear(y)
    ensures m <= r <= 12 && DaysBeforeMonth(y, r) < k <= DaysBeforeMonth(y, r) + DaysInMonth(y, r)
    decreases 12 - m
  {
    MonthStep(y, m);
    if m == 12 || k <= DaysBeforeMonth(y, m) + DaysInMonth(y, m) then m else MonthContaining(y, k, m + 1)
  }

  /** `date.fromordinal(n)`: the date whose number is `n`. */
  function FromDayNumber(n: int): (d: CalDate)
    requires 1 <= n <= MaxDayNumber
    ensures DayNumber(d) == n
  {
    var y0 := n / 366 + 1;
    var y := YearContaining(n, y0);
    YearInRange(n, y);
    var k := n - DaysBeforeYear(y);
    var m := MonthContaining(y, k, 1);
    Date(y, m, k - DaysBeforeMonth(y, m))
  }

  /** Converting a date to its number and back gives the date. */
  lemma FromDayNumberOfDate(d: CalDate)
    ensures 1 <= DayNumber(d) <= MaxDayNumber
    ensures FromDayNumber(DayNumber(d)) == d
  {
    DayNumberRange(d);
    DayNumberOrder(d, FromDayNumber(DayNumber(d)));
  }

  /** `date.weekday()` of day `n`: Monday is 0 and Sunday 6. */
  function Weekday(n: int): (w: int)
    ensures 0 <= w < 7
  {
    (n + 6) % 7
  }

  /** The Monday that starts the week of day `n`. */
  function Monday(n: int): (r: int)
    ensures Weekday(r) == 0
    ensures n - 6 <= r <= n
    ensures forall m :: r < m <= n ==> Weekday(m) != 0
  {
    n - Weekday(n)
  }

  /** Every day of a week has the same Monday; Monday is monotone. */
  lemma MondayOfWeek(n: int, m: int)
    requires Monday(n) <= m <= n
    ensures Monday(m) == Monday(n)
  {
  }

  /** Mondays keep the order of their days. */
  lemma MondayMonotone(a: int, b: int)
    requires a <= b
    ensures Monday(a) <= Monday(b)
  {
  }

  /** An ISO 8601 week: the ISO year and the week number within it. */
  datatype IsoWeek = IsoWeek(year: int, week: int)

  /**
   * The ISO week whose Thursday is day `th`: the calendar year of that
   * Thursday, and one more than the number of whole weeks between the
   * year's first day (day number `DaysBeforeYear(y) + 1`) and it.
   */
  function IsoWeekOfThursday(th: int): (w: IsoWeek)
    requires 1 <= th <= MaxDayNumber
    ensures 1 <= w.year <= 9999 && 1 <= w.week <= 53
  {
    var d := FromDayNumber(th);
    DayNumberInYear(d);
    IsoWeek(d.year, (th - DaysBeforeYear(d.year) - 1) / 7 + 1)
  }

  /**
   * `date.isocalendar()[:2]` of day `n`: a week belongs to the year of its
   * Thursday and is numbered from the week holding that year's first
   * Thursday (ISO 8601, section 3.2.2; weeks start on Monday).
   */
  function IsoWeekOf(n: int): (w: IsoWeek)
    requires 1 <= n <= MaxDayNumber
    ensures 1 <= w.year <= 9999 && 1 <= w.week <= 53
  {
    ThursdayInRange(n);
    IsoWeekOfThursday(Monday(n) + 3)
  }

  /** Every representable day's week has its Thursday representable too. */
  lemma ThursdayInRange(n: int)
    requires 1 <= n <= MaxDayNumber
    ensures 1 <= Monday(n) && Monday(n) + 3 <= MaxDayNumber
  {
    var q := (n + 6) / 7;
    assert n + 6 == 7 * q + Weekday(n);
    assert q <= 521723;
  }

  /** Days of one Monday-start week share their ISO week. */
  lemma IsoWeekOfMonday(n: int)
    requires 1 <= n <= MaxDayNumber
    ensures 1 <= Monday(n) && IsoWeekOf(Monday(n)) == IsoWeekOf(n)
  {
    hide IsoWeekOfThursday, FromDayNumber, DayNumber, DaysBeforeYear;
    assert Monday(Monday(n)) == Monday(n);
  }

  /** Two Thursdays a whole number of weeks apart with one ISO week are the same day. */
  lemma IsoWeekOfThursdayInjective(a: int, b: int)
    requires 1 <= a <= MaxDayNumber && 1 <= b <= MaxDayNumber
    requires (a - b) % 7 == 0
    requires IsoWeekOfThursday(a) == IsoWeekOfThursday(b)
    ensures a == b
  {
    hide FromDayNumber, DayNumber;
    var da, db := FromDayNumber(a), FromDayNumber(b);
    assert da.year == db.year;
    DayNumberInYear(da);
    DayNumberInYear(db);
    var j := DaysBeforeYear(da.year) + 1;
    assert 0 <= a - j && 0 <= b - j;
    assert (a - j) / 7 == (b - j) / 7;
    DivideByWeek(a - j, b - j);
  }

  lemma SameWeekday(a: int, b: int)
    requires Weekday(a) == Weekday(b)
    ensures (a + 3 - (b + 3)) % 7 == 0
  {
    var qa, qb := (a + 6) / 7, (b + 6) / 7;
    assert a + 6 == 7 * qa + Weekday(a);
    assert b + 6 == 7 * qb + Weekday(b);
    assert a - b == 7 * (qa - qb);
  }

  lemma DivideByWeek(x: int, y: int)
    requires 0 <= x && 0 <= y && x / 7 == y / 7 && (x - y) % 7 == 0
    ensures x == y
  {
  }

  /** Different weeks have different ISO weeks: two Mondays with one ISO week are the same Monday. */
  lemma IsoWeekInjective(a: int, b: int)
    requires 1 <= a <= MaxDayNumber && 1 <= b <= MaxDayNumber
    requires Weekday(a) == 0 && Weekday(b) == 0
    requires IsoWeekOf(a) == IsoWeekOf(b)
    ensures a == b
  {
    hide IsoWeekOfThursday, FromDayNumber, DayNumber, DaysBeforeYear;
    assert Monday(a) == a && Monday(b) == b;
    ThursdayInRange(a);
    ThursdayInRange(b);
    SameWeekday(a, b);
    IsoWeekOfThursdayInjective(a + 3, b + 3);
  }

  /** The number of the month of `d`, counting months from January of year 1. */
  function MonthIndex(d: CalDate): (k: int)
    ensures 0 <= k < 12 * 9999
  {
    (d.year - 1) * 12 + d.month - 1
  }

  /** The first day of the `k`-th month. */
  function FirstOfMonth(k: int): (d: CalDate)
    requires 0 <= k < 12 * 9999
    ensures MonthIndex(d) == k && d.day == 1
  {
    Date(k / 12 + 1, k % 12 + 1, 1)
  }

  /** A date lies on or after the first of its own month and before the first of every later month. */
  lemma MonthWindow(d: CalDate, k: int)
    requires 0 <= k < 12 * 9999
    ensures MonthIndex(d) >= k <==> DayNumber(d) >= DayNumber(FirstOfMonth(k))
  {
    DayNumberOrder(d, FirstOfMonth(k));
  }

  predicate IsDay(n: int)
  {
    1 <= n <= MaxDayNumber
  }

  /** The month index of day `n`. */
  function MonthOf(n: int): (k: int)
    requires IsDay(n)
    ensures 0 <= k < 12 * 9999
  {
    MonthIndex(FromDayNumber(n))
  }

  /** The day number of the first day of month `k`. */
  function MonthStart(k: int): (n: int)
    requires 0 <= k < 12 * 9999
    ensures IsDay(n)
  {
    DayNumberRange(FirstOfMonth(k));
    DayNumber(FirstOfMonth(k))
  }

  /** A month that has begun by day `n` began on or before `n`. */
  lemma MonthStartOnOrBefore(n: int, k: int)
    requires IsDay(n) && 0 <= k <= MonthOf(n)
    ensures MonthStart(k) <= n
  {
    MonthWindow(FromDayNumber(n), k);
  }

  /** A day on or after the first of month `k` lies in month `k` or later. */
  lemma MonthOfAtLeast(n: int, k: int)
    requires IsDay(n) && 0 <= k < 12 * 9999 && MonthStart(k) <= n
    ensures k <= MonthOf(n)
  {
    MonthWindow(FromDayNumber(n), k);
  }

  /** Later months start later. */
  lemma MonthStartMonotone(a: int, b: int)
    requires 0 <= a < b < 12 * 9999
    ensures MonthStart(a) < MonthStart(b)
  {
    MonthWindow(FirstOfMonth(a), b);
  }

  /** The first of month `k` lies in month `k`. */
  lemma MonthOfStart(k: int)
    requires 0 <= k < 12 * 9999
    ensures FromDayNumber(MonthStart(k)) == FirstOfMonth(k)
    ensures MonthOf(MonthStart(k)) == k
  {
    FromDayNumberOfDate(FirstOfMonth(k));
  }

  /** The first of the month of day `n` is `date.replace(day=1)`, `day - 1` days earlier. */
  lemma StartOfOwnMonth(n: int)
    requires IsDay(n)
    ensures var d := FromDayNumber(n);
            && FromDayNumber(MonthStart(MonthOf(n))) == Date(d.year, d.month, 1)
            && n - MonthStart(MonthOf(n)) == d.day - 1
  {
    var d := FromDayNumber(n);
    var k := MonthIndex(d);
    assert k == (d.year - 1) * 12 + (d.month - 1);
    assert FirstOfMonth(k) == Date(d.year, d.month, 1);
    MonthOfStart(k);
  }
}

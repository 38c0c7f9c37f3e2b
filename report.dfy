/**
 * The `/report today|week|month` command: the period keyword and its
 * start date, the sheet rows that become records, the totals over the
 * period, and the zero-filled chart series that pandas builds with a
 * group-sum and a left join on a complete range of buckets.
 *
 * Days inside the report are day numbers (`date.toordinal()`); nutrient
 * amounts are exact reals. pandas turns dates into nanosecond
 * timestamps, which exist only from 1677-09-22 to 2262-04-11; a date
 * outside that range raises, and the handler then sends nothing.
 */
module Report {
  import opened Wrappers
  import opened Text
  import opened Calendar
  import opened DateText
  import opened Numbers

  /** The five numeric columns of a meal: grams, calories, protein, fat, carbohydrates. */
  datatype Nutrients = Nutrients(grams: real, cal: real, prot: real, fat: real, carb: real)

  const Zero: Nutrients := Nutrients(0.0, 0.0, 0.0, 0.0, 0.0)

  function Add(a: Nutrients, b: Nutrients): Nutrients
  {
    Nutrients(a.grams + b.grams, a.cal + b.cal, a.prot + b.prot, a.fat + b.fat, a.carb + b.carb)
  }

  lemma AddAssoc(a: Nutrients, b: Nutrients, c: Nutrients)
    ensures Add(Add(a, b), c) == Add(a, Add(b, c))
  {
  }

  lemma AddRotate(a: Nutrients, b: Nutrients, c: Nutrients)
    ensures Add(Add(a, b), c) == Add(Add(a, c), b)
  {
  }

  /** One sheet row the report keeps: the day number of its date, and its amounts. */
  datatype Record = Record(day: int, amounts: Nutrients)

  /** The first and the last day a pandas timestamp can hold. */
  const PandasFirstDay := 612412
  const PandasLastDay := 825914

  lemma PandasDays()
    ensures DayNumber(Date(1677, 9, 22)) == PandasFirstDay
    ensures DayNumber(Date(2262, 4, 11)) == PandasLastDay
  {
  }

  predicate InPandasRange(n: int)
  {
    PandasFirstDay <= n <= PandasLastDay
  }

  // ---------------------------------------------------------------------
  // The period keyword

  datatype Period = Today | Week | Month

  function Keyword(p: Period): string
  {
    match p
    case Today => "today"
    case Week => "week"
    case Month => "month"
  }

  /** `context.args[0].lower()` compared with the three keywords. */
  function ParsePeriod(arg: string): (r: Option<Period>)
    ensures r.Some? ==> Keyword(r.value) == Lower(arg)
  {
    var a := Lower(arg);
    if a == "today" then Some(Today)
    else if a == "week" then Some(Week)
    else if a == "month" then Some(Month)
    else None
  }

  /** A keyword in any letter case selects its period, and nothing else does. */
  lemma ParsePeriodOfKeyword(arg: string, p: Period)
    ensures ParsePeriod(arg) == Some(p) <==> Lower(arg) == Keyword(p)
  {
  }

  /** The keyword is read without regard to letter case. */
  lemma ParsePeriodIgnoresCase(arg: string)
    ensures ParsePeriod(Lower(arg)) == ParsePeriod(arg)
  {
    LowerIdempotent(arg);
  }

  /** Upper-case keywords are accepted; the Russian button captions are not keywords. */
  lemma ParsePeriodExamples()
    ensures ParsePeriod("WEEK") == Some(Week)
    ensures ParsePeriod("Month") == Some(Month)
    ensures ParsePeriod("неделя") == None
  {
    assert Lower("WEEK") == "week";
    assert Lower("Month") == "month";
    assert Lower("неделя")[0] == 'н';
  }

  /**
   * The first day of the period that ends on day `t`: `t` itself, the
   * Monday of its week (`today - timedelta(days=today.weekday())`), or the
   * first of its month (`today.replace(day=1)`).
   */
  function PeriodStart(p: Period, t: int): int
    requires IsDay(t)
  {
    match p
    case Today => t
    case Week => Monday(t)
    case Month => MonthStart(MonthOf(t))
  }

  /** The period starts on or before today: on a Monday less than a week back, or on the first of the month. */
  lemma PeriodStartFacts(p: Period, t: int)
    requires IsDay(t)
    ensures 1 <= PeriodStart(p, t) <= t
    ensures p == Today ==> PeriodStart(p, t) == t
    ensures p == Week ==> Weekday(PeriodStart(p, t)) == 0 && t - 7 < PeriodStart(p, t)
    ensures p == Month ==> var d := FromDayNumber(t);
                           && FromDayNumber(PeriodStart(p, t)) == Date(d.year, d.month, 1)
                           && t - PeriodStart(p, t) == d.day - 1
  {
    hide FromDayNumber, MonthStart, MonthOf, DayNumber, Monday;
    match p
    case Today =>
    case Week =>
    case Month => StartOfOwnMonth(t);
  }

  // ---------------------------------------------------------------------
  // Sheet rows

  /** The rows below the header (`get_all_values()[1:]`). */
  function DataRows(sheet: seq<seq<string>>): seq<seq<string>>
  {
    if |sheet| == 0 then [] else sheet[1..]
  }

  /**
   * The record one sheet row gives the requesting user, or `None` where
   * the loop body `continue`s: the row belongs to someone else, is too
   * short (an `IndexError` caught by the loop), has an empty calories
   * cell, or has a date in neither accepted format.
   */
  function RowRecord(row: seq<string>, uid: string): Option<Record>
  {
    if |row| < 3 || Strip(row[2]) != uid then None
    else if |row| < 10 then None
    else if Strip(row[6]) == "" then None
    else
      match ParseDate(Strip(row[0]))
      case None => None
      case Some(d) =>
        Some(Record(DayNumber(d), Nutrients(SafeFloat(Strip(row[5])), SafeFloat(Strip(row[6])),
                                            SafeFloat(Strip(row[7])), SafeFloat(Strip(row[8])), SafeFloat(Strip(row[9])))))
  }

  /**
   * A row gives a record exactly when it names the user in column 2, has
   * all ten columns, a non-empty calories cell and a readable date; the
   * record carries that date and the five amounts read by `safe_float`.
   */
  lemma RowRecordKept(row: seq<string>, uid: string)
    ensures RowRecord(row, uid).Some?
        <==> |row| >= 10 && Strip(row[2]) == uid && Strip(row[6]) != "" && ParseDate(Strip(row[0])).Some?
    ensures RowRecord(row, uid).Some? ==>
              && RowRecord(row, uid).value.day == DayNumber(ParseDate(Strip(row[0])).value)
              && RowRecord(row, uid).value.amounts
                 == Nutrients(SafeFloat(Strip(row[5])), SafeFloat(Strip(row[6])), SafeFloat(Strip(row[7])),
                              SafeFloat(Strip(row[8])), SafeFloat(Strip(row[9])))
  {
  }

  /** The records of `uid`, in sheet order. */
  function KeptRecords(rows: seq<seq<string>>, uid: string): (rs: seq<Record>)
    ensures |rs| <= |rows|
  {
    if |rows| == 0 then []
    else
      var front := KeptRecords(rows[..|rows| - 1], uid);
      match RowRecord(rows[|rows| - 1], uid)
      case None => front
      case Some(r) => front + [r]
  }

  /** Every kept record comes from a row of the sheet. */
  lemma {:induction false} KeptRecordsSound(rows: seq<seq<string>>, uid: string, r: Record)
    requires r in KeptRecords(rows, uid)
    ensures exists row :: row in rows && RowRecord(row, uid) == Some(r)
  {
    var front := rows[..|rows| - 1];
    var last := rows[|rows| - 1];
    if RowRecord(last, uid) == Some(r) {
      assert last in rows;
    } else {
      assert r in KeptRecords(front, uid);
      KeptRecordsSound(front, uid, r);
      var row :| row in front && RowRecord(row, uid) == Some(r);
      assert row in rows;
    }
  }

  /** Every row that yields a record contributes it. */
  lemma {:induction false} KeptRecordsComplete(rows: seq<seq<string>>, uid: string, row: seq<string>)
    requires row in rows && RowRecord(row, uid).Some?
    ensures RowRecord(row, uid).value in KeptRecords(rows, uid)
  {
    var front := rows[..|rows| - 1];
    if row == rows[|rows| - 1] {
      assert KeptRecords(rows, uid) == KeptRecords(front, uid) + [RowRecord(row, uid).value];
    } else {
      assert row in front;
      KeptRecordsComplete(front, uid, row);
    }
  }

  /** A row of another user (or one too short to name a user) changes nothing. */
  lemma KeptRecordsIgnoresOthers(rows: seq<seq<string>>, uid: string, row: seq<string>)
    requires |row| < 3 || Strip(row[2]) != uid
    ensures KeptRecords(rows + [row], uid) == KeptRecords(rows, uid)
  {
    assert (rows + [row])[..|rows|] == rows;
  }

  /** The row loop: one pass over the data rows, appending each kept record. */
  method CollectRecords(rows: seq<seq<string>>, uid: string) returns (records: seq<Record>)
    ensures records == KeptRecords(rows, uid)
  {
    records := [];
    var i := 0;
    while i < |rows|
      invariant 0 <= i <= |rows|
      invariant records == KeptRecords(rows[..i], uid)
    {
      assert rows[..i + 1][..i] == rows[..i];
      var row := rows[i];
      i := i + 1;
      if |row| < 3 || Strip(row[2]) != uid {
        continue;
      }
      if |row| < 10 {
        continue;
      }
      var cal := Strip(row[6]);
      if cal == "" {
        continue;
      }
      var date := ParseDate(Strip(row[0]));
      if date.None? {
        continue;
      }
      records := records + [Record(DayNumber(date.value), Nutrients(SafeFloat(Strip(row[5])), SafeFloat(cal),
                                   SafeFloat(Strip(row[7])), SafeFloat(Strip(row[8])), SafeFloat(Strip(row[9]))))];
    }
    assert rows[..i] == rows;
  }

  // ---------------------------------------------------------------------
  // Filters and sums

  /**
   * The records dated from day `lo` to day `hi`, both included, in order:
   * each such record as often as it occurs, every other record never.
   */
  function InWindow(rs: seq<Record>, lo: int, hi: int): (w: seq<Record>)
    ensures |w| <= |rs|
    ensures forall r :: r in w <==> r in rs && lo <= r.day <= hi
    ensures forall r :: multiset(w)[r] == if lo <= r.day <= hi then multiset(rs)[r] else 0
  {
    if |rs| == 0 then []
    else
      var front := InWindow(rs[..|rs| - 1], lo, hi);
      var r := rs[|rs| - 1];
      assert rs == rs[..|rs| - 1] + [r];
      if lo <= r.day <= hi then front + [r] else front
  }

  /** The column sums of a list of records. */
  function Total(rs: seq<Record>): Nutrients
  {
    if |rs| == 0 then Zero else Add(Total(rs[..|rs| - 1]), rs[|rs| - 1].amounts)
  }

  /** Appending a record adds its amounts. */
  lemma TotalSnoc(rs: seq<Record>, r: Record)
    ensures Total(rs + [r]) == Add(Total(rs), r.amounts)
  {
    assert (rs + [r])[..|rs|] == rs;
  }

  /** A record dated inside the window adds its amounts to the totals, however many equal records precede it. */
  lemma WindowedRecordCounted(rs: seq<Record>, r: Record, lo: int, hi: int)
    requires lo <= r.day <= hi
    ensures Total(InWindow(rs + [r], lo, hi)) == Add(Total(InWindow(rs, lo, hi)), r.amounts)
  {
    assert (rs + [r])[..|rs|] == rs;
    TotalSnoc(InWindow(rs, lo, hi), r);
  }

  /** Records dated before the window's start never reach the totals. */
  lemma EarlyRecordIgnored(rs: seq<Record>, r: Record, lo: int, hi: int)
    requires r.day < lo
    ensures Total(InWindow(rs + [r], lo, hi)) == Total(InWindow(rs, lo, hi))
  {
    assert (rs + [r])[..|rs|] == rs;
  }

  /** Records dated after the window's end never reach the totals. */
  lemma FutureRecordIgnored(rs: seq<Record>, r: Record, lo: int, hi: int)
    requires r.day > hi
    ensures Total(InWindow(rs + [r], lo, hi)) == Total(InWindow(rs, lo, hi))
  {
    assert (rs + [r])[..|rs|] == rs;
  }

  // ---------------------------------------------------------------------
  // Chart buckets

  /** The key pandas groups by: the date, the ISO (year, week), or the (year, month). */
  datatype BucketKey = DayKey(day: int) | WeekKey(week: IsoWeek) | MonthKey(year: int, month: int)

  function KeyOf(p: Period, n: int): BucketKey
    requires IsDay(n)
  {
    match p
    case Today => DayKey(n)
    case Week => WeekKey(IsoWeekOf(n))
    case Month =>
      var d := FromDayNumber(n);
      MonthKey(d.year, d.month)
  }

  /** The key as a total function; days outside the calendar never reach the chart. */
  function KeyFunction(p: Period): int -> BucketKey
  {
    n => if IsDay(n) then KeyOf(p, n) else DayKey(n)
  }

  /** 30 days, 12 weeks or 12 months. */
  function BucketCount(p: Period): nat
  {
    if p == Today then 30 else 12
  }

  /**
   * pandas can build the bucket range for day `t`: its first and last
   * timestamps (`chart_start` and today, this Monday, or the first of this
   * month) are both in the timestamp range.
   */
  predicate ChartFits(p: Period, t: int)
  {
    IsDay(t) &&
    match p
    case Today => InPandasRange(t - 29) && InPandasRange(t)
    case Week => InPandasRange(Monday(t) - 77) && InPandasRange(Monday(t))
    case Month =>
      MonthOf(t) >= 11 && InPandasRange(MonthStart(MonthOf(t) - 11)) && InPandasRange(MonthStart(MonthOf(t)))
  }

  /** The first day of bucket `i`: `chart_start` plus `i` days, weeks, or months. */
  function BucketStart(p: Period, t: int, i: int): int
    requires IsDay(t) && 0 <= i < BucketCount(p) && (p == Month ==> MonthOf(t) >= 11)
  {
    match p
    case Today => t - 29 + i
    case Week => Monday(t) - 77 + 7 * i
    case Month => MonthStart(MonthOf(t) - 11 + i)
  }

  /** `chart_start`: the first day of the first bucket. */
  function ChartStart(p: Period, t: int): int
    requires IsDay(t) && (p == Month ==> MonthOf(t) >= 11)
  {
    BucketStart(p, t, 0)
  }

  /** Every bucket starts inside the chart window, so inside the timestamp range. */
  lemma BucketStartRange(p: Period, t: int, i: int)
    requires ChartFits(p, t) && 0 <= i < BucketCount(p)
    ensures PandasFirstDay <= ChartStart(p, t) <= BucketStart(p, t, i) <= t
  {
    match p
    case Today =>
    case Week =>
    case Month => MonthBucketStartRange(t, i);
  }

  lemma MonthBucketStartRange(t: int, i: int)
    requires IsDay(t) && MonthOf(t) >= 11 && InPandasRange(MonthStart(MonthOf(t) - 11)) && 0 <= i < 12
    ensures PandasFirstDay <= ChartStart(Month, t) <= BucketStart(Month, t, i) <= t
  {
    hide MonthStart, MonthOf;
    var k := MonthOf(t);
    if i > 0 {
      MonthStartMonotone(k - 11, k - 11 + i);
    }
    MonthStartOnOrBefore(t, k - 11 + i);
  }

  function BucketKeyAt(p: Period, t: int, i: int): BucketKey
    requires ChartFits(p, t) && 0 <= i < BucketCount(p)
  {
    BucketStartRange(p, t, i);
    KeyOf(p, BucketStart(p, t, i))
  }

  /** The bucket's axis label: `%d.%m.%y`, `str(week)` or `MM.YY`. */
  function Label(p: Period, n: int): string
    requires IsDay(n)
  {
    match p
    case Today => DayLabel(n)
    case Week => WeekLabel(IsoWeekOf(n))
    case Month =>
      var d := FromDayNumber(n);
      MonthLabel(d.year, d.month)
  }

  datatype Bucket = Bucket(key: BucketKey, caption: string, amounts: Nutrients)

  /** The records whose key is `k`. */
  function WithKey<K(==)>(key: int -> K, rs: seq<Record>, k: K): (w: seq<Record>)
    ensures forall r :: r in w ==> r in rs && key(r.day) == k
  {
    if |rs| == 0 then []
    else
      var front := WithKey(key, rs[..|rs| - 1], k);
      var r := rs[|rs| - 1];
      if key(r.day) == k then front + [r] else front
  }

  /** The records whose key is one of `ks`. */
  function KeyIn<K(==)>(key: int -> K, rs: seq<Record>, ks: seq<K>): seq<Record>
  {
    if |rs| == 0 then []
    else
      var front := KeyIn(key, rs[..|rs| - 1], ks);
      var r := rs[|rs| - 1];
      if key(r.day) in ks then front + [r] else front
  }

  /** The records of the chart window, from `chart_start` to today. */
  function ChartWindow(p: Period, t: int, records: seq<Record>): (w: seq<Record>)
    requires ChartFits(p, t)
  {
    BucketStartRange(p, t, 0);
    InWindow(records, ChartStart(p, t), t)
  }

  function BucketAt(p: Period, t: int, window: seq<Record>, i: int): Bucket
    requires ChartFits(p, t) && 0 <= i < BucketCount(p)
  {
    BucketStartRange(p, t, i);
    var n := BucketStart(p, t, i);
    Bucket(KeyOf(p, n), Label(p, n), Total(WithKey(KeyFunction(p), window, KeyOf(p, n))))
  }

  /**
   * The chart series: one bucket per key of the complete range, holding the
   * sum of the window's records with that key, and zero where there are none
   * (the left join followed by `fillna(0)`).
   */
  function Chart(p: Period, t: int, records: seq<Record>): seq<Bucket>
    requires ChartFits(p, t)
  {
    var window := ChartWindow(p, t, records);
    seq(BucketCount(p), i requires 0 <= i < BucketCount(p) => BucketAt(p, t, window, i))
  }

  function SumBuckets(c: seq<Bucket>): Nutrients
  {
    if |c| == 0 then Zero else Add(SumBuckets(c[..|c| - 1]), c[|c| - 1].amounts)
  }

  // ---------------------------------------------------------------------
  // The shape of the bucket range

  /** The chart has 30, 12 or 12 buckets, and bucket `i` carries the key of its first day. */
  lemma ChartShape(p: Period, t: int, records: seq<Record>)
    requires ChartFits(p, t)
    ensures |Chart(p, t, records)| == BucketCount(p)
    ensures forall i :: 0 <= i < BucketCount(p) ==> Chart(p, t, records)[i].key == BucketKeyAt(p, t, i)
  {
  }

  /** Bucket `i` of the weekly chart starts on a Monday. */
  lemma WeekBucketIsMonday(t: int, i: int)
    requires ChartFits(Week, t) && 0 <= i < 12
    ensures Weekday(BucketStart(Week, t, i)) == 0
  {
    assert BucketStart(Week, t, i) + 6 == Monday(t) + 6 + 7 * (i - 11);
  }

  /** The buckets step by one day, one Monday-start week, or one calendar month. */
  lemma BucketsConsecutive(p: Period, t: int, i: int)
    requires ChartFits(p, t) && 0 <= i && i + 1 < BucketCount(p)
    ensures p == Today ==> BucketStart(p, t, i + 1) == BucketStart(p, t, i) + 1
    ensures p == Week ==> Weekday(BucketStart(p, t, i)) == 0
    ensures p == Week ==> BucketStart(p, t, i + 1) == BucketStart(p, t, i) + 7
    ensures p == Month ==> FromDayNumber(BucketStart(p, t, i)).day == 1
    ensures p == Month ==> MonthOf(BucketStart(p, t, i + 1)) == MonthOf(BucketStart(p, t, i)) + 1
  {
    if p == Week {
      WeekBucketIsMonday(t, i);
    } else if p == Month {
      MonthBucketsConsecutive(t, i);
    }
  }

  /** Month buckets start on the first of a month, each one month after the one before. */
  lemma MonthBucketsConsecutive(t: int, i: int)
    requires IsDay(t) && MonthOf(t) >= 11 && 0 <= i < 11
    ensures FromDayNumber(BucketStart(Month, t, i)).day == 1
    ensures MonthOf(BucketStart(Month, t, i + 1)) == MonthOf(BucketStart(Month, t, i)) + 1
  {
    hide MonthStart, MonthOf, FromDayNumber, DayNumber, FirstOfMonth, MonthIndex;
    MonthOfStart(MonthOf(t) - 11 + i);
    MonthOfStart(MonthOf(t) - 11 + (i + 1));
  }

  /** The last bucket is the one holding today. */
  lemma LastBucketHoldsToday(p: Period, t: int)
    requires ChartFits(p, t)
    ensures BucketKeyAt(p, t, BucketCount(p) - 1) == KeyOf(p, t)
  {
    hide MonthStart, MonthOf, FromDayNumber, DayNumber, IsoWeekOf;
    match p
    case Today =>
    case Week =>
      IsoWeekOfMonday(t);
    case Month =>
      StartOfOwnMonth(t);
  }

  /** Different buckets have different keys, so the range holds no duplicates. */
  lemma BucketKeysDistinct(p: Period, t: int, i: int, j: int)
    requires ChartFits(p, t) && 0 <= i < BucketCount(p) && 0 <= j < BucketCount(p) && i != j
    ensures BucketKeyAt(p, t, i) != BucketKeyAt(p, t, j)
  {
    hide MonthStart, MonthOf, FromDayNumber, DayNumber, IsoWeekOf, FirstOfMonth;
    BucketStartRange(p, t, i);
    BucketStartRange(p, t, j);
    var a, b := BucketStart(p, t, i), BucketStart(p, t, j);
    match p
    case Today =>
    case Week =>
      WeekBucketIsMonday(t, i);
      WeekBucketIsMonday(t, j);
      if IsoWeekOf(a) == IsoWeekOf(b) {
        IsoWeekInjective(a, b);
      }
    case Month =>
      var k := MonthOf(t);
      MonthOfStart(k - 11 + i);
      MonthOfStart(k - 11 + j);
      assert MonthIndex(FirstOfMonth(k - 11 + i)) != MonthIndex(FirstOfMonth(k - 11 + j));
  }

  /**
   * The bucket a chart-window day falls into: every day from `chart_start`
   * to today has its key among the bucket keys.
   */
  function BucketIndex(p: Period, t: int, n: int): (i: int)
    requires ChartFits(p, t) && ChartStart(p, t) <= n <= t
    ensures 0 <= i < BucketCount(p)
  {
    BucketStartRange(p, t, 0);
    match p
    case Today => n - ChartStart(p, t)
    case Week =>
      WeekBucketInRange(t, n);
      (Monday(n) - ChartStart(p, t)) / 7
    case Month =>
      MonthBucketInRange(t, n);
      MonthOf(n) - (MonthOf(t) - 11)
  }

  /** A window day's Monday is one of the twelve bucket Mondays. */
  lemma WeekBucketInRange(t: int, n: int)
    requires ChartFits(Week, t) && ChartStart(Week, t) <= n <= t
    ensures ChartStart(Week, t) <= Monday(n) <= Monday(t)
    ensures (Monday(n) - ChartStart(Week, t)) % 7 == 0
  {
    hide MonthStart, MonthOf, FromDayNumber, DayNumber;
    var s := ChartStart(Week, t);
    WeekBucketIsMonday(t, 0);
    assert Monday(s) == s;
    MondayMonotone(s, n);
    MondayMonotone(n, t);
    SameWeekday(Monday(n), s);
  }

  /** A window day's month is one of the twelve bucket months. */
  lemma MonthBucketInRange(t: int, n: int)
    requires ChartFits(Month, t) && ChartStart(Month, t) <= n <= t
    ensures MonthOf(t) - 11 <= MonthOf(n) <= MonthOf(t)
  {
    hide MonthStart, MonthOf, FromDayNumber, DayNumber;
    var k := MonthOf(t);
    BucketStartRange(Month, t, 0);
    MonthOfAtLeast(n, k - 11);
    MonthStartOnOrBefore(n, MonthOf(n));
    MonthOfAtLeast(t, MonthOf(n));
  }

  /** The day's key is the key of the bucket `BucketIndex` names. */
  lemma BucketIndexKey(p: Period, t: int, n: int)
    requires ChartFits(p, t) && ChartStart(p, t) <= n <= t
    ensures IsDay(n) && BucketKeyAt(p, t, BucketIndex(p, t, n)) == KeyOf(p, n)
  {
    hide MonthStart, MonthOf, FromDayNumber, DayNumber, IsoWeekOf;
    BucketStartRange(p, t, 0);
    match p
    case Today =>
    case Week =>
      WeekBucketInRange(t, n);
      var i := BucketIndex(p, t, n);
      assert BucketStart(p, t, i) == Monday(n);
      IsoWeekOfMonday(n);
    case Month =>
      MonthBucketInRange(t, n);
      var i := BucketIndex(p, t, n);
      assert BucketStart(p, t, i) == MonthStart(MonthOf(n));
      StartOfOwnMonth(n);
  }

  // ---------------------------------------------------------------------
  // Conservation: the group-sum and the left join lose nothing

  /** Adding a key that is not yet listed adds exactly that key's records. */
  lemma {:induction false} KeyInSnoc<K>(key: int -> K, rs: seq<Record>, ks: seq<K>, k: K)
    requires k !in ks
    ensures Total(KeyIn(key, rs, ks + [k])) == Add(Total(KeyIn(key, rs, ks)), Total(WithKey(key, rs, k)))
  {
    if |rs| > 0 {
      hide Total, Add;
      var front, r := rs[..|rs| - 1], rs[|rs| - 1];
      KeyInSnoc(key, front, ks, k);
      var a, b := Total(KeyIn(key, front, ks)), Total(WithKey(key, front, k));
      if key(r.day) in ks {
        assert key(r.day) in ks + [k];
        TotalSnoc(KeyIn(key, front, ks + [k]), r);
        TotalSnoc(KeyIn(key, front, ks), r);
        AddRotate(a, b, r.amounts);
      } else if key(r.day) == k {
        assert key(r.day) in ks + [k];
        TotalSnoc(KeyIn(key, front, ks + [k]), r);
        TotalSnoc(WithKey(key, front, k), r);
        AddAssoc(a, b, r.amounts);
      } else {
        assert key(r.day) !in ks + [k];
      }
    }
  }

  /** Listing every record's key selects every record. */
  lemma {:induction false} KeyInAll<K>(key: int -> K, rs: seq<Record>, ks: seq<K>)
    requires forall r :: r in rs ==> key(r.day) in ks
    ensures KeyIn(key, rs, ks) == rs
  {
    if |rs| > 0 {
      assert forall r :: r in rs[..|rs| - 1] ==> r in rs;
      KeyInAll(key, rs[..|rs| - 1], ks);
      assert rs == rs[..|rs| - 1] + [rs[|rs| - 1]];
    }
  }

  lemma {:induction false} KeyInNone<K>(key: int -> K, rs: seq<Record>)
    ensures KeyIn(key, rs, []) == []
  {
    if |rs| > 0 {
      assert forall r :: r in rs[..|rs| - 1] ==> r in rs;
      KeyInNone(key, rs[..|rs| - 1]);
    }
  }

  lemma {:induction false} WithKeyNone<K>(key: int -> K, rs: seq<Record>, k: K)
    requires forall r :: r in rs ==> key(r.day) != k
    ensures WithKey(key, rs, k) == []
  {
    if |rs| > 0 {
      assert forall r :: r in rs[..|rs| - 1] ==> r in rs;
      WithKeyNone(key, rs[..|rs| - 1], k);
    }
  }

  function BucketKeys(p: Period, t: int): seq<BucketKey>
    requires ChartFits(p, t)
  {
    seq(BucketCount(p), i requires 0 <= i < BucketCount(p) => BucketKeyAt(p, t, i))
  }

  /** No bucket key repeats an earlier one. */
  lemma BucketKeyNew(p: Period, t: int, k: int)
    requires ChartFits(p, t) && 0 <= k < BucketCount(p)
    ensures BucketKeys(p, t)[k] !in BucketKeys(p, t)[..k]
  {
    hide ChartFits, BucketKeyAt;
    var ks := BucketKeys(p, t);
    forall j | 0 <= j < k
      ensures ks[j] != ks[k]
    {
      BucketKeysDistinct(p, t, j, k);
    }
  }

  /** Bucket `k - 1` holds the window's records with the `k`-th key. */
  lemma ChartPrefixStep(p: Period, t: int, records: seq<Record>, k: int)
    requires ChartFits(p, t) && 0 < k <= BucketCount(p)
    ensures SumBuckets(Chart(p, t, records)[..k])
         == Add(SumBuckets(Chart(p, t, records)[..k - 1]),
                Total(WithKey(KeyFunction(p), ChartWindow(p, t, records), BucketKeys(p, t)[k - 1])))
  {
    hide ChartFits, BucketStart, KeyOf, Label, InWindow, WithKey, Total, MonthStart, MonthOf, FromDayNumber, Monday, IsoWeekOf;
    var c := Chart(p, t, records);
    assert c[..k][..k - 1] == c[..k - 1];
  }

  lemma ChartPrefixNone(p: Period, t: int, records: seq<Record>)
    requires ChartFits(p, t)
    ensures SumBuckets(Chart(p, t, records)[..0])
         == Total(KeyIn(KeyFunction(p), ChartWindow(p, t, records), BucketKeys(p, t)[..0]))
  {
    hide ChartFits, BucketStart, BucketKeyAt, KeyOf, Label, InWindow, ChartWindow;
    assert Chart(p, t, records)[..0] == [];
    KeyInNone(KeyFunction(p), ChartWindow(p, t, records));
  }

  lemma {:induction false} ChartPrefixSum(p: Period, t: int, records: seq<Record>, k: nat)
    requires ChartFits(p, t) && k <= BucketCount(p)
    ensures SumBuckets(Chart(p, t, records)[..k])
         == Total(KeyIn(KeyFunction(p), ChartWindow(p, t, records), BucketKeys(p, t)[..k]))
  {
    hide ChartFits, BucketStart, BucketKeyAt, KeyOf, Label, InWindow, Chart, ChartWindow, SumBuckets;
    var ks := BucketKeys(p, t);
    var window := ChartWindow(p, t, records);
    if k == 0 {
      ChartPrefixNone(p, t, records);
    } else {
      ChartPrefixSum(p, t, records, k - 1);
      ChartPrefixStep(p, t, records, k);
      assert ks[..k] == ks[..k - 1] + [ks[k - 1]];
      BucketKeyNew(p, t, k - 1);
      KeyInSnoc(KeyFunction(p), window, ks[..k - 1], ks[k - 1]);
    }
  }

  /**
   * Every record of the chart window lands in exactly one bucket, so the
   * buckets add up to the window's totals.
   */
  lemma ChartConservation(p: Period, t: int, records: seq<Record>)
    requires ChartFits(p, t)
    ensures SumBuckets(Chart(p, t, records)) == Total(InWindow(records, ChartStart(p, t), t))
  {
    hide ChartFits, BucketStart, KeyOf, Label, MonthStart, MonthOf, FromDayNumber, Monday, IsoWeekOf, InWindow, Total;
    var c := Chart(p, t, records);
    var ks := BucketKeys(p, t);
    var window := ChartWindow(p, t, records);
    ChartPrefixSum(p, t, records, BucketCount(p));
    assert c[..BucketCount(p)] == c;
    assert ks[..BucketCount(p)] == ks;
    forall r | r in window
      ensures KeyFunction(p)(r.day) in ks
    {
      var i := BucketIndex(p, t, r.day);
      BucketIndexKey(p, t, r.day);
      assert ks[i] == KeyOf(p, r.day);
    }
    KeyInAll(KeyFunction(p), window, ks);
  }

  /** A bucket that no window record falls into is zero. */
  lemma ChartZeroFill(p: Period, t: int, records: seq<Record>, i: int)
    requires ChartFits(p, t) && 0 <= i < BucketCount(p)
    requires forall r :: r in records && ChartStart(p, t) <= r.day <= t ==> KeyFunction(p)(r.day) != BucketKeyAt(p, t, i)
    ensures Chart(p, t, records)[i].amounts == Zero
  {
    WithKeyNone(KeyFunction(p), ChartWindow(p, t, records), BucketKeyAt(p, t, i));
  }

  /** The period lies inside the chart window. */
  lemma PeriodInsideChart(p: Period, t: int)
    requires ChartFits(p, t)
    ensures ChartStart(p, t) <= PeriodStart(p, t) <= t
  {
    hide MonthStart, MonthOf, FromDayNumber, DayNumber, IsoWeekOf;
    PeriodStartFacts(p, t);
    if p == Month {
      MonthStartMonotone(MonthOf(t) - 11, MonthOf(t));
    }
  }

  // ---------------------------------------------------------------------
  // The command

  datatype Reply =
    | Usage                  // no argument
    | UnknownPeriod          // an argument that is no keyword
    | NoRecords              // the user has no usable rows at all
    | NoRecordsInPeriod      // none of them falls in the period
    | Crashed                // pandas raised on a date outside its range; nothing is sent
    | Summary(period: string, totals: Nutrients, chart: seq<Bucket>)

  /** The reply for period `p` on the day `today`, from the user's records. */
  function Respond(p: Period, today: CalDate, records: seq<Record>): (r: Reply)
    ensures !r.Usage? && !r.UnknownPeriod?
  {
    if |records| == 0 then NoRecords
    else if exists r :: r in records && !InPandasRange(r.day) then Crashed
    else
      DayNumberRange(today);
      var t := DayNumber(today);
      var inPeriod := InWindow(records, PeriodStart(p, t), t);
      if |inPeriod| == 0 then NoRecordsInPeriod
      else if !ChartFits(p, t) then Crashed
      else Summary(Keyword(p), Total(inPeriod), Chart(p, t, records))
  }

  /** The report `handle_report` sends for `args`, the user `uid`, the day `today` and the sheet. */
  function ReportOf(args: seq<string>, uid: string, today: CalDate, sheet: seq<seq<string>>): Reply
  {
    if |args| == 0 then Usage
    else
      match ParsePeriod(args[0])
      case None => UnknownPeriod
      case Some(p) => Respond(p, today, KeptRecords(DataRows(sheet), uid))
  }

  /** Without an argument, or with an unknown one, the sheet is never consulted. */
  lemma ReportArgumentErrors(args: seq<string>, uid: string, today: CalDate, sheet: seq<seq<string>>)
    ensures ReportOf(args, uid, today, sheet) == Usage <==> |args| == 0
    ensures ReportOf(args, uid, today, sheet) == UnknownPeriod
        <==> |args| > 0 && Lower(args[0]) != "today" && Lower(args[0]) != "week" && Lower(args[0]) != "month"
  {
    hide Respond;
    if |args| > 0 {
      ParsePeriodOfKeyword(args[0], Today);
      ParsePeriodOfKeyword(args[0], Week);
      ParsePeriodOfKeyword(args[0], Month);
    }
  }

  /**
   * A summary totals exactly the records from the period start to today;
   * its chart has the full number of buckets, ends with the bucket of
   * today and adds up to the totals of the chart window, which holds the
   * period.
   */
  lemma RespondSummary(p: Period, today: CalDate, records: seq<Record>)
    requires Respond(p, today, records).Summary?
    ensures IsDay(DayNumber(today))
    ensures var reply := Respond(p, today, records);
            var t := DayNumber(today);
            && ChartFits(p, t)
            && reply.period == Keyword(p)
            && reply.totals == Total(InWindow(records, PeriodStart(p, t), t))
            && |reply.chart| == BucketCount(p)
            && reply.chart[BucketCount(p) - 1].key == KeyOf(p, t)
            && ChartStart(p, t) <= PeriodStart(p, t)
            && SumBuckets(reply.chart) == Total(InWindow(records, ChartStart(p, t), t))
  {
    DayNumberRange(today);
    var t := DayNumber(today);
    hide Chart, SumBuckets, InWindow, Total, PeriodStart, ChartStart, KeyOf, BucketKeyAt, DayNumber;
    ChartShape(p, t, records);
    LastBucketHoldsToday(p, t);
    PeriodInsideChart(p, t);
    ChartConservation(p, t, records);
  }

  /**
   * The two "no data" replies are told apart: no usable row at all, or
   * usable rows none of which falls between the period start and today.
   */
  lemma RespondNoData(p: Period, today: CalDate, records: seq<Record>)
    ensures IsDay(DayNumber(today))
    ensures Respond(p, today, records) == NoRecords <==> records == []
    ensures Respond(p, today, records) == NoRecordsInPeriod
        <==> && records != []
             && (forall r :: r in records ==> InPandasRange(r.day))
             && InWindow(records, PeriodStart(p, DayNumber(today)), DayNumber(today)) == []
  {
    DayNumberRange(today);
    hide InWindow, PeriodStart, DayNumber, Chart, ChartFits, Total;
  }

  /** A summary answers the keyword as given, lowered, and is the records' summary for that period. */
  lemma ReportSummary(args: seq<string>, uid: string, today: CalDate, sheet: seq<seq<string>>)
    requires ReportOf(args, uid, today, sheet).Summary?
    ensures |args| > 0 && ParsePeriod(args[0]).Some?
    ensures ReportOf(args, uid, today, sheet).period == Lower(args[0])
    ensures ReportOf(args, uid, today, sheet)
         == Respond(ParsePeriod(args[0]).value, today, KeptRecords(DataRows(sheet), uid))
  {
    hide Respond;
    RespondSummary(ParsePeriod(args[0]).value, today, KeptRecords(DataRows(sheet), uid));
  }

  /** Rows of other users never change the report. */
  lemma ReportIgnoresOthers(args: seq<string>, uid: string, today: CalDate, sheet: seq<seq<string>>, row: seq<string>)
    requires |sheet| > 0
    requires |row| < 3 || Strip(row[2]) != uid
    ensures ReportOf(args, uid, today, sheet + [row]) == ReportOf(args, uid, today, sheet)
  {
    hide Respond, KeptRecords;
    assert DataRows(sheet + [row]) == DataRows(sheet) + [row];
    KeptRecordsIgnoresOthers(DataRows(sheet), uid, row);
  }

  /** `handle_report`: the row loop, then the checks, the totals and the chart. */
  method HandleReport(args: seq<string>, uid: string, today: CalDate, sheet: seq<seq<string>>) returns (reply: Reply)
    ensures reply == ReportOf(args, uid, today, sheet)
  {
    if |args| == 0 {
      return Usage;
    }
    var period := ParsePeriod(args[0]);
    if period.None? {
      return UnknownPeriod;
    }
    var p := period.value;
    var records := CollectRecords(DataRows(sheet), uid);
    if |records| == 0 {
      return NoRecords;
    }
    if exists r :: r in records && !InPandasRange(r.day) {
      return Crashed;
    }
    DayNumberRange(today);
    var t := DayNumber(today);
    var inPeriod := InWindow(records, PeriodStart(p, t), t);
    if |inPeriod| == 0 {
      return NoRecordsInPeriod;
    }
    if !ChartFits(p, t) {
      return Crashed;
    }
    reply := Summary(Keyword(p), Total(inPeriod), Chart(p, t, records));
  }
}

/**
 * Dates as text: `datetime.strptime` with the two formats the report
 * accepts, `strftime("%Y-%m-%d")` that the log writes, `strftime("%H:%M:%S")`
 * for the time column, and the chart labels.
 *
 * `strptime` turns each directive into a regular expression: `%Y` is
 * exactly four digits, `%m` is `1[0-2]|0[1-9]|[1-9]` and `%d` is
 * `3[01]|[12]\d|0[1-9]|[1-9]| [1-9]`; the whole string must be consumed, and
 * the fields must then form a date `datetime.date` accepts. Because no
 * field can contain the separator that follows it, the separators alone
 * decide where each field ends.
 */
module DateText {
  import opened Wrappers
  import opened Text
  import opened Calendar

  /** The value of a `%m` field, if the whole of `s` matches `1[0-2]|0[1-9]|[1-9]`. */
  function MonthField(s: string): (r: Option<int>)
    ensures r.Some? ==> 1 <= r.value <= 12
  {
    if |s| == 1 && '1' <= s[0] <= '9' then Some(DigitValue(s[0]))
    else if |s| == 2 && s[0] == '0' && '1' <= s[1] <= '9' then Some(DigitValue(s[1]))
    else if |s| == 2 && s[0] == '1' && '0' <= s[1] <= '2' then Some(10 + DigitValue(s[1]))
    else None
  }

  /** The value of a `%d` field, if the whole of `s` matches `3[01]|[12]\d|0[1-9]|[1-9]| [1-9]`. */
  function DayField(s: string): (r: Option<int>)
    ensures r.Some? ==> 1 <= r.value <= 31
  {
    if |s| == 1 && '1' <= s[0] <= '9' then Some(DigitValue(s[0]))
    else if |s| == 2 && (s[0] == '0' || s[0] == ' ') && '1' <= s[1] <= '9' then Some(DigitValue(s[1]))
    else if |s| == 2 && '1' <= s[0] <= '2' && IsDigit(s[1]) then Some(10 * DigitValue(s[0]) + DigitValue(s[1]))
    else if |s| == 2 && s[0] == '3' && '0' <= s[1] <= '1' then Some(30 + DigitValue(s[1]))
    else None
  }

  /** The value of a `%Y` field: exactly four digits. */
  function YearField(s: string): (r: Option<int>)
    ensures r.Some? ==> 0 <= r.value <= 9999
  {
    if |s| == 4 && AllDigits(s) then
      DigitsValueBound(s);
      Some(DigitsValue(s))
    else
      None
  }

  /** A zero-padded month reads back as itself. */
  lemma MonthFieldOfPad2(m: int)
    requires 1 <= m <= 12
    ensures MonthField(Pad2(m)) == Some(m)
  {
  }

  /** A zero-padded day reads back as itself. */
  lemma DayFieldOfPad2(d: int)
    requires 1 <= d <= 31
    ensures DayField(Pad2(d)) == Some(d)
  {
  }

  /** A four-digit year reads back as itself. */
  lemma YearFieldOfPad4(y: int)
    requires 0 <= y <= 9999
    ensures YearField(Pad4(y)) == Some(y)
  {
  }

  /** The date the three fields name, if `datetime.date` accepts it. */
  function MakeDate(y: Option<int>, m: Option<int>, d: Option<int>): (r: Option<CalDate>)
    ensures r.Some? <==> y.Some? && m.Some? && d.Some? && ValidDate(Date(y.value, m.value, d.value))
    ensures r.Some? ==> r.value == Date(y.value, m.value, d.value)
  {
    if y.Some? && m.Some? && d.Some? && ValidDate(Date(y.value, m.value, d.value)) then
      Some(Date(y.value, m.value, d.value))
    else
      None
  }

  /** `datetime.strptime(s, "%Y-%m-%d").date()`, or `None` where it raises `ValueError`. */
  function ParseIsoDate(s: string): Option<CalDate>
  {
    if |s| >= 7 && s[4] == '-' && s[6] == '-' then
      MakeDate(YearField(s[..4]), MonthField(s[5..6]), DayField(s[7..]))
    else if |s| >= 8 && s[4] == '-' && s[7] == '-' then
      MakeDate(YearField(s[..4]), MonthField(s[5..7]), DayField(s[8..]))
    else
      None
  }

  /** `datetime.strptime(s, "%d.%m.%Y").date()`, or `None` where it raises `ValueError`. */
  function ParseDotDate(s: string): Option<CalDate>
  {
    var i := Find(s, '.');
    if i == 1 || i == 2 then
      var rest := s[i + 1..];
      var j := Find(rest, '.');
      if j == 1 || j == 2 then
        MakeDate(YearField(rest[j + 1..]), MonthField(rest[..j]), DayField(s[..i]))
      else
        None
    else
      None
  }

  /** The report's date reading: `%Y-%m-%d` first and, where that raises, `%d.%m.%Y`. */
  function ParseDate(s: string): (r: Option<CalDate>)
    ensures ParseIsoDate(s).Some? ==> r == ParseIsoDate(s)
    ensures ParseIsoDate(s).None? ==> r == ParseDotDate(s)
  {
    match ParseIsoDate(s)
    case Some(d) => Some(d)
    case None => ParseDotDate(s)
  }

  /** `date.strftime("%Y-%m-%d")`, the date column the log writes. */
  function FormatIsoDate(d: CalDate): string
  {
    Pad4(d.year) + "-" + Pad2(d.month) + "-" + Pad2(d.day)
  }

  /** The same date written `DD.MM.YYYY`, the other spelling the report accepts. */
  function FormatDotDate(d: CalDate): string
  {
    Pad2(d.day) + "." + Pad2(d.month) + "." + Pad4(d.year)
  }

  /** The date the log writes reads back as the same date. */
  lemma IsoDateRoundTrip(d: CalDate)
    ensures ParseDate(FormatIsoDate(d)) == Some(d)
  {
    var s := FormatIsoDate(d);
    assert s[..4] == Pad4(d.year);
    assert s[5..7] == Pad2(d.month);
    assert s[8..] == Pad2(d.day);
    assert s[4] == '-' && s[7] == '-' && s[6] != '-';
    YearFieldOfPad4(d.year);
    MonthFieldOfPad2(d.month);
    DayFieldOfPad2(d.day);
  }

  /** A date written `DD.MM.YYYY` reads back as the same date. */
  lemma DotDateRoundTrip(d: CalDate)
    ensures ParseDate(FormatDotDate(d)) == Some(d)
  {
    var s := FormatDotDate(d);
    assert s[..2] == Pad2(d.day);
    assert s[4] != '-';
    FindAt(s, '.', 2);
    var rest := s[3..];
    assert rest == Pad2(d.month) + "." + Pad4(d.year);
    FindAt(rest, '.', 2);
    assert rest[..2] == Pad2(d.month);
    assert rest[3..] == Pad4(d.year);
    YearFieldOfPad4(d.year);
    MonthFieldOfPad2(d.month);
    DayFieldOfPad2(d.day);
  }

  lemma Year2024()
    ensures YearField("2024") == Some(2024)
  {
    YearFieldOfPad4(2024);
    assert Pad4(2024) == "2024";
  }

  /** Both spellings of one date land on the same calendar date, as for 2024-05-01 and 01.05.2024. */
  lemma BothSpellingsAgree()
    ensures ParseDate("2024-05-01") == ParseDate("01.05.2024") == Some(Date(2024, 5, 1))
  {
    IsoSpelling();
    DotSpelling();
  }

  lemma IsoSpelling()
    ensures ParseDate("2024-05-01") == Some(Date(2024, 5, 1))
  {
    var d: CalDate := Date(2024, 5, 1);
    assert FormatIsoDate(d) == "2024-05-01" by {
      assert Pad4(2024) == "2024";
      assert Pad2(5) == "05" && Pad2(1) == "01";
    }
    IsoDateRoundTrip(d);
  }

  lemma DotSpelling()
    ensures ParseDate("01.05.2024") == Some(Date(2024, 5, 1))
  {
    var d: CalDate := Date(2024, 5, 1);
    assert FormatDotDate(d) == "01.05.2024" by {
      assert Pad4(2024) == "2024";
      assert Pad2(5) == "05" && Pad2(1) == "01";
    }
    DotDateRoundTrip(d);
  }

  /** `strptime` also takes single-digit and space-padded days and single-digit months. */
  lemma LenientFields()
    ensures ParseDate("2024-5-1") == Some(Date(2024, 5, 1))
    ensures ParseDate("2024-05- 1") == Some(Date(2024, 5, 1))
    ensures ParseDate("1.5.2024") == Some(Date(2024, 5, 1))
  {
    ShortIsoFields();
    SpacePaddedDay();
    ShortDotFields();
  }

  lemma ShortIsoFields()
    ensures ParseDate("2024-5-1") == Some(Date(2024, 5, 1))
  {
    hide Pad4, Pad2, FormatIsoDate, FormatDotDate;
    Year2024();
    var s := "2024-5-1";
    assert s[..4] == "2024" && s[5..6] == "5" && s[7..] == "1";
    assert MonthField("5") == Some(5) && DayField("1") == Some(1);
    assert ValidDate(Date(2024, 5, 1));
  }

  lemma SpacePaddedDay()
    ensures ParseDate("2024-05- 1") == Some(Date(2024, 5, 1))
  {
    hide Pad4, Pad2, FormatIsoDate, FormatDotDate;
    Year2024();
    var t := "2024-05- 1";
    assert t[..4] == "2024" && t[5..7] == "05" && t[8..] == " 1";
    assert MonthField("05") == Some(5) && DayField(" 1") == Some(1);
    assert ValidDate(Date(2024, 5, 1));
  }

  lemma ShortDotFields()
    ensures ParseDate("1.5.2024") == Some(Date(2024, 5, 1))
  {
    hide Pad4, Pad2, FormatIsoDate, FormatDotDate;
    Year2024();
    var u := "1.5.2024";
    assert ParseIsoDate(u) == None;
    FindAt(u, '.', 1);
    assert u[2..] == "5.2024";
    FindAt("5.2024", '.', 1);
    assert "5.2024"[2..] == "2024";
  }

  /** February 29 of a common year is skipped, in both spellings. */
  lemma ImpossibleDayRejected(y: int)
    requires 0 <= y <= 9999 && !IsLeap(y)
    ensures ParseDate(Pad4(y) + "-02-29") == None
    ensures ParseDate("29.02." + Pad4(y)) == None
  {
    IsoLeapDayRejected(y);
    DotLeapDayRejected(y);
  }

  lemma IsoLeapDayRejected(y: int)
    requires 0 <= y <= 9999 && !IsLeap(y)
    ensures ParseDate(Pad4(y) + "-02-29") == None
  {
    hide MakeDate, Pad4;
    var s := Pad4(y) + "-02-29";
    assert s[..4] == Pad4(y) && s[5..7] == "02" && s[8..] == "29";
    assert s[4] == '-' && s[6] != '-' && s[7] == '-';
    YearFieldOfPad4(y);
    assert MonthField(s[5..7]) == Some(2) && DayField(s[8..]) == Some(29);
    assert !ValidDate(Date(y, 2, 29));
    assert s[1] == Pad4(y)[1] && s[2] == Pad4(y)[2];
  }

  lemma DotLeapDayRejected(y: int)
    requires 0 <= y <= 9999 && !IsLeap(y)
    ensures ParseDate("29.02." + Pad4(y)) == None
  {
    hide MakeDate, Pad4;
    var s := "29.02." + Pad4(y);
    assert s[4] == '2';
    FindAt(s, '.', 2);
    var rest := s[3..];
    assert rest == "02." + Pad4(y);
    FindAt(rest, '.', 2);
    assert rest[..2] == "02" && rest[3..] == Pad4(y) && s[..2] == "29";
    YearFieldOfPad4(y);
    assert MonthField("02") == Some(2) && DayField("29") == Some(29);
    assert !ValidDate(Date(y, 2, 29));
  }

  /**
   * A date followed by anything more is skipped, in either spelling:
   * `strptime` raises `unconverted data remains`.
   */
  lemma TrailingDataRejected(d: CalDate, t: string)
    requires t != ""
    ensures ParseDate(FormatIsoDate(d) + t) == None
    ensures ParseDate(FormatDotDate(d) + t) == None
  {
    IsoTrailingRejected(d, t);
    DotTrailingRejected(d, t);
  }

  lemma IsoTrailingRejected(d: CalDate, t: string)
    requires t != ""
    ensures ParseDate(FormatIsoDate(d) + t) == None
  {
    hide MakeDate, YearField, MonthField, Pad4, Pad2;
    var s := FormatIsoDate(d) + t;
    assert s[4] == '-' && s[7] == '-';
    assert s[6] == Pad2(d.month)[1] && IsDigit(s[6]);
    assert s[8..] == Pad2(d.day) + t;
    assert s[1] == Pad4(d.year)[1] && s[2] == Pad4(d.year)[2];
  }

  lemma DotTrailingRejected(d: CalDate, t: string)
    requires t != ""
    ensures ParseDate(FormatDotDate(d) + t) == None
  {
    hide MakeDate, MonthField, DayField, Pad4, Pad2;
    var s := FormatDotDate(d) + t;
    assert s[4] == Pad2(d.month)[1] && IsDigit(s[4]);
    assert s[0] == Pad2(d.day)[0] && s[1] == Pad2(d.day)[1];
    FindAt(s, '.', 2);
    var rest := s[3..];
    assert rest == Pad2(d.month) + "." + Pad4(d.year) + t;
    assert rest[0] == Pad2(d.month)[0] && rest[1] == Pad2(d.month)[1];
    FindAt(rest, '.', 2);
    assert |rest[3..]| > 4;
  }

  /** Year 0 is outside `datetime.date`'s range and is skipped. */
  lemma YearZeroRejected()
    ensures ParseDate("0000-01-01") == None
  {
    hide MonthField, DayField, MakeDate;
    var u := "0000-01-01";
    assert YearField(u[..4]) == Some(0) by {
      YearFieldOfPad4(0);
      assert Pad4(0) == "0000" == u[..4];
    }
    assert '.' !in u;
  }

  /** `time.strftime("%H:%M:%S")`, the time column the log writes. */
  function FormatTime(hour: nat, minute: nat, second: nat): (r: string)
    requires hour < 24 && minute < 60 && second < 60
    ensures |r| == 8 && r[2] == ':' && r[5] == ':'
  {
    Pad2(hour) + ":" + Pad2(minute) + ":" + Pad2(second)
  }

  /** The daily chart's label, `strftime("%d.%m.%y")` of the day. */
  function DayLabel(n: int): (r: string)
    requires 1 <= n <= MaxDayNumber
    ensures |r| == 8 && r[2] == '.' && r[5] == '.'
  {
    var d := FromDayNumber(n);
    Pad2(d.day) + "." + Pad2(d.month) + "." + Pad2(d.year % 100)
  }

  /** The monthly chart's label, `f"{month:02d}.{year % 100:02d}"`. */
  function MonthLabel(year: int, month: int): (r: string)
    requires 1 <= month <= 12
    ensures |r| == 5 && r[2] == '.'
  {
    Pad2(month) + "." + Pad2(year % 100)
  }

  /** The weekly chart's label, `str(week)`. */
  function WeekLabel(w: IsoWeek): string
  {
    IntToString(w.week)
  }

  /** The time cell reads back as the hour, minute and second it was written from. */
  lemma FormatTimeReadsBack(hour: nat, minute: nat, second: nat)
    requires hour < 24 && minute < 60 && second < 60
    ensures var r := FormatTime(hour, minute, second);
            && AllDigits(r[..2]) && DigitsValue(r[..2]) == hour
            && AllDigits(r[3..5]) && DigitsValue(r[3..5]) == minute
            && AllDigits(r[6..]) && DigitsValue(r[6..]) == second
  {
    var r := FormatTime(hour, minute, second);
    assert r[..2] == Pad2(hour) && r[3..5] == Pad2(minute) && r[6..] == Pad2(second);
  }

  /** The daily label reads back as the day, the month and the year modulo 100 of its day. */
  lemma DayLabelReadsBack(n: int)
    requires 1 <= n <= MaxDayNumber
    ensures var r, d := DayLabel(n), FromDayNumber(n);
            && DayField(r[..2]) == Some(d.day)
            && MonthField(r[3..5]) == Some(d.month)
            && AllDigits(r[6..]) && DigitsValue(r[6..]) == d.year % 100
  {
    var r, d := DayLabel(n), FromDayNumber(n);
    assert r[..2] == Pad2(d.day) && r[3..5] == Pad2(d.month) && r[6..] == Pad2(d.year % 100);
    DayFieldOfPad2(d.day);
    MonthFieldOfPad2(d.month);
  }

  /** The monthly label reads back as its month and its year modulo 100. */
  lemma MonthLabelReadsBack(year: int, month: int)
    requires 1 <= month <= 12
    ensures var r := MonthLabel(year, month);
            && MonthField(r[..2]) == Some(month)
            && AllDigits(r[3..]) && DigitsValue(r[3..]) == year % 100
  {
    var r := MonthLabel(year, month);
    assert r[..2] == Pad2(month) && r[3..] == Pad2(year % 100);
    MonthFieldOfPad2(month);
  }
}

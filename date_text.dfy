/** The textual forms of a day used by the scraper: the archive-date cell `x2016-01-28`,
  * the data directory `2016/01/28` and the tarfile stamp `20160128`. */
module DateText {
  import opened Wrappers
  import opened Strings
  import opened Decimal
  import opened Dates

  /** `xdate_to_date_or_die` logs "Bad date string" and exits on an `AssertionError` or a
    * `ValueError`; an `OverflowError` from `datetime.date` is not caught and propagates. The text
    * is kept in both. */
  datatype DateError = BadDateString(text: string) | DateOverflow(text: string)

  /** `u'x%d-%02d-%02d' % (date.year, date.month, date.day)`, written by `update_last_archived_date`. */
  function FormatXDate(d: Date): string
    requires Valid(d)
  {
    "x" + Digits(d.year) + "-" + Padded(d.month, 2) + "-" + Padded(d.day, 2)
  }

  /** `xdate_to_date_or_die`: a leading `x`, exactly two `-`, three digit strings, a real date. */
  function ParseXDate(text: string): (r: Result<Date, DateError>)
    ensures r.Ok? ==> Valid(r.value)
    ensures r.Err? ==> r.error.text == text
    ensures |text| == 0 || text[0] != 'x' || Count(text, '-') != 2 ==> r == Err(BadDateString(text))
  {
    if !(Count(text, '-') == 2 && text[0] == 'x') then Err(BadDateString(text))
    else
      var parts := Split(text[1..], '-');
      if |parts| != 3 then Err(BadDateString(text))
      else if !(IsDigits(parts[0]) && IsDigits(parts[1]) && IsDigits(parts[2])) then Err(BadDateString(text))
      else
        var y, m, d := Value(parts[0]), Value(parts[1]), Value(parts[2]);
        if Overflows(y, m, d) then Err(DateOverflow(text))
        else
          match MakeDate(y, m, d)
          case Some(date) => Ok(date)
          case None => Err(BadDateString(text))
  }

  /** An `x` and three dash-free fields joined by dashes: refused as a bad date string unless all
    * three are digits; otherwise the day `datetime.date` makes of their values, an overflow when
    * one does not fit in a C `int`, and a bad date string when they name no day. */
  lemma XDateOfFields(year: string, month: string, day: string)
    requires '-' !in year && '-' !in month && '-' !in day
    ensures var text := "x" + year + "-" + month + "-" + day;
      var r := ParseXDate(text);
      && (!(IsDigits(year) && IsDigits(month) && IsDigits(day)) ==> r == Err(BadDateString(text)))
      && (IsDigits(year) && IsDigits(month) && IsDigits(day) ==>
            var y, m, d := Value(year), Value(month), Value(day);
            && (Overflows(y, m, d) ==> r == Err(DateOverflow(text)))
            && (!Overflows(y, m, d) ==> (r.Ok? <==> Valid(Date(y, m, d))))
            && (!Overflows(y, m, d) && r.Ok? ==> r.value == Date(y, m, d))
            && (!Overflows(y, m, d) && r.Err? ==> r.error == BadDateString(text)))
  {
    XDateParts(year, month, day);
  }

  /** Such a text passes the dash and `x` checks and splits back into its three fields. */
  lemma XDateParts(year: string, month: string, day: string)
    requires '-' !in year && '-' !in month && '-' !in day
    ensures var text := "x" + year + "-" + month + "-" + day;
      && |text| > 0 && text[0] == 'x' && Count(text, '-') == 2
      && Split(text[1..], '-') == [year, month, day]
  {
    var body := year + "-" + month + "-" + day;
    var text := "x" + body;
    assert text == "x" + year + "-" + month + "-" + day;
    CountTwo(year, month, day, '-');
    CountConcat("x", body, '-');
    assert text[1..] == body;
    SplitThree(year, month, day, '-');
  }

  /** `x` and three numbers written with `'%d'`: parsed to that day exactly when it is a real one;
    * otherwise refused, as an overflow exactly when a number does not fit in a C `int`. */
  lemma XDateOfNumbers(y: nat, m: nat, d: nat)
    ensures var text := "x" + Digits(y) + "-" + Digits(m) + "-" + Digits(d);
      var r := ParseXDate(text);
      && (r.Ok? <==> Valid(Date(y, m, d)))
      && (r.Ok? ==> r.value == Date(y, m, d))
      && (r.Err? ==> r.error == if Overflows(y, m, d) then DateOverflow(text) else BadDateString(text))
  {
    NoNonDigit(Digits(y), '-');
    NoNonDigit(Digits(m), '-');
    NoNonDigit(Digits(d), '-');
    XDateOfFields(Digits(y), Digits(m), Digits(d));
    ValueOfDigits(y);
    ValueOfDigits(m);
    ValueOfDigits(d);
  }

  /** The unit tests' rejected cells: a year that is not numeric, ... */
  lemma NonNumericYearRefused()
    ensures ParseXDate("x20a6-01-28") == Err(BadDateString("x20a6-01-28"))
  {
    assert "x20a6-01-28" == "x" + "20a6" + "-" + "01" + "-" + "28";
    assert !IsDigitChar("20a6"[2]);
    XDateOfFields("20a6", "01", "28");
  }

  /** ... the 30th of February of any year (an overflow for a year beyond a C `int`), ... */
  lemma ThirtiethOfFebruaryRefused(year: nat)
    ensures var text := "x" + Digits(year) + "-02-30"; var r := ParseXDate(text);
      && r.Err?
      && (year <= INT_MAX ==> r.error == BadDateString(text))
  {
    assert "x" + Digits(year) + "-02-30" == "x" + Digits(year) + "-" + "02" + "-" + "30";
    NoNonDigit(Digits(year), '-');
    XDateOfFields(Digits(year), "02", "30");
    ValueOfDigits(year);
    FebruaryThirtieth();
  }

  lemma FebruaryThirtieth()
    ensures IsDigits("02") && IsDigits("30") && Value("02") == 2 && Value("30") == 30
  {
    assert Value("02") == Value("0") * 10 + 2;
    assert Value("30") == Value("3") * 10 + 0;
  }

  /** ... and a cell followed by a time, which holds a third dash. */
  lemma DateAndTimeRefused(d: Date, time: string)
    requires Valid(d)
    ensures var text := FormatXDate(d) + "-" + time; ParseXDate(text) == Err(BadDateString(text))
  {
    var cell, tail := FormatXDate(d), "-" + time;
    XDateFields(d);
    assert cell + "-" + time == cell + tail;
    CountConcat(cell, tail, '-');
    assert tail[0] == '-' && tail[1..] == time;
    assert Count(tail, '-') == 1 + Count(time, '-');
    assert Count(cell + tail, '-') >= 3;
  }

  /** A year one above the largest C `int` escapes as an overflow, not a bad date string. */
  lemma XDateOverflowExample()
    ensures var text := "x" + Digits(INT_MAX + 1) + "-" + Digits(1) + "-" + Digits(1);
      ParseXDate(text) == Err(DateOverflow(text))
  {
    XDateOfNumbers(INT_MAX + 1, 1, 1);
  }

  /** What `update_last_archived_date` writes, `xdate_to_date_or_die` reads back unchanged. */
  lemma XDateRoundTrip(d: Date)
    requires Valid(d)
    ensures ParseXDate(FormatXDate(d)) == Ok(d)
  {
    var y, m, dd := Digits(d.year), Padded(d.month, 2), Padded(d.day, 2);
    XDateFields(d);
    ValueOfDigits(d.year);
    ValueOfPadded(d.month, 2);
    ValueOfPadded(d.day, 2);
    assert MakeDate(Value(y), Value(m), Value(dd)) == Some(d);
  }

  /** The cell text is an `x`, then the three fields joined by the only two dashes. */
  lemma XDateFields(d: Date)
    requires Valid(d)
    ensures var text := FormatXDate(d);
      && |text| > 0 && text[0] == 'x' && Count(text, '-') == 2
      && Split(text[1..], '-') == [Digits(d.year), Padded(d.month, 2), Padded(d.day, 2)]
  {
    var y, m, dd := Digits(d.year), Padded(d.month, 2), Padded(d.day, 2);
    NoNonDigit(y, '-');
    NoNonDigit(m, '-');
    NoNonDigit(dd, '-');
    XDateParts(y, m, dd);
  }

  /** `'%d/%02d/%02d' % (day.year, day.month, day.day)`: the directory holding one day of data. */
  function DayDir(d: Date): string
    requires Valid(d)
  {
    Digits(d.year) + "/" + Padded(d.month, 2) + "/" + Padded(d.day, 2)
  }

  /** `'%d%02d%02d' % (day.year, day.month, day.day)`: the date stamp of a tarfile name. */
  function DayStamp(d: Date): string
    requires Valid(d)
  {
    Digits(d.year) + Padded(d.month, 2) + Padded(d.day, 2)
  }
}

/** The `%m/%d/%Y` date parse that the website scan applies to its
    "last updated" candidates, with the calendar rules `datetime` enforces. */
module Dates {
  import opened Wrappers
  import opened Text

  /** A calendar date, as `datetime.strptime` returns it (at midnight). */
  datatype Date = Date(year: int, month: int, day: int)

  /** Gregorian leap years. */
  predicate IsLeapYear(year: int) {
    year % 4 == 0 && (year % 100 != 0 || year % 400 == 0)
  }

  function DaysInMonth(year: int, month: int): (n: int)
    requires 1 <= month <= 12
    ensures 28 <= n <= 31
    ensures n == 29 <==> month == 2 && IsLeapYear(year)
    ensures n == 28 <==> month == 2 && !IsLeapYear(year)
    ensures n == 30 <==> month == 4 || month == 6 || month == 9 || month == 11
  {
    if month == 2 then (if IsLeapYear(year) then 29 else 28)
    else if month == 4 || month == 6 || month == 9 || month == 11 then 30
    else 31
  }

  /** A date `datetime` accepts: year 1 to 9999, a month, a day of that month. */
  predicate ValidDate(d: Date) {
    1 <= d.year <= 9999 && 1 <= d.month <= 12 && 1 <= d.day <= DaysInMonth(d.year, d.month)
  }

  predicate Numeral(s: string, minLength: nat, maxLength: nat) {
    minLength <= |s| <= maxLength && AllDigits(s)
  }

  /** `datetime.strptime(s, '%m/%d/%Y')` on the digit-and-slash strings the
      date patterns capture, with `None` where it raises `ValueError`: a
      month of one or two digits, a day of one or two digits and a year of
      four digits, separated by slashes, naming a real date. */
  function ParseDate(s: string): (r: Option<Date>)
  {
    var f := Split(s, '/');
    if |f| == 3 && Numeral(f[0], 1, 2) && Numeral(f[1], 1, 2) && Numeral(f[2], 4, 4) then
      var d := Date(DigitsValue(f[2]), DigitsValue(f[0]), DigitsValue(f[1]));
      if ValidDate(d) then Some(d) else None
    else
      None
  }

  /** Three slash-free fields joined by slashes split back into those fields. */
  lemma SplitThree(a: string, b: string, c: string)
    requires '/' !in a && '/' !in b && '/' !in c
    ensures Split(a + "/" + b + "/" + c, '/') == [a, b, c]
  {
    var fields := [a, b, c];
    assert Join(fields[2..], '/') == c;
    assert Join(fields[1..], '/') == b + "/" + c;
    assert Join(fields, '/') == a + "/" + b + "/" + c;
    SplitJoin(fields, '/');
  }

  /** A text that splits into three numerals of the right lengths parses
      exactly when they name a real date, and then to that date. */
  lemma ParseOfNumerals(s: string, month: string, day: string, year: string)
    requires Split(s, '/') == [month, day, year]
    requires Numeral(month, 1, 2) && Numeral(day, 1, 2) && Numeral(year, 4, 4)
    ensures var d := Date(DigitsValue(year), DigitsValue(month), DigitsValue(day));
      ParseDate(s) == if ValidDate(d) then Some(d) else None
  {
  }

  /** The `%m/%d/%Y` rendering of a valid date: zero-padded month, day
      and year joined by slashes. It is used to show that every valid date
      has a text that parses back to it. */
  function FormatDate(d: Date): string
    requires ValidDate(d)
  {
    ZeroPad(d.month, 2) + "/" + ZeroPad(d.day, 2) + "/" + ZeroPad(d.year, 4)
  }

  /** A numeral holds no slash. */
  lemma NumeralHasNoSlash(s: string)
    requires AllDigits(s)
    ensures '/' !in s
  {
  }

  /** Every real date parses back from its `%m/%d/%Y` rendering. */
  lemma {:induction false} ParseFormatRoundTrip(d: Date)
    requires ValidDate(d)
    ensures ParseDate(FormatDate(d)) == Some(d)
  {
    var m, dd, y := ZeroPad(d.month, 2), ZeroPad(d.day, 2), ZeroPad(d.year, 4);
    ZeroPadSpec(d.month, 2);
    ZeroPadSpec(d.day, 2);
    ZeroPadSpec(d.year, 4);
    NumeralHasNoSlash(m);
    NumeralHasNoSlash(dd);
    NumeralHasNoSlash(y);
    SplitThree(m, dd, y);
    ParseOfNumerals(FormatDate(d), m, dd, y);
  }

  /** A parsed date is always one `datetime` accepts. */
  lemma ParseDateValid(s: string)
    ensures ParseDate(s).Some? ==> ValidDate(ParseDate(s).value)
  {
  }

  /** February 29th parses only in leap years. */
  lemma LeapDay(year: int)
    requires 1000 <= year <= 9999
    ensures ParseDate("02/29/" + NatToDecimal(year)).Some? <==> IsLeapYear(year)
  {
    var y := NatToDecimal(year);
    NatToDecimalLength(year, 4);
    NatToDecimalLength(year, 3);
    NatToDecimalRoundTrip(year);
    NumeralHasNoSlash(y);
    assert "02/29/" + y == "02" + "/" + "29" + "/" + y;
    SplitThree("02", "29", y);
    LeapDayFields();
    ParseOfNumerals("02/29/" + y, "02", "29", y);
  }

  lemma LeapDayFields()
    ensures Numeral("02", 1, 2) && Numeral("29", 1, 2)
    ensures DigitsValue("02") == 2 && DigitsValue("29") == 29
  {
    assert "02"[..1] == "0";
    assert "29"[..1] == "2";
  }
}

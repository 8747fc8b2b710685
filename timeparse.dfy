/** The subset of Go's `time` package the attribute mapper relies on:
    `time.Parse("2006-01-02", s)`, the calendar rules it checks, and the
    matching `Format` as a partner. */
module Time {
  import opened Wrappers

  /** A calendar day in UTC, the part of `time.Time` a date-only layout sets. */
  datatype Date = Date(year: int, month: int, day: int)

  /** Gregorian leap years, as Go's `isLeap`. */
  predicate IsLeap(year: int) {
    year % 4 == 0 && (year % 100 != 0 || year % 400 == 0)
  }

  /** Go's `daysIn(month, year)`. */
  function DaysIn(month: int, year: int): (n: int)
    requires 1 <= month <= 12
    ensures 28 <= n <= 31
    ensures month == 2 ==> (n == 29 <==> IsLeap(year))
  {
    if month == 2 then (if IsLeap(year) then 29 else 28)
    else if month == 4 || month == 6 || month == 9 || month == 11 then 30
    else 31
  }

  /** The dates layout "2006-01-02" can denote: a four-digit year, and a
      month and day that exist in that year. */
  predicate ValidDate(d: Date) {
    0 <= d.year <= 9999 && 1 <= d.month <= 12 && 1 <= d.day <= DaysIn(d.month, d.year)
  }

  predicate IsDigit(c: char) { '0' <= c <= '9' }

  function DigitValue(c: char): (v: int)
    requires IsDigit(c)
    ensures 0 <= v <= 9
  {
    c as int - '0' as int
  }

  function DigitChar(v: int): (c: char)
    requires 0 <= v <= 9
    ensures IsDigit(c) && DigitValue(c) == v
  {
    ('0' as int + v) as char
  }

  /** The layout's shape: exactly "DDDD-DD-DD". Go reads the year with
      four digits, the month and the day with exactly two (the zero-padded
      "01" and "02" elements), and refuses any text left over. */
  predicate HasDateShape(s: string) {
    |s| == 10
    && IsDigit(s[0]) && IsDigit(s[1]) && IsDigit(s[2]) && IsDigit(s[3])
    && s[4] == '-' && IsDigit(s[5]) && IsDigit(s[6])
    && s[7] == '-' && IsDigit(s[8]) && IsDigit(s[9])
  }

  /** `time.Parse("2006-01-02", s)`: None is the parse error. A month
      outside 1..12 or a day outside 1..DaysIn is refused ("month out of
      range", "day out of range"). */
  function ParseDate(s: string): (r: Option<Date>)
    ensures r.Some? ==> HasDateShape(s) && ValidDate(r.value)
  {
    if !HasDateShape(s) then None
    else
      var year := 1000 * DigitValue(s[0]) + 100 * DigitValue(s[1]) + 10 * DigitValue(s[2]) + DigitValue(s[3]);
      var month := 10 * DigitValue(s[5]) + DigitValue(s[6]);
      var day := 10 * DigitValue(s[8]) + DigitValue(s[9]);
      if 1 <= month <= 12 && 1 <= day <= DaysIn(month, year) then Some(Date(year, month, day))
      else None
  }

  /** `t.Format("2006-01-02")` for the dates the layout can denote. */
  function FormatDate(d: Date): (s: string)
    requires ValidDate(d)
    ensures HasDateShape(s)
  {
    [DigitChar(d.year / 1000), DigitChar(d.year / 100 % 10), DigitChar(d.year / 10 % 10), DigitChar(d.year % 10),
     '-', DigitChar(d.month / 10), DigitChar(d.month % 10),
     '-', DigitChar(d.day / 10), DigitChar(d.day % 10)]
  }

  /** The four decimal digits of a year in 0..9999, most significant first. */
  lemma YearDigits(year: int)
    requires 0 <= year <= 9999
    ensures 0 <= year / 1000 <= 9 && 0 <= year / 100 % 10 <= 9 && 0 <= year / 10 % 10 <= 9
    ensures 1000 * (year / 1000) + 100 * (year / 100 % 10) + 10 * (year / 10 % 10) + year % 10 == year
  {
  }

  /** Reading four digits back gives each digit. */
  lemma DigitsOfYear(a: int, b: int, c: int, e: int)
    requires 0 <= a <= 9 && 0 <= b <= 9 && 0 <= c <= 9 && 0 <= e <= 9
    ensures var n := 1000 * a + 100 * b + 10 * c + e;
      n / 1000 == a && n / 100 % 10 == b && n / 10 % 10 == c && n % 10 == e
  {
    var n := 1000 * a + 100 * b + 10 * c + e;
    assert n / 1000 == a;
    assert n / 100 == 10 * a + b;
    assert n / 10 == 100 * a + 10 * b + c;
  }

  /** Every date the layout can denote is parsed back from its own text. */
  lemma ParseFormat(d: Date)
    requires ValidDate(d)
    ensures ParseDate(FormatDate(d)) == Some(d)
  {
    YearDigits(d.year);
    assert 10 * (d.month / 10) + d.month % 10 == d.month;
    assert 10 * (d.day / 10) + d.day % 10 == d.day;
  }

  /** The parser accepts only canonical text: whatever it accepts is exactly
      the formatting of the date it returns. */
  lemma FormatParse(s: string)
    requires ParseDate(s).Some?
    ensures FormatDate(ParseDate(s).value) == s
  {
    var d := ParseDate(s).value;
    DigitsOfYear(DigitValue(s[0]), DigitValue(s[1]), DigitValue(s[2]), DigitValue(s[3]));
    var f := FormatDate(d);
    assert f[0] == s[0] && f[1] == s[1] && f[2] == s[2] && f[3] == s[3];
    assert f[5] == s[5] && f[6] == s[6] && f[8] == s[8] && f[9] == s[9];
    assert f == s;
  }

  /** A leap day parses exactly in leap years. */
  lemma LeapDayParsesIffLeapYear(year: int)
    requires 0 <= year <= 9999
    ensures var s := [DigitChar(year / 1000), DigitChar(year / 100 % 10), DigitChar(year / 10 % 10),
                      DigitChar(year % 10), '-', '0', '2', '-', '2', '9'];
      ParseDate(s).Some? <==> IsLeap(year)
  {
    YearDigits(year);
  }
}

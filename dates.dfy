/**
 * `pd.to_datetime(text, format="%d/%m/%Y")` for one cell. pandas matches the text against the
 * strptime patterns `3[01]|[12]\d|0[1-9]|[1-9]| [1-9]` (day), `1[0-2]|0[1-9]|[1-9]` (month) and
 * `\d\d\d\d` (year), requires the whole text to be consumed, and then builds a calendar date, which
 * fails for a day past the end of the month or for year 0. Blank text and the NaT spellings give NaT
 * without an error.
 */
module Dates {
  import opened Wrappers
  import opened Strings

  datatype Date = Date(year: int, month: int, day: int)

  predicate IsLeap(y: int)
  {
    y % 4 == 0 && (y % 100 != 0 || y % 400 == 0)
  }

  function DaysInMonth(y: int, m: int): (n: int)
    requires 1 <= m <= 12
    ensures 28 <= n <= 31
  {
    if m == 2 then (if IsLeap(y) then 29 else 28)
    else if m == 4 || m == 6 || m == 9 || m == 11 then 30
    else 31
  }

  /** A date Python's `datetime` accepts. */
  predicate Valid(d: Date)
  {
    1 <= d.year <= 9999 && 1 <= d.month <= 12 && 1 <= d.day <= DaysInMonth(d.year, d.month)
  }

  /** Calendar order: year first, then month, then day. */
  predicate Before(a: Date, b: Date)
  {
    a.year < b.year || (a.year == b.year && (a.month < b.month || (a.month == b.month && a.day < b.day)))
  }

  /**
   * The integer that stands for a parsed date in the table. Downstream, dates are only compared,
   * tested for equality, grouped and sorted, so any order-embedding of the calendar serves.
   */
  function Key(d: Date): int
  {
    d.year * 10000 + d.month * 100 + d.day
  }

  /** `Key` orders valid dates exactly as the calendar does, and distinct dates get distinct keys. */
  lemma KeyOrder(a: Date, b: Date)
    requires Valid(a) && Valid(b)
    ensures Key(a) < Key(b) <==> Before(a, b)
    ensures Key(a) == Key(b) <==> a == b
  {
  }

  function DayToken(t: string): (r: Option<int>)
    ensures r.Some? ==> 1 <= r.value <= 31
  {
    if |t| == 1 && '1' <= t[0] <= '9' then Some(DigitValue(t[0]))
    else if |t| == 2 && t[0] == ' ' && '1' <= t[1] <= '9' then Some(DigitValue(t[1]))
    else if |t| == 2 && IsDigit(t[0]) && IsDigit(t[1]) && 1 <= 10 * DigitValue(t[0]) + DigitValue(t[1]) <= 31
    then Some(10 * DigitValue(t[0]) + DigitValue(t[1]))
    else None
  }

  function MonthToken(t: string): (r: Option<int>)
    ensures r.Some? ==> 1 <= r.value <= 12
  {
    if |t| == 1 && '1' <= t[0] <= '9' then Some(DigitValue(t[0]))
    else if |t| == 2 && IsDigit(t[0]) && IsDigit(t[1]) && 1 <= 10 * DigitValue(t[0]) + DigitValue(t[1]) <= 12
    then Some(10 * DigitValue(t[0]) + DigitValue(t[1]))
    else None
  }

  function YearToken(t: string): (r: Option<int>)
    ensures r.Some? ==> 0 <= r.value <= 9999
  {
    if |t| == 4 && AllDigits(t) then Some(DigitsValue(t)) else None
  }

  /** What `to_datetime` makes of one text cell. */
  datatype DateText = Parsed(date: Date) | NotATime | Malformed

  /** Texts pandas reads as NaT before trying the format. */
  predicate IsNatText(s: string)
  {
    s == "" || s == "NaT" || s == "nat" || s == "NAT" || s == "nan" || s == "NaN" || s == "NAN"
  }

  function ParseDate(s: string): (r: DateText)
    ensures r.Parsed? ==> Valid(r.date)
  {
    if IsNatText(s) then NotATime else ParseFields(Split('/', s))
  }

  /** The `day/month/year` pieces of a text against the three strptime patterns. */
  function ParseFields(parts: seq<string>): (r: DateText)
    ensures r.Parsed? ==> Valid(r.date)
  {
    if |parts| != 3 then Malformed
    else
      var d, m, y := DayToken(parts[0]), MonthToken(parts[1]), YearToken(parts[2]);
      if d.Some? && m.Some? && y.Some? && Valid(Date(y.value, m.value, d.value))
      then Parsed(Date(y.value, m.value, d.value))
      else Malformed
  }

  function TwoDigits(n: nat): (s: string)
    requires n < 100
    ensures |s| == 2 && AllDigits(s)
  {
    [DigitChar(n / 10), DigitChar(n % 10)]
  }

  function FourDigits(n: nat): (s: string)
    requires n < 10000
    ensures |s| == 4 && AllDigits(s) && DigitsValue(s) == n
  {
    var s := [DigitChar(n / 1000), DigitChar(n / 100 % 10), DigitChar(n / 10 % 10), DigitChar(n % 10)];
    assert s[..1][..0] == [];
    assert DigitsValue(s[..1]) == n / 1000;
    assert s[..2][..1] == s[..1];
    assert DigitsValue(s[..2]) == n / 100 by {
      assert n / 100 == (n / 1000) * 10 + n / 100 % 10;
    }
    assert s[..3][..2] == s[..2];
    assert DigitsValue(s[..3]) == n / 10 by {
      assert n / 10 == (n / 100) * 10 + n / 10 % 10;
    }
    assert s[..4][..3] == s[..3] && s[..4] == s;
    assert n == (n / 10) * 10 + n % 10;
    s
  }

  /** The `DD/MM/YYYY` text of a date, as the survey file writes it. */
  function Format(d: Date): (s: string)
    requires Valid(d)
  {
    TwoDigits(d.day) + "/" + TwoDigits(d.month) + "/" + FourDigits(d.year)
  }

  lemma DayTokenTwoDigits(n: nat)
    requires 1 <= n <= 31
    ensures DayToken(TwoDigits(n)) == Some(n)
  {
  }

  lemma MonthTokenTwoDigits(n: nat)
    requires 1 <= n <= 12
    ensures MonthToken(TwoDigits(n)) == Some(n)
  {
  }

  lemma SplitFormat(d: Date)
    requires Valid(d)
    ensures Split('/', Format(d)) == [TwoDigits(d.day), TwoDigits(d.month), FourDigits(d.year)]
  {
    var a, b, c := TwoDigits(d.day), TwoDigits(d.month), FourDigits(d.year);
    assert Format(d) == a + ['/'] + (b + ['/'] + c);
    SplitCons('/', a, b + ['/'] + c);
    SplitCons('/', b, c);
    SplitNone('/', c);
  }

  /** Every valid date written as `DD/MM/YYYY` is read back as itself. */
  lemma ParseFormat(d: Date)
    requires Valid(d)
    ensures ParseDate(Format(d)) == Parsed(d)
  {
    SplitFormat(d);
    DayTokenTwoDigits(d.day);
    MonthTokenTwoDigits(d.month);
    assert |Format(d)| == 10;
  }
}

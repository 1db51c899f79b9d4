/** The calendar-date text `new Date(t).toISOString().split("T")[0]` that
    the transaction forms put in their date inputs, and a reader for it.
    The reader is not part of the application; it is the partner that shows
    the text determines the UTC calendar day it was cut from. */
module IsoDate {
  import opened Calendar
  import opened Text
  import opened Js

  datatype CivilDate = CivilDate(year: int, month: int, day: int)

  /** Year, month (1-12) and day of month (1-31) of day `d`. */
  function CivilOf(d: int): (c: CivilDate)
    ensures 1 <= c.month <= 12 && 1 <= c.day <= 31
  {
    var mi := MonthOfDay(d);
    CivilDate(YearOfMonth(mi), MonthOfYear(mi) + 1, DayOfMonth(d))
  }

  /** Day number of a civil date. */
  function DayOfCivil(c: CivilDate): int
  {
    MonthStartDay(12 * c.year + c.month - 1) + c.day - 1
  }

  /** `CivilOf` loses nothing: the civil date names the day it came from. */
  lemma CivilOfRoundTrip(d: int)
    ensures DayOfCivil(CivilOf(d)) == d
  {
    var mi := MonthOfDay(d);
    assert 12 * YearOfMonth(mi) + MonthOfYear(mi) == mi;
  }

  function DigitChar(n: int): (c: char)
    requires 0 <= n < 10
    ensures IsDigit(c)
  {
    ('0' as int + n) as char
  }

  function DigitValue(c: char): int
  {
    c as int - '0' as int
  }

  /** Decimal digits of `n`, zero-padded on the left to at least `width`. */
  function Digits(n: nat, width: nat): (s: string)
    ensures |s| >= 1 && |s| >= width
    ensures forall i :: 0 <= i < |s| ==> IsDigit(s[i])
    decreases n + width
  {
    if n < 10 && width <= 1 then [DigitChar(n)]
    else Digits(n / 10, if width == 0 then 0 else width - 1) + [DigitChar(n % 10)]
  }

  /** Value of a string of decimal digits. */
  function DigitsValue(s: string): int
  {
    if s == [] then 0 else DigitsValue(s[..|s| - 1]) * 10 + DigitValue(s[|s| - 1])
  }

  lemma {:induction false} DigitsValueOf(n: nat, width: nat)
    ensures DigitsValue(Digits(n, width)) == n
    decreases n + width
  {
    if !(n < 10 && width <= 1) {
      var s := Digits(n, width);
      DigitsValueOf(n / 10, if width == 0 then 0 else width - 1);
      assert s[..|s| - 1] == Digits(n / 10, if width == 0 then 0 else width - 1);
    }
  }

  /** A one- or two-digit number takes exactly two characters. */
  lemma TwoDigits(n: nat)
    requires n < 100
    ensures |Digits(n, 2)| == 2
  {
    assert Digits(n / 10, 1) == [DigitChar(n / 10)];
  }

  /** `toISOString` writes years 0-9999 with four digits and every other
      year with a sign and six digits. */
  function YearText(y: int): string
  {
    if 0 <= y <= 9999 then Digits(y, 4)
    else (if y < 0 then "-" else "+") + Digits(if y < 0 then -y else y, 6)
  }

  function FormatCivil(c: CivilDate): string
    requires 1 <= c.month <= 12 && 1 <= c.day <= 31
  {
    YearText(c.year) + "-" + Digits(c.month, 2) + "-" + Digits(c.day, 2)
  }

  /** Day number `d` written as "YYYY-MM-DD". */
  function DayText(d: int): string
  {
    FormatCivil(CivilOf(d))
  }

  /** The UTC calendar date of instant `t` as "YYYY-MM-DD", the part of
      `toISOString` before the "T". */
  function IsoDay(t: int): (r: string)
    ensures ParseCivil(r).Some?
    ensures DayOfCivil(ParseCivil(r).value) == DayOf(t, 0)
  {
    DayTextRoundTrip(DayOf(t, 0));
    DayText(DayOf(t, 0))
  }

  function ParseYear(s: string): int
  {
    if |s| > 0 && s[0] == '-' then -DigitsValue(s[1..])
    else if |s| > 0 && s[0] == '+' then DigitsValue(s[1..])
    else DigitsValue(s)
  }

  /** Reads "<year>-MM-DD" back into a civil date. */
  function ParseCivil(s: string): Option<CivilDate>
  {
    if |s| < 7 || s[|s| - 6] != '-' || s[|s| - 3] != '-' then None
    else Some(CivilDate(ParseYear(s[..|s| - 6]),
                        DigitsValue(s[|s| - 5..|s| - 3]),
                        DigitsValue(s[|s| - 2..])))
  }

  lemma ParseYearText(y: int)
    ensures ParseYear(YearText(y)) == y
    ensures |YearText(y)| >= 1
  {
    if 0 <= y <= 9999 {
      DigitsValueOf(y, 4);
      assert IsDigit(YearText(y)[0]);
    } else {
      var n := if y < 0 then -y else y;
      var s := YearText(y);
      assert s[1..] == Digits(n, 6);
      DigitsValueOf(n, 6);
    }
  }

  /** Where the parts of a formatted date sit: the year before the
      sixth-last character, the month and the day in the two-character
      fields after the two dashes. */
  lemma FormatCivilParts(c: CivilDate)
    requires 1 <= c.month <= 12 && 1 <= c.day <= 31
    ensures var s := FormatCivil(c);
      && |s| >= 7 && s[|s| - 6] == '-' && s[|s| - 3] == '-'
      && s[..|s| - 6] == YearText(c.year)
      && s[|s| - 5..|s| - 3] == Digits(c.month, 2)
      && s[|s| - 2..] == Digits(c.day, 2)
  {
    var ys := YearText(c.year);
    var ms := Digits(c.month, 2);
    var ds := Digits(c.day, 2);
    TwoDigits(c.month);
    TwoDigits(c.day);
    ParseYearText(c.year);
    var s := FormatCivil(c);
    assert s == ys + "-" + ms + "-" + ds;
    assert s[..|s| - 6] == ys;
    assert s[|s| - 5..|s| - 3] == ms;
    assert s[|s| - 2..] == ds;
  }

  /** Reading the formatted text gives back the civil date. */
  lemma FormatParseRoundTrip(c: CivilDate)
    requires 1 <= c.month <= 12 && 1 <= c.day <= 31
    ensures ParseCivil(FormatCivil(c)) == Some(c)
  {
    FormatCivilParts(c);
    ParseYearText(c.year);
    DigitsValueOf(c.month, 2);
    DigitsValueOf(c.day, 2);
  }

  /** The text of a day names that day: reading it back gives the civil
      date whose day number is `d`. */
  lemma DayTextRoundTrip(d: int)
    ensures ParseCivil(DayText(d)).Some?
    ensures DayOfCivil(ParseCivil(DayText(d)).value) == d
  {
    FormatParseRoundTrip(CivilOf(d));
    CivilOfRoundTrip(d);
  }
}

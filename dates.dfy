/** Calendar values and the two `strftime` formats the task mixins use
    (fireflower/tasks.py: `'%Y-%m-%d'` and `'%Y-%m-%d %H:00'`). */
module Dates {
  import opened Common

  /** A `datetime.date`. */
  datatype Date = Date(year: int, month: int, day: int)

  /** A naive `datetime.datetime`: a date and a time of day. */
  datatype DateTime = DateTime(date: Date, hour: int, minute: int, second: int, microsecond: int)

  function DaysInMonth(year: int, month: int): int
  {
    if month == 2 then (if (year % 4 == 0 && year % 100 != 0) || year % 400 == 0 then 29 else 28)
    else if month in {4, 6, 9, 11} then 30
    else 31
  }

  /** The dates Python can represent (`MINYEAR` 1 to `MAXYEAR` 9999). */
  predicate ValidDate(d: Date)
  {
    1 <= d.year <= 9999 && 1 <= d.month <= 12 && 1 <= d.day <= DaysInMonth(d.year, d.month)
  }

  predicate ValidDateTime(t: DateTime)
  {
    ValidDate(t.date) && 0 <= t.hour < 24 && 0 <= t.minute < 60 && 0 <= t.second < 60
    && 0 <= t.microsecond < 1000000
  }

  /** `datetime.combine(d, time.min)`: the date at midnight. */
  function Midnight(d: Date): (t: DateTime)
    ensures t.date == d && t.hour == 0 && t.minute == 0 && t.second == 0 && t.microsecond == 0
    ensures ValidDate(d) ==> ValidDateTime(t)
  {
    DateTime(d, 0, 0, 0, 0)
  }

  function Pow10(w: nat): (p: nat)
    ensures p >= 1
  {
    if w == 0 then 1 else 10 * Pow10(w - 1)
  }

  function DigitChar(n: int): char
    requires 0 <= n < 10
  {
    (48 + n) as char
  }

  predicate IsDigit(c: char) { '0' <= c <= '9' }

  /** `n` in decimal, zero-padded to `w` digits (the `%Y`, `%m`, `%d`, `%H` directives). */
  function Padded(n: nat, w: nat): (s: string)
    ensures |s| == w
    ensures forall k :: 0 <= k < |s| ==> IsDigit(s[k])
  {
    if w == 0 then [] else Padded(n / 10, w - 1) + [DigitChar(n % 10)]
  }

  /** The number a string of decimal digits spells. */
  function DigitsValue(s: string): nat
    requires forall k :: 0 <= k < |s| ==> IsDigit(s[k])
  {
    if s == [] then 0
    else
      assert IsDigit(s[|s| - 1]);
      DigitsValue(s[..|s| - 1]) * 10 + (s[|s| - 1] as int - 48)
  }

  lemma {:induction false} PaddedValue(n: nat, w: nat)
    requires n < Pow10(w)
    ensures DigitsValue(Padded(n, w)) == n
  {
    if w > 0 {
      var s := Padded(n, w);
      assert n / 10 < Pow10(w - 1);
      PaddedValue(n / 10, w - 1);
      assert s[..|s| - 1] == Padded(n / 10, w - 1);
    }
  }

  /** `d.strftime('%Y-%m-%d')`. */
  function FormatDate(d: Date): (s: string)
    requires ValidDate(d)
    ensures |s| == 10 && s[4] == '-' && s[7] == '-'
  {
    Padded(d.year, 4) + "-" + Padded(d.month, 2) + "-" + Padded(d.day, 2)
  }

  /** `d.strftime('%Y-%m-%d %H:00')` for a `date`, which has no hour: `%H` reads 00. */
  function FormatDateHourOfDate(d: Date): (s: string)
    requires ValidDate(d)
    ensures s == FormatDate(d) + " 00:00"
  {
    FormatDate(d) + " " + Padded(0, 2) + ":00"
  }

  /** `t.strftime('%Y-%m-%d %H:00')` for a `datetime`. */
  function FormatDateHour(t: DateTime): (s: string)
    requires ValidDateTime(t)
    ensures |s| == 16 && s[..10] == FormatDate(t.date) && s[10] == ' ' && s[13..] == ":00"
  {
    FormatDate(t.date) + " " + Padded(t.hour, 2) + ":00"
  }

  predicate AllDigits(s: string, from: nat, to: nat)
    requires from <= to <= |s|
  {
    forall k :: from <= k < to ==> IsDigit(s[k])
  }

  /** Reads a `'%Y-%m-%d'` string back into year, month and day. */
  function ParseDate(s: string): Option<Date>
  {
    if |s| == 10 && s[4] == '-' && s[7] == '-'
       && AllDigits(s, 0, 4) && AllDigits(s, 5, 7) && AllDigits(s, 8, 10)
    then Some(Date(DigitsValue(s[..4]), DigitsValue(s[5..7]), DigitsValue(s[8..10])))
    else None
  }

  /** Reads a `'%Y-%m-%d %H:00'` string back into its date and hour. */
  function ParseDateHour(s: string): Option<(Date, int)>
  {
    if |s| == 16 && s[10] == ' ' && s[13..] == ":00" && AllDigits(s, 11, 13) then
      match ParseDate(s[..10])
      case None => None
      case Some(d) => Some((d, DigitsValue(s[11..13])))
    else None
  }

  /** The date format loses nothing: reading it back gives the date. */
  lemma FormatDateRoundTrip(d: Date)
    requires ValidDate(d)
    ensures ParseDate(FormatDate(d)) == Some(d)
  {
    var s := FormatDate(d);
    assert s[..4] == Padded(d.year, 4);
    assert s[5..7] == Padded(d.month, 2);
    assert s[8..10] == Padded(d.day, 2);
    PaddedValue(d.year, 4);
    PaddedValue(d.month, 2);
    PaddedValue(d.day, 2);
  }

  /** The date-hour format of a `datetime` keeps its date and its hour. */
  lemma FormatDateHourRoundTrip(t: DateTime)
    requires ValidDateTime(t)
    ensures ParseDateHour(FormatDateHour(t)) == Some((t.date, t.hour))
  {
    var s := FormatDateHour(t);
    FormatDateRoundTrip(t.date);
    assert s[11..13] == Padded(t.hour, 2);
    PaddedValue(t.hour, 2);
  }
}

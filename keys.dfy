/**
 * The parts of a price row's natural key (symbol, date), the order the
 * transform sorts them in, and the text form a date takes before upload.
 */
module Keys {
  import opened Wrappers

  /** Year, month and day. */
  datatype CalendarDate = CalendarDate(year: int, month: int, day: int) {
    /** The ranges `datetime.date` accepts for its three fields. */
    predicate Valid() {
      1 <= year <= 9999 && 1 <= month <= 12 && 1 <= day <= 31
    }
  }

  /** A `datetime.date`, as extraction leaves it in the date column. */
  type Date = d: CalendarDate | d.Valid() witness CalendarDate(1970, 1, 1)

  /** Chronological order on dates. */
  predicate DateLess(a: Date, b: Date) {
    a.year < b.year ||
    (a.year == b.year && (a.month < b.month || (a.month == b.month && a.day < b.day)))
  }

  /** Python's order on strings: code point by code point, a proper prefix first. */
  predicate StrLess(a: string, b: string)
    decreases |a|
  {
    |b| > 0 && (|a| == 0 || a[0] < b[0] || (a[0] == b[0] && StrLess(a[1..], b[1..])))
  }

  lemma {:induction false} StrLessIrreflexive(a: string)
    ensures !StrLess(a, a)
    decreases |a|
  {
    if |a| > 0 {
      StrLessIrreflexive(a[1..]);
    }
  }

  lemma {:induction false} StrLessTransitive(a: string, b: string, c: string)
    requires StrLess(a, b) && StrLess(b, c)
    ensures StrLess(a, c)
    decreases |a|
  {
    if |a| > 0 && a[0] == b[0] && b[0] == c[0] {
      StrLessTransitive(a[1..], b[1..], c[1..]);
    }
  }

  /** Any two different strings are ordered one way or the other. */
  lemma {:induction false} StrLessTotal(a: string, b: string)
    requires a != b
    ensures StrLess(a, b) || StrLess(b, a)
    decreases |a|
  {
    if |a| > 0 && |b| > 0 && a[0] == b[0] {
      assert a == [a[0]] + a[1..] && b == [b[0]] + b[1..];
      StrLessTotal(a[1..], b[1..]);
    }
  }

  // ---------------------------------------------------------------------
  // str(date): the ISO text "YYYY-MM-DD" that the loader uploads
  // ---------------------------------------------------------------------

  function DigitChar(n: int): char
    requires 0 <= n < 10
  {
    (('0' as int) + n) as char
  }

  /** `n` written with exactly `width` decimal digits, zero-padded on the left. */
  function Padded(n: nat, width: nat): (s: string)
    ensures |s| == width
    ensures forall k :: 0 <= k < |s| ==> '0' <= s[k] <= '9'
  {
    if width == 0 then "" else Padded(n / 10, width - 1) + [DigitChar(n % 10)]
  }

  /** The value of a string of decimal digits. */
  function DigitsValue(s: string): nat {
    if s == [] then 0
    else
      var d := s[|s| - 1] as int - '0' as int;
      DigitsValue(s[..|s| - 1]) * 10 + (if 0 <= d < 10 then d else 0)
  }

  function Pow10(k: nat): (p: nat)
    ensures p >= 1
  {
    if k == 0 then 1 else 10 * Pow10(k - 1)
  }

  lemma {:induction false} PaddedValue(n: nat, width: nat)
    requires n < Pow10(width)
    ensures DigitsValue(Padded(n, width)) == n
  {
    if width > 0 {
      var s := Padded(n, width);
      assert s[..|s| - 1] == Padded(n / 10, width - 1);
      PaddedValue(n / 10, width - 1);
    }
  }

  /** `str(d)` for a `datetime.date`: "YYYY-MM-DD". */
  function DateText(d: Date): (s: string)
    ensures |s| == 10 && s[4] == '-' && s[7] == '-'
  {
    Padded(d.year, 4) + "-" + Padded(d.month, 2) + "-" + Padded(d.day, 2)
  }

  /** Reads the date back from its ISO text. */
  function ParseDateText(s: string): Option<Date> {
    if |s| == 10 && s[4] == '-' && s[7] == '-' then
      var d := CalendarDate(DigitsValue(s[..4]), DigitsValue(s[5..7]), DigitsValue(s[8..]));
      if d.Valid() then Some(d) else None
    else None
  }

  /** The text form of a date determines the date. */
  lemma DateTextRoundTrip(d: Date)
    ensures ParseDateText(DateText(d)) == Some(d)
  {
    var s := DateText(d);
    assert s[..4] == Padded(d.year, 4);
    assert s[5..7] == Padded(d.month, 2);
    assert s[8..] == Padded(d.day, 2);
    PaddedValue(d.year, 4);
    PaddedValue(d.month, 2);
    PaddedValue(d.day, 2);
  }

  /** Different dates never share a text form, so the upload key stays unique. */
  lemma DateTextInjective(d: Date, e: Date)
    requires DateText(d) == DateText(e)
    ensures d == e
  {
    DateTextRoundTrip(d);
    DateTextRoundTrip(e);
  }
}

/**
 * Calendar dates as Python's `datetime.date` sees them: the proleptic
 * Gregorian calendar over years 1 to 9999, the ordinal day number of
 * `date.toordinal()`, `strftime` with `%m`, `%d`, `%Y` and a fixed
 * separator, and its strict inverse for `strptime`.
 */
module Dates {
  import opened Wrappers

  datatype Date = Date(year: int, month: int, day: int)

  const MinYear := 1
  const MaxYear := 9999

  predicate IsLeap(y: int) {
    y % 4 == 0 && (y % 100 != 0 || y % 400 == 0)
  }

  function DaysInMonth(y: int, m: int): (n: int)
    requires 1 <= m <= 12
    ensures 28 <= n <= 31
    ensures m == 2 ==> (n == 29 <==> IsLeap(y))
  {
    if m == 2 then (if IsLeap(y) then 29 else 28)
    else if m == 4 || m == 6 || m == 9 || m == 11 then 30
    else 31
  }

  /** A date `datetime.date` accepts. */
  predicate Valid(d: Date) {
    MinYear <= d.year <= MaxYear && 1 <= d.month <= 12 &&
    1 <= d.day <= DaysInMonth(d.year, d.month)
  }

  function DaysInYear(y: int): int {
    if IsLeap(y) then 366 else 365
  }

  /** Days in the years before `y`, as `_days_before_year` computes them. */
  function DaysBeforeYear(y: int): int
    requires y >= 1
  {
    var k := y - 1;
    k * 365 + k / 4 - k / 100 + k / 400
  }

  /** Days in the months of year `y` before month `m`. */
  function DaysBeforeMonth(y: int, m: int): int
    requires 1 <= m <= 12
  {
    [0, 31, 59, 90, 120, 151, 181, 212, 243, 273, 304, 334][m - 1] +
    (if m > 2 && IsLeap(y) then 1 else 0)
  }

  /** `date.toordinal()`: 0001-01-01 is day 1. */
  function Ordinal(d: Date): int
    requires Valid(d)
  {
    DaysBeforeYear(d.year) + DaysBeforeMonth(d.year, d.month) + d.day
  }

  /** Stepping from `y - 1` to `y` passes one more multiple of `n` exactly when `n` divides `y`. */
  lemma MultiplesStep(y: int, n: int)
    requires y >= 1 && (n == 4 || n == 100 || n == 400)
    ensures y / n - (y - 1) / n == (if y % n == 0 then 1 else 0)
  {
    if n == 4 {
      var q, r := (y - 1) / 4, (y - 1) % 4;
      if r == 3 { assert y == 4 * (q + 1); } else { assert y == 4 * q + (r + 1); }
    } else if n == 100 {
      var q, r := (y - 1) / 100, (y - 1) % 100;
      if r == 99 { assert y == 100 * (q + 1); } else { assert y == 100 * q + (r + 1); }
    } else {
      var q, r := (y - 1) / 400, (y - 1) % 400;
      if r == 399 { assert y == 400 * (q + 1); } else { assert y == 400 * q + (r + 1); }
    }
  }

  /** Multiples of 400 are multiples of 100, and those are multiples of 4. */
  lemma MultiplesNest(y: int)
    ensures y % 400 == 0 ==> y % 100 == 0
    ensures y % 100 == 0 ==> y % 4 == 0
  {
    if y % 400 == 0 {
      var k := 4 * (y / 400);
      assert y == 100 * k;
      assert y / 100 == k;
    }
    if y % 100 == 0 {
      var k := 25 * (y / 100);
      assert y == 4 * k;
      assert y / 4 == k;
    }
  }

  /** A year adds its own length to the day count. */
  lemma {:induction false} DaysBeforeNextYear(y: int)
    requires y >= 1
    ensures DaysBeforeYear(y + 1) == DaysBeforeYear(y) + DaysInYear(y)
  {
    assert DaysBeforeYear(y + 1) - DaysBeforeYear(y) ==
      365 + (y / 4 - (y - 1) / 4) - (y / 100 - (y - 1) / 100) + (y / 400 - (y - 1) / 400);
    MultiplesStep(y, 4);
    MultiplesStep(y, 100);
    MultiplesStep(y, 400);
    MultiplesNest(y);
  }

  /** The day before `d` (`d - timedelta(days=1)`). */
  function PrevDay(d: Date): (r: Date)
    requires Valid(d) && d != Date(MinYear, 1, 1)
    ensures Valid(r) && Ordinal(r) == Ordinal(d) - 1
  {
    if d.day > 1 then Date(d.year, d.month, d.day - 1)
    else if d.month > 1 then Date(d.year, d.month - 1, DaysInMonth(d.year, d.month - 1))
    else
      DaysBeforeNextYear(d.year - 1);
      Date(d.year - 1, 12, 31)
  }

  /** `d - timedelta(days=n)`, defined while the result stays in range. */
  function DaysBefore(d: Date, n: nat): (r: Date)
    requires Valid(d) && Ordinal(d) > n
    ensures Valid(r) && Ordinal(r) == Ordinal(d) - n
  {
    if n == 0 then d else PrevDay(DaysBefore(d, n - 1))
  }

  // ---- strftime("%m<sep>%d<sep>%Y") and its strict inverse ----

  predicate IsDigit(c: char) {
    '0' <= c <= '9'
  }

  function DigitChar(n: int): (c: char)
    requires 0 <= n < 10
    ensures IsDigit(c)
  {
    ('0' as int + n) as char
  }

  function DigitValue(c: char): int
    requires IsDigit(c)
  {
    c as int - '0' as int
  }

  /** `n` written in exactly `w` decimal digits, zero-padded on the left. */
  function Padded(n: nat, w: nat): (s: string)
    requires n < Pow10(w)
    ensures |s| == w
    ensures forall k :: 0 <= k < |s| ==> IsDigit(s[k])
  {
    if w == 0 then [] else Padded(n / 10, w - 1) + [DigitChar(n % 10)]
  }

  function Pow10(w: nat): (p: nat)
    ensures p >= 1
  {
    if w == 0 then 1 else 10 * Pow10(w - 1)
  }

  /** The number a run of decimal digits denotes. */
  function Number(s: string): (n: nat)
    requires forall k :: 0 <= k < |s| ==> IsDigit(s[k])
    ensures n < Pow10(|s|)
  {
    if s == [] then 0 else 10 * Number(s[..|s| - 1]) + DigitValue(s[|s| - 1])
  }

  lemma {:induction false} NumberOfPadded(n: nat, w: nat)
    requires n < Pow10(w)
    ensures Number(Padded(n, w)) == n
  {
    if w > 0 {
      var s := Padded(n, w);
      assert s[..w - 1] == Padded(n / 10, w - 1);
      NumberOfPadded(n / 10, w - 1);
    }
  }

  lemma {:induction false} PaddedOfNumber(s: string)
    requires forall k :: 0 <= k < |s| ==> IsDigit(s[k])
    ensures Padded(Number(s), |s|) == s
  {
    if s != [] {
      var init := s[..|s| - 1];
      PaddedOfNumber(init);
      var n := Number(s);
      assert n / 10 == Number(init);
      assert DigitChar(n % 10) == s[|s| - 1];
    }
  }

  /** `date.strftime("%m" + sep + "%d" + sep + "%Y")`. */
  function Format(d: Date, sep: char): (s: string)
    requires Valid(d)
    ensures |s| == 10 && s[2] == sep && s[5] == sep
    ensures forall k :: 0 <= k < 10 && k != 2 && k != 5 ==> IsDigit(s[k])
    ensures Number(s[..2]) == d.month && Number(s[3..5]) == d.day && Number(s[6..]) == d.year
  {
    var month, day, year := Padded(d.month, 2), Padded(d.day, 2), Padded(d.year, 4);
    FieldsOf(month, day, year, sep);
    NumberOfPadded(d.month, 2);
    NumberOfPadded(d.day, 2);
    NumberOfPadded(d.year, 4);
    month + [sep] + day + [sep] + year
  }

  /** Where the separators and the three fields of a formatted date sit. */
  lemma FieldsOf(month: string, day: string, year: string, sep: char)
    requires |month| == 2 && |day| == 2 && |year| == 4
    requires AllDigits(month) && AllDigits(day) && AllDigits(year)
    ensures var s := month + [sep] + day + [sep] + year;
      && |s| == 10 && s[2] == sep && s[5] == sep
      && (forall k :: 0 <= k < 10 && k != 2 && k != 5 ==> IsDigit(s[k]))
      && s[..2] == month && s[3..5] == day && s[6..] == year
  {
  }

  predicate AllDigits(s: string) {
    forall k :: 0 <= k < |s| ==> IsDigit(s[k])
  }

  /**
   * `datetime.strptime(s, "%m" + sep + "%d" + sep + "%Y")` restricted to
   * zero-padded fields: `None` where strptime raises `ValueError`.
   */
  function Parse(s: string, sep: char): (r: Option<Date>)
    ensures r.Some? ==> Valid(r.value)
  {
    if |s| == 10 && s[2] == sep && s[5] == sep &&
       AllDigits(s[..2]) && AllDigits(s[3..5]) && AllDigits(s[6..])
    then
      var d := Date(Number(s[6..]), Number(s[..2]), Number(s[3..5]));
      if Valid(d) then Some(d) else None
    else None
  }

  /** Formatting a valid date and parsing it back yields the date. */
  lemma ParseFormat(d: Date, sep: char)
    requires Valid(d)
    ensures Parse(Format(d, sep), sep) == Some(d)
  {
    var s := Format(d, sep);
    assert s[..2] == Padded(d.month, 2);
    assert s[3..5] == Padded(d.day, 2);
    assert s[6..] == Padded(d.year, 4);
    NumberOfPadded(d.month, 2);
    NumberOfPadded(d.day, 2);
    NumberOfPadded(d.year, 4);
  }

  /** Whatever parses is exactly the formatting of the date it denotes. */
  lemma FormatParse(s: string, sep: char)
    requires Parse(s, sep).Some?
    ensures Format(Parse(s, sep).value, sep) == s
  {
    PaddedOfNumber(s[..2]);
    PaddedOfNumber(s[3..5]);
    PaddedOfNumber(s[6..]);
    assert s == s[..2] + [sep] + s[3..5] + [sep] + s[6..];
  }

  /** Distinct valid dates format to distinct strings. */
  lemma FormatInjective(d1: Date, d2: Date, sep: char)
    requires Valid(d1) && Valid(d2) && Format(d1, sep) == Format(d2, sep)
    ensures d1 == d2
  {
    ParseFormat(d1, sep);
    ParseFormat(d2, sep);
  }
}

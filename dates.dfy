/**
  Calendar dates as Python's `datetime.date` holds them (years 1 to 9999, proleptic
  Gregorian), the extended ISO 8601 calendar-date form `YYYY-MM-DD` produced by
  `date.isoformat()` and read back by `date.fromisoformat()`, and `format_date`.
*/
module Dates {
  import opened Wrappers

  datatype CalendarDate = CalendarDate(year: int, month: int, day: int)

  predicate IsLeapYear(y: int) {
    y % 4 == 0 && (y % 100 != 0 || y % 400 == 0)
  }

  function DaysInMonth(y: int, m: int): (n: int)
    requires 1 <= m <= 12
    ensures 28 <= n <= 31
  {
    if m == 2 then (if IsLeapYear(y) then 29 else 28)
    else if m == 4 || m == 6 || m == 9 || m == 11 then 30
    else 31
  }

  /** The range checks `date(year, month, day)` performs (`MINYEAR` = 1, `MAXYEAR` = 9999). */
  predicate IsValid(d: CalendarDate) {
    1 <= d.year <= 9999 && 1 <= d.month <= 12 && 1 <= d.day <= DaysInMonth(d.year, d.month)
  }

  /** A `datetime.date` value. */
  type Date = d: CalendarDate | IsValid(d) witness CalendarDate(1, 1, 1)

  /** A pair of dates as the deck's date-range table stores them; no order between them is assumed. */
  datatype DateRange = DateRange(startDate: Date, endDate: Date)

  predicate IsDigit(c: char) {
    '0' <= c <= '9'
  }

  predicate AllDigits(s: string) {
    forall i | 0 <= i < |s| :: IsDigit(s[i])
  }

  function Digit(n: nat): (c: char)
    requires n < 10
    ensures IsDigit(c)
  {
    ('0' as int + n) as char
  }

  function DigitValue(c: char): (n: nat)
    requires IsDigit(c)
    ensures n < 10 && Digit(n) == c
  {
    c as int - '0' as int
  }

  function Pow10(w: nat): (p: nat)
    ensures p >= 1
  {
    if w == 0 then 1 else 10 * Pow10(w - 1)
  }

  /** `%0<width>d`: the last `width` decimal digits of `n`, zero-padded on the left. */
  function Pad(n: nat, width: nat): (s: string)
    ensures |s| == width && AllDigits(s)
  {
    if width == 0 then [] else Pad(n / 10, width - 1) + [Digit(n % 10)]
  }

  /** The value of a string of decimal digits (`int(s)` for ASCII digits). */
  function ParseDigits(s: string): (n: nat)
    requires AllDigits(s)
    ensures n < Pow10(|s|)
  {
    if s == [] then 0 else ParseDigits(s[..|s| - 1]) * 10 + DigitValue(s[|s| - 1])
  }

  /** Reading a padded number gives it back when it fits the width. */
  lemma {:induction false} ParsePad(n: nat, width: nat)
    requires n < Pow10(width)
    ensures ParseDigits(Pad(n, width)) == n
  {
    if width > 0 {
      var s := Pad(n, width);
      assert s[..|s| - 1] == Pad(n / 10, width - 1);
      ParsePad(n / 10, width - 1);
    }
  }

  /** Padding the value of a digit string to its own width gives the string back. */
  lemma {:induction false} PadParse(s: string)
    requires AllDigits(s)
    ensures Pad(ParseDigits(s), |s|) == s
  {
    if s != [] {
      var p := s[..|s| - 1];
      var n := ParseDigits(s);
      assert n / 10 == ParseDigits(p) && n % 10 == DigitValue(s[|s| - 1]);
      PadParse(p);
      assert s == p + [s[|s| - 1]];
    }
  }

  /** `date.isoformat()`: `%04d-%02d-%02d`. */
  function IsoFormat(d: Date): (s: string)
    ensures |s| == 10 && s[4] == '-' && s[7] == '-'
  {
    Pad(d.year, 4) + "-" + Pad(d.month, 2) + "-" + Pad(d.day, 2)
  }

  /**
    `date.fromisoformat(s)`: exactly ten characters `YYYY-MM-DD` with ASCII digits, and a
    valid date; `None` where Python raises `ValueError`.
  */
  function FromIsoFormat(s: string): (r: Option<Date>)
    ensures r.Some? ==> |s| == 10
  {
    if |s| == 10 && s[4] == '-' && s[7] == '-'
       && AllDigits(s[..4]) && AllDigits(s[5..7]) && AllDigits(s[8..]) then
      var c := CalendarDate(ParseDigits(s[..4]), ParseDigits(s[5..7]), ParseDigits(s[8..]));
      if IsValid(c) then
        var d: Date := c;
        Some(d)
      else None
    else None
  }

  /** Round trip of the date range through the cache: `fromisoformat(isoformat(d)) == d`. */
  lemma IsoRoundTrip(d: Date)
    ensures FromIsoFormat(IsoFormat(d)) == Some(d)
  {
    var s := IsoFormat(d);
    assert s[..4] == Pad(d.year, 4);
    assert s[5..7] == Pad(d.month, 2);
    assert s[8..] == Pad(d.day, 2);
    ParsePad(d.year, 4);
    ParsePad(d.month, 2);
    ParsePad(d.day, 2);
  }

  /** The other direction: a string `fromisoformat` accepts is the canonical form of its date. */
  lemma IsoCanonical(s: string, d: Date)
    requires FromIsoFormat(s) == Some(d)
    ensures IsoFormat(d) == s
  {
    PadParse(s[..4]);
    PadParse(s[5..7]);
    PadParse(s[8..]);
    assert s == s[..4] + "-" + s[5..7] + "-" + s[8..];
  }

  /** `strftime('%B')` in the C locale. */
  function MonthName(m: int): (name: string)
    requires 1 <= m <= 12
    ensures name != [] && forall i | 0 <= i < |name| :: name[i] != ' ' && name[i] != ','
  {
    match m
    case 1 => "January"
    case 2 => "February"
    case 3 => "March"
    case 4 => "April"
    case 5 => "May"
    case 6 => "June"
    case 7 => "July"
    case 8 => "August"
    case 9 => "September"
    case 10 => "October"
    case 11 => "November"
    case _ => "December"
  }

  /** `str(n)` for a natural number: decimal digits without leading zeros. */
  function Decimal(n: nat): (s: string)
    ensures s != [] && AllDigits(s)
    ensures (s[0] == '0') == (n == 0)
    ensures n == 0 ==> |s| == 1
  {
    if n < 10 then [Digit(n)] else Decimal(n / 10) + [Digit(n % 10)]
  }

  lemma {:induction false} DecimalValue(n: nat)
    ensures ParseDigits(Decimal(n)) == n
  {
    if n >= 10 {
      var s := Decimal(n);
      assert s[..|s| - 1] == Decimal(n / 10);
      DecimalValue(n / 10);
    }
  }

  /** `format_date(dt)`: month name, day without zero padding, comma, year. */
  function FormatDate(d: Date): (r: string)
    ensures exists day, year | AllDigits(day) && AllDigits(year) ::
              && r == MonthName(d.month) + " " + day + ", " + year
              && day != [] && day[0] != '0' && ParseDigits(day) == d.day
              && year != [] && year[0] != '0' && ParseDigits(year) == d.year
  {
    DecimalValue(d.day);
    DecimalValue(d.year);
    MonthName(d.month) + " " + Decimal(d.day) + ", " + Decimal(d.year)
  }

  lemma ConcatAt(a: string, sep: char, b: string, k: nat)
    requires k <= |a|
    ensures (a + [sep] + b)[k] == if k < |a| then a[k] else sep
  {
  }

  /** Splitting `a + [sep] + b` at the first `sep` when `a` has none. */
  lemma SplitAtFirst(sep: char, a: string, b: string, a': string, b': string)
    requires forall i | 0 <= i < |a| :: a[i] != sep
    requires forall i | 0 <= i < |a'| :: a'[i] != sep
    requires a + [sep] + b == a' + [sep] + b'
    ensures a == a' && b == b'
  {
    var s := a + [sep] + b;
    if |a| < |a'| {
      ConcatAt(a, sep, b, |a|);
      ConcatAt(a', sep, b', |a|);
      assert false;
    } else if |a'| < |a| {
      ConcatAt(a, sep, b, |a'|);
      ConcatAt(a', sep, b', |a'|);
      assert false;
    }
    assert a == s[..|a|] && a' == s[..|a'|];
    assert b == s[|a| + 1..] && b' == s[|a'| + 1..];
  }

  lemma MonthNameInjective(m: int, m': int)
    requires 1 <= m <= 12 && 1 <= m' <= 12
    requires MonthName(m) == MonthName(m')
    ensures m == m'
  {
  }

  /** The three parts of a `format_date` text can be read back from it. */
  lemma FormatPartsInjective(ma: string, da: string, ya: string, mb: string, db: string, yb: string)
    requires forall i | 0 <= i < |ma| :: ma[i] != ' '
    requires forall i | 0 <= i < |mb| :: mb[i] != ' '
    requires AllDigits(da) && AllDigits(db)
    requires ma + " " + da + ", " + ya == mb + " " + db + ", " + yb
    ensures ma == mb && da == db && ya == yb
  {
    var ra, rb := da + ([','] + ([' '] + ya)), db + ([','] + ([' '] + yb));
    assert ma + " " + da + ", " + ya == ma + [' '] + ra;
    assert mb + " " + db + ", " + yb == mb + [' '] + rb;
    SplitAtFirst(' ', ma, ra, mb, rb);
    assert da + [','] + ([' '] + ya) == ra;
    assert db + [','] + ([' '] + yb) == rb;
    SplitAtFirst(',', da, [' '] + ya, db, [' '] + yb);
    assert ya == ([' '] + ya)[1..] && yb == ([' '] + yb)[1..];
  }

  /** Distinct dates are shown as distinct text: `format_date` loses no information. */
  lemma FormatDateInjective(a: Date, b: Date)
    requires FormatDate(a) == FormatDate(b)
    ensures a == b
  {
    FormatPartsInjective(MonthName(a.month), Decimal(a.day), Decimal(a.year),
                         MonthName(b.month), Decimal(b.day), Decimal(b.year));
    MonthNameInjective(a.month, b.month);
    DecimalValue(a.day);
    DecimalValue(b.day);
    DecimalValue(a.year);
    DecimalValue(b.year);
  }
}

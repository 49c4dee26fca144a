/** Calendar dates of the proleptic Gregorian calendar, as the program's
    `datetime.date` values: adding days (`date + timedelta(days=n)`), the
    ordinal day number, and the `%d.%m.%Y` formatting used for folder names,
    the source-directory test and the missing-date list. */
module Dates {
  import opened Common

  datatype Date = Date(year: int, month: int, day: int)

  /** The year range of a date value. */
  const MinYear := 1
  const MaxYear := 9999

  /** The window's last date is this many days after its first. */
  const LastOffset: nat := 6

  /** Ordinal of 9999-12-31, the last representable date. */
  const MaxOrdinal := 3652059

  predicate IsLeapYear(y: int) {
    y % 4 == 0 && (y % 100 != 0 || y % 400 == 0)
  }

  function DaysInYear(y: int): int {
    if IsLeapYear(y) then 366 else 365
  }

  function DaysInMonth(y: int, m: int): (n: int)
    requires 1 <= m <= 12
    ensures 28 <= n <= 31
    ensures n == 29 <==> m == 2 && IsLeapYear(y)
  {
    if m == 2 then (if IsLeapYear(y) then 29 else 28)
    else if m == 4 || m == 6 || m == 9 || m == 11 then 30
    else 31
  }

  ghost predicate Valid(d: Date) {
    MinYear <= d.year <= MaxYear && 1 <= d.month <= 12 && 1 <= d.day <= DaysInMonth(d.year, d.month)
  }

  /** Number of days in the years 1 .. y-1. */
  function DaysBeforeYear(y: int): int
    requires y >= 1
  {
    var p := y - 1;
    p * 365 + p / 4 - p / 100 + p / 400
  }

  /** Number of days in the months 1 .. m-1 of year y. */
  function DaysBeforeMonth(y: int, m: int): int
    requires 1 <= m <= 12
  {
    var table := [0, 31, 59, 90, 120, 151, 181, 212, 243, 273, 304, 334];
    table[m - 1] + (if m > 2 && IsLeapYear(y) then 1 else 0)
  }

  /** Day number of a date, 0001-01-01 being day 1. */
  function Ordinal(d: Date): int
    requires Valid(d)
  {
    DaysBeforeYear(d.year) + DaysBeforeMonth(d.year, d.month) + d.day
  }

  /** Going from p to p + 1 raises p / k by one exactly when k divides p + 1. */
  lemma DivStep4(p: int)
    requires p >= 0
    ensures (p + 1) / 4 == p / 4 + (if (p + 1) % 4 == 0 then 1 else 0)
  {
  }

  lemma DivStep100(p: int)
    requires p >= 0
    ensures (p + 1) / 100 == p / 100 + (if (p + 1) % 100 == 0 then 1 else 0)
  {
  }

  lemma DivStep400(p: int)
    requires p >= 0
    ensures (p + 1) / 400 == p / 400 + (if (p + 1) % 400 == 0 then 1 else 0)
  {
  }

  lemma DaysBeforeNextYear(y: int)
    requires y >= 1
    ensures DaysBeforeYear(y + 1) == DaysBeforeYear(y) + DaysInYear(y)
  {
    var p := y - 1;
    DivStep4(p);
    DivStep100(p);
    DivStep400(p);
    assert (p + 1) * 365 == p * 365 + 365;
    assert DaysBeforeYear(y + 1) - DaysBeforeYear(y)
        == 365 + ((p + 1) / 4 - p / 4) - ((p + 1) / 100 - p / 100) + ((p + 1) / 400 - p / 400);
  }

  lemma DaysBeforeNextMonth(y: int, m: int)
    requires 1 <= m < 12
    ensures DaysBeforeMonth(y, m + 1) == DaysBeforeMonth(y, m) + DaysInMonth(y, m)
  {
  }

  /** The day after `d`, or None past the last representable date. */
  function NextDay(d: Date): (r: Option<Date>)
    requires Valid(d)
    ensures r.None? <==> d == Date(MaxYear, 12, 31)
    ensures r.Some? ==> Valid(r.value)
  {
    if d.day < DaysInMonth(d.year, d.month) then
      Some(Date(d.year, d.month, d.day + 1))
    else if d.month < 12 then
      Some(Date(d.year, d.month + 1, 1))
    else if d.year < MaxYear then
      Some(Date(d.year + 1, 1, 1))
    else
      None
  }

  /** The next day is one ordinal further on. */
  lemma NextDayOrdinal(d: Date)
    requires Valid(d) && NextDay(d).Some?
    ensures Ordinal(NextDay(d).value) == Ordinal(d) + 1
  {
    if d.day == DaysInMonth(d.year, d.month) {
      if d.month < 12 {
        DaysBeforeNextMonth(d.year, d.month);
      } else {
        DaysBeforeNextYear(d.year);
      }
    }
  }

  lemma DaysBeforeYearMonotone(a: int, b: int)
    requires 1 <= a <= b
    ensures DaysBeforeYear(a) + 365 * (b - a) <= DaysBeforeYear(b)
    decreases b - a
  {
    if a < b {
      DaysBeforeNextYear(a);
      DaysBeforeYearMonotone(a + 1, b);
    }
  }

  /** Every date has an ordinal in 1 .. MaxOrdinal, and only the last
      representable date reaches MaxOrdinal. */
  lemma {:induction false} OrdinalRange(d: Date)
    requires Valid(d)
    ensures 1 <= Ordinal(d) <= MaxOrdinal
    ensures Ordinal(d) == MaxOrdinal <==> d == Date(MaxYear, 12, 31)
  {
    var y := d.year;
    assert DaysBeforeMonth(y, d.month) + DaysInMonth(y, d.month) <= DaysInYear(y);
    assert d.month < 12 ==> DaysBeforeMonth(y, d.month) + DaysInMonth(y, d.month) < DaysInYear(y);
    DaysBeforeNextYear(y);
    DaysBeforeNextYear(MaxYear);
    DaysBeforeYearMonotone(y + 1, MaxYear + 1);
    assert DaysBeforeYear(MaxYear + 1) == MaxOrdinal;
  }

  /** `d + timedelta(days=n)`: None when the result would pass 9999-12-31
      (the program's OverflowError). */
  function AddDays(d: Date, n: nat): Option<Date>
    requires Valid(d)
    decreases n
  {
    if n == 0 then Some(d)
    else match NextDay(d)
      case None => None
      case Some(e) => AddDays(e, n - 1)
  }

  /** A successful addition yields a valid date. */
  lemma {:induction false} AddDaysValid(d: Date, n: nat)
    requires Valid(d)
    ensures AddDays(d, n).Some? ==> Valid(AddDays(d, n).value)
    decreases n
  {
    if n > 0 {
      match NextDay(d)
      case None =>
      case Some(e) => AddDaysValid(e, n - 1);
    }
  }

  /** Adding n days moves the ordinal by exactly n, and fails exactly when
      the ordinal would pass that of the last representable date. */
  lemma {:induction false} AddDaysOrdinal(d: Date, n: nat)
    requires Valid(d)
    ensures AddDays(d, n).Some? <==> Ordinal(d) + n <= MaxOrdinal
    ensures AddDays(d, n).Some? ==> Valid(AddDays(d, n).value) && Ordinal(AddDays(d, n).value) == Ordinal(d) + n
    decreases n
  {
    OrdinalRange(d);
    if n > 0 {
      match NextDay(d)
      case None =>
      case Some(e) =>
        NextDayOrdinal(d);
        AddDaysOrdinal(e, n - 1);
    }
  }

  /** Adding fewer days than a successful addition also succeeds. */
  lemma AddDaysPrefix(d: Date, n: nat, k: nat)
    requires Valid(d) && k <= n && AddDays(d, n).Some?
    ensures AddDays(d, k).Some?
  {
    AddDaysOrdinal(d, n);
    AddDaysOrdinal(d, k);
  }

  /** The seven dates start+0 .. start+6 of the week window. */
  function WeekDates(start: Date): (w: seq<Date>)
    requires Valid(start) && AddDays(start, LastOffset).Some?
    ensures |w| == 7
    ensures forall k :: 0 <= k < 7 ==> Valid(w[k]) && AddDays(start, k) == Some(w[k])
  {
    forall k: nat | k <= LastOffset
      ensures AddDays(start, k).Some? && Valid(AddDays(start, k).value)
    {
      AddDaysOrdinal(start, LastOffset);
      AddDaysOrdinal(start, k);
    }
    seq(7, k requires 0 <= k < 7 => AddDays(start, k).value)
  }

  /** Day k of the window is k days after its start; the last day is the
      window's end date. */
  lemma WeekOrdinals(start: Date)
    requires Valid(start) && AddDays(start, LastOffset).Some?
    ensures forall k :: 0 <= k < 7 ==> Ordinal(WeekDates(start)[k]) == Ordinal(start) + k
    ensures WeekDates(start)[0] == start && WeekDates(start)[6] == AddDays(start, LastOffset).value
  {
    var w := WeekDates(start);
    forall k | 0 <= k < 7 ensures Ordinal(w[k]) == Ordinal(start) + k {
      assert AddDays(start, k) == Some(w[k]);
      AddDaysOrdinal(start, k);
    }
  }

  function Digit(n: int): char
    requires 0 <= n < 10
  {
    (n + '0' as int) as char
  }

  function Pad2(n: int): string
    requires 0 <= n < 100
  {
    [Digit(n / 10), Digit(n % 10)]
  }

  function Pad4(n: int): string
    requires 0 <= n < 10000
  {
    [Digit(n / 1000), Digit(n / 100 % 10), Digit(n / 10 % 10), Digit(n % 10)]
  }

  /** `strftime('%d.%m.%Y')`: two-digit day, two-digit month, four-digit year. */
  function Format(d: Date): (s: string)
    requires Valid(d)
    ensures |s| == 10 && s[2] == '.' && s[5] == '.'
    ensures forall i :: 0 <= i < 10 && i != 2 && i != 5 ==> '0' <= s[i] <= '9'
  {
    Pad2(d.day) + "." + Pad2(d.month) + "." + Pad4(d.year)
  }

  function DigitValue(c: char): int {
    c as int - '0' as int
  }

  /** Reads back a `dd.mm.yyyy` string: the inverse of Format. */
  function Parse(s: string): (r: Option<Date>)
    ensures r.Some? ==> |s| == 10 && s[2] == '.' && s[5] == '.'
  {
    if |s| == 10 && s[2] == '.' && s[5] == '.'
       && forall i :: 0 <= i < 10 && i != 2 && i != 5 ==> '0' <= s[i] <= '9'
    then
      Some(Date(
        DigitValue(s[6]) * 1000 + DigitValue(s[7]) * 100 + DigitValue(s[8]) * 10 + DigitValue(s[9]),
        DigitValue(s[3]) * 10 + DigitValue(s[4]),
        DigitValue(s[0]) * 10 + DigitValue(s[1])))
    else
      None
  }

  lemma Pad2Value(n: int)
    requires 0 <= n < 100
    ensures DigitValue(Pad2(n)[0]) * 10 + DigitValue(Pad2(n)[1]) == n
  {
  }

  lemma Pad4Value(n: int)
    requires 0 <= n < 10000
    ensures var s := Pad4(n);
      DigitValue(s[0]) * 1000 + DigitValue(s[1]) * 100 + DigitValue(s[2]) * 10 + DigitValue(s[3]) == n
  {
    var a, b, c, e := n / 1000, n / 100 % 10, n / 10 % 10, n % 10;
    assert n / 100 == a * 10 + b;
    assert n / 10 == (a * 10 + b) * 10 + c;
  }

  /** Parse reads back every formatted date. */
  lemma ParseFormat(d: Date)
    requires Valid(d)
    ensures Parse(Format(d)) == Some(d)
  {
    var s := Format(d);
    Pad2Value(d.day);
    Pad2Value(d.month);
    Pad4Value(d.year);
    assert s[..2] == Pad2(d.day) && s[3..5] == Pad2(d.month) && s[6..] == Pad4(d.year);
  }

  /** Distinct dates have distinct `dd.mm.yyyy` strings. */
  lemma FormatInjective(a: Date, b: Date)
    requires Valid(a) && Valid(b) && Format(a) == Format(b)
    ensures a == b
  {
    ParseFormat(a);
    ParseFormat(b);
  }

  /** The dates checked for a template are seven pairwise distinct dates with
      pairwise distinct strings, the last being the window's end date. */
  lemma WeekDistinct(start: Date)
    requires Valid(start) && AddDays(start, LastOffset).Some?
    ensures forall i, j :: 0 <= i < j < 7 ==> WeekDates(start)[i] != WeekDates(start)[j]
    ensures forall i, j :: 0 <= i < j < 7 ==> Format(WeekDates(start)[i]) != Format(WeekDates(start)[j])
  {
    var w := WeekDates(start);
    WeekOrdinals(start);
    forall i, j | 0 <= i < j < 7
      ensures w[i] != w[j] && Format(w[i]) != Format(w[j])
    {
      if Format(w[i]) == Format(w[j]) {
        FormatInjective(w[i], w[j]);
      }
    }
  }
}

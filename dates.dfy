/** Calendar dates as Python's `datetime.date` has them (proleptic
    Gregorian, years 1 to 9999), the `strptime(s, '%Y-%m-%d')` parse that
    `tarih_formatla` attempts on strings, and `tarih_formatla` itself:
    `DD.MM.YYYY` followed by the Turkish name of the weekday. */
module Dates {
  import opened Text

  datatype Option<T> = None | Some(value: T)

  datatype Date = Date(year: int, month: int, day: int)

  const MinYear: int := 1
  const MaxYear: int := 9999

  predicate IsLeap(y: int) {
    y % 4 == 0 && (y % 100 != 0 || y % 400 == 0)
  }

  function DaysInMonth(y: int, m: int): (n: int)
    requires 1 <= m <= 12
    ensures 28 <= n <= 31
  {
    if m == 2 then (if IsLeap(y) then 29 else 28)
    else if m == 4 || m == 6 || m == 9 || m == 11 then 30
    else 31
  }

  function DaysInYear(y: int): int {
    if IsLeap(y) then 366 else 365
  }

  /** What `date(year, month, day)` accepts without raising ValueError. */
  predicate Valid(d: Date) {
    MinYear <= d.year <= MaxYear && 1 <= d.month <= 12 && 1 <= d.day <= DaysInMonth(d.year, d.month)
  }

  /** Days in the years before `y` (as Python's `_days_before_year`). */
  function DaysBeforeYear(y: int): int
    requires y >= 1
  {
    var p := y - 1;
    p * 365 + p / 4 - p / 100 + p / 400
  }

  /** Days in the months of year `y` before month `m`. */
  function DaysBeforeMonth(y: int, m: int): int
    requires 1 <= m <= 12
  {
    [0, 31, 59, 90, 120, 151, 181, 212, 243, 273, 304, 334][m - 1]
      + (if m > 2 && IsLeap(y) then 1 else 0)
  }

  /** `date.toordinal()`: 1 for 0001-01-01. */
  function Ordinal(d: Date): int
    requires Valid(d)
  {
    DaysBeforeYear(d.year) + DaysBeforeMonth(d.year, d.month) + d.day
  }

  /** `date.weekday()`: Monday is 0, Sunday is 6. */
  function Weekday(d: Date): (w: nat)
    requires Valid(d)
    ensures w < 7
  {
    (Ordinal(d) + 6) % 7
  }

  /** The day after `d` (`d + timedelta(days=1)`). */
  function NextDay(d: Date): Date
    requires Valid(d)
  {
    if d.day < DaysInMonth(d.year, d.month) then Date(d.year, d.month, d.day + 1)
    else if d.month < 12 then Date(d.year, d.month + 1, 1)
    else Date(d.year + 1, 1, 1)
  }

  /** Python compares dates as (year, month, day) tuples. */
  predicate Before(a: Date, b: Date) {
    a.year < b.year || (a.year == b.year && (a.month < b.month || (a.month == b.month && a.day < b.day)))
  }

  predicate AtOrBefore(a: Date, b: Date) {
    a == b || Before(a, b)
  }

  /** Each year adds its own length to the count of days before it. */
  lemma DaysBeforeYearStep(y: int)
    requires y >= 1
    ensures DaysBeforeYear(y + 1) == DaysBeforeYear(y) + DaysInYear(y)
  {
    Div4Step(y);
    Div100Step(y);
    Div400Step(y);
  }

  lemma Div4Step(y: int)
    ensures y / 4 - (y - 1) / 4 == if y % 4 == 0 then 1 else 0
  {
    var q, r := (y - 1) / 4, (y - 1) % 4;
    if r == 3 {
      assert y == 4 * (q + 1);
    } else {
      assert y == 4 * q + (r + 1);
    }
  }

  lemma Div100Step(y: int)
    ensures y / 100 - (y - 1) / 100 == if y % 100 == 0 then 1 else 0
  {
    var q, r := (y - 1) / 100, (y - 1) % 100;
    if r == 99 {
      assert y == 100 * (q + 1);
    } else {
      assert y == 100 * q + (r + 1);
    }
  }

  lemma Div400Step(y: int)
    ensures y / 400 - (y - 1) / 400 == if y % 400 == 0 then 1 else 0
  {
    var q, r := (y - 1) / 400, (y - 1) % 400;
    if r == 399 {
      assert y == 400 * (q + 1);
    } else {
      assert y == 400 * q + (r + 1);
    }
  }

  lemma {:induction false} DaysBeforeYearMonotone(a: int, b: int)
    requires 1 <= a <= b
    ensures DaysBeforeYear(a) + 365 * (b - a) <= DaysBeforeYear(b)
    decreases b - a
  {
    if a < b {
      DaysBeforeYearMonotone(a, b - 1);
      DaysBeforeYearStep(b - 1);
    }
  }

  lemma DaysBeforeMonthStep(y: int, m: int)
    requires 1 <= m <= 12
    ensures DaysBeforeMonth(y, m) + DaysInMonth(y, m)
      == if m < 12 then DaysBeforeMonth(y, m + 1) else DaysInYear(y)
  {
  }

  lemma DaysBeforeMonthMonotone(y: int, m: int, n: int)
    requires 1 <= m < n <= 12
    ensures DaysBeforeMonth(y, m) + DaysInMonth(y, m) <= DaysBeforeMonth(y, n)
  {
  }

  /** The day after a valid date is valid (short of 9999-12-31), its
      ordinal is one more, and its weekday is the next one, Sunday
      wrapping round to Monday. 0001-01-01 was a Monday. */
  lemma OrdinalNext(d: Date)
    requires Valid(d) && !(d.year == MaxYear && d.month == 12 && d.day == 31)
    ensures Valid(NextDay(d))
    ensures Ordinal(NextDay(d)) == Ordinal(d) + 1
  {
    DaysBeforeMonthStep(d.year, d.month);
    if d.day == DaysInMonth(d.year, d.month) && d.month == 12 {
      DaysBeforeYearStep(d.year);
    }
  }

  lemma WeekdayNext(d: Date)
    requires Valid(d) && !(d.year == MaxYear && d.month == 12 && d.day == 31)
    ensures Valid(NextDay(d))
    ensures Weekday(NextDay(d)) == (Weekday(d) + 1) % 7
  {
    OrdinalNext(d);
    Mod7Next(Ordinal(d) + 6);
  }

  lemma Mod7Next(n: int)
    ensures (n + 1) % 7 == (n % 7 + 1) % 7
  {
    var q, r := n / 7, n % 7;
    if r == 6 {
      assert n + 1 == 7 * (q + 1);
    } else {
      assert n + 1 == 7 * q + (r + 1);
    }
  }

  /** 0001-01-01 was a Monday, and so was 2024-01-15. */
  lemma WeekdayAnchors()
    ensures Weekday(Date(1, 1, 1)) == 0
    ensures Weekday(Date(2024, 1, 15)) == 0
  {
  }

  lemma OrdinalBounds(d: Date)
    requires Valid(d)
    ensures DaysBeforeYear(d.year) < Ordinal(d) <= DaysBeforeYear(d.year + 1)
  {
    DaysBeforeYearStep(d.year);
    DaysBeforeMonthStep(d.year, d.month);
    if d.month < 12 {
      DaysBeforeMonthMonotone(d.year, d.month, 12);
      DaysBeforeMonthStep(d.year, 12);
    }
  }

  /** Comparing dates field by field is comparing them on the timeline. */
  lemma BeforeIsChronological(a: Date, b: Date)
    requires Valid(a) && Valid(b)
    ensures Before(a, b) <==> Ordinal(a) < Ordinal(b)
  {
    if a.year < b.year {
      OrdinalBounds(a);
      OrdinalBounds(b);
      DaysBeforeYearMonotone(a.year + 1, b.year);
    } else if b.year < a.year {
      OrdinalBounds(a);
      OrdinalBounds(b);
      DaysBeforeYearMonotone(b.year + 1, a.year);
    } else if a.month < b.month {
      DaysBeforeMonthMonotone(a.year, a.month, b.month);
    } else if b.month < a.month {
      DaysBeforeMonthMonotone(a.year, b.month, a.month);
    }
  }

  // ---------------------------------------------------------------------
  // strptime(s, '%Y-%m-%d')

  /** The `%m` group `1[0-2]|0[1-9]|[1-9]` and the `-` after it, at the
      start of `t`: the month and the number of digits it took. */
  function MonthField(t: string): (r: Option<(int, nat)>)
    ensures r.Some? ==>
      1 <= r.value.0 <= 12 && 1 <= r.value.1 <= 2 && r.value.1 < |t| && t[r.value.1] == '-'
  {
    if |t| >= 3 && t[0] == '1' && '0' <= t[1] <= '2' && t[2] == '-' then Some((10 + DigitValue(t[1]), 2))
    else if |t| >= 3 && t[0] == '0' && '1' <= t[1] <= '9' && t[2] == '-' then Some((DigitValue(t[1]), 2))
    else if |t| >= 2 && '1' <= t[0] <= '9' && t[1] == '-' then Some((DigitValue(t[0]), 1))
    else None
  }

  /** The `%d` group `3[01]|[12]\d|0[1-9]|[1-9]| [1-9]`, which ends the
      pattern: the first alternative that matches wins, and anything it
      leaves over is "unconverted data" and fails the parse. */
  function DayField(u: string): (r: Option<int>)
    ensures r.Some? ==> 1 <= r.value <= 31
  {
    var n :=
      if |u| >= 2 && u[0] == '3' && (u[1] == '0' || u[1] == '1') then 2
      else if |u| >= 2 && (u[0] == '1' || u[0] == '2') && IsDigit(u[1]) then 2
      else if |u| >= 2 && u[0] == '0' && '1' <= u[1] <= '9' then 2
      else if |u| >= 1 && '1' <= u[0] <= '9' then 1
      else if |u| >= 2 && u[0] == ' ' && '1' <= u[1] <= '9' then 2
      else 0;
    if n == 0 || n != |u| then None
    else if n == 1 then Some(DigitValue(u[0]))
    else if u[0] == ' ' then Some(DigitValue(u[1]))
    else Some(10 * DigitValue(u[0]) + DigitValue(u[1]))
  }

  /** `datetime.strptime(s, '%Y-%m-%d').date()`, with None for the
      ValueError: a four-digit year, `-`, the month, `-`, the day, nothing
      after it, and a date that exists (year 0 and 30 February do not). */
  function ParseIso(s: string): (r: Option<Date>)
    ensures r.Some? ==> Valid(r.value)
  {
    if |s| < 5 || !AllDigits(s[..4]) || s[4] != '-' then None
    else
      var year := ParseNat(s[..4]);
      assert year <= MaxYear by { ParseNatBound(s[..4]); }
      match MonthField(s[5..])
      case None => None
      case Some(mf) =>
        match DayField(s[5 + mf.1 + 1..])
        case None => None
        case Some(day) =>
          if MinYear <= year && day <= DaysInMonth(year, mf.0) then Some(Date(year, mf.0, day))
          else None
  }

  /** `str(d)`, `d.isoformat()`: how a date is written to the CSV file. */
  function IsoString(d: Date): string
    requires Valid(d)
  {
    Fixed(d.year, 4) + "-" + Fixed(d.month, 2) + "-" + Fixed(d.day, 2)
  }

  lemma FixedTwo(n: nat)
    ensures Fixed(n, 2) == [DigitChar(n / 10 % 10), DigitChar(n % 10)]
  {
  }

  /** A date written as `YYYY-MM-DD` parses back to itself. */
  lemma ParseIsoString(d: Date)
    requires Valid(d)
    ensures ParseIso(IsoString(d)) == Some(d)
  {
    var s := IsoString(d);
    assert s[..4] == Fixed(d.year, 4);
    FixedRoundTrip(d.year, 4);
    assert s[4] == '-';
    var t := s[5..];
    assert t == Fixed(d.month, 2) + "-" + Fixed(d.day, 2);
    FixedTwo(d.month);
    FixedTwo(d.day);
    assert MonthField(t) == Some((d.month, 2));
    assert t[3..] == Fixed(d.day, 2);
    assert DayField(t[3..]) == Some(d.day);
  }

  // ---------------------------------------------------------------------
  // tarih_formatla

  /** The seven names of the `gunler` table, Monday first. */
  const WeekdayNames: seq<string> :=
    ["Pazartesi", "Salı", "Çarşamba", "Perşembe", "Cuma", "Cumartesi", "Pazar"]

  /** `strftime('%d.%m.%Y')` and the weekday name, one space between. */
  function Display(d: Date): string
    requires Valid(d)
  {
    Fixed(d.day, 2) + "." + Fixed(d.month, 2) + "." + Fixed(d.year, 4) + " " + WeekdayNames[Weekday(d)]
  }

  /** The two kinds of argument `tarih_formatla` meets: a date, or a
      string that may or may not hold one. */
  datatype DateArg = OfDate(date: Date) | OfStr(text: string)

  predicate ValidArg(a: DateArg) {
    a.OfDate? ==> Valid(a.date)
  }

  /** `tarih_formatla(tarih_obj)`. */
  function FormatDate(a: DateArg): (r: string)
    requires ValidArg(a)
    ensures a.OfStr? && ParseIso(a.text).None? ==> r == a.text
  {
    match a
    case OfDate(d) => Display(d)
    case OfStr(s) =>
      match ParseIso(s)
      case None => s
      case Some(d) => Display(d)
  }

  /** The display form reads back as day, month and year, in that order,
      zero-padded, followed by the weekday's name from the table. */
  lemma DisplayFields(d: Date)
    requires Valid(d)
    ensures var r := Display(d);
      |r| > 11 && r[2] == '.' && r[5] == '.' && r[10] == ' ' &&
      AllDigits(r[..2]) && AllDigits(r[3..5]) && AllDigits(r[6..10]) &&
      ParseNat(r[..2]) == d.day && ParseNat(r[3..5]) == d.month &&
      ParseNat(r[6..10]) == d.year && r[11..] == WeekdayNames[Weekday(d)]
  {
    var r := Display(d);
    assert r[..2] == Fixed(d.day, 2);
    assert r[3..5] == Fixed(d.month, 2);
    assert r[6..10] == Fixed(d.year, 4);
    FixedRoundTrip(d.day, 2);
    FixedRoundTrip(d.month, 2);
    FixedRoundTrip(d.year, 4);
  }

  /** A date stored as text (as it comes back from the CSV file) is shown
      exactly as the date itself. */
  lemma FormatStoredDate(d: Date)
    requires Valid(d)
    ensures FormatDate(OfStr(IsoString(d))) == FormatDate(OfDate(d))
  {
    ParseIsoString(d);
  }

  lemma ParseYear2024()
    ensures ParseNat("2024") == 2024
  {
    assert "2024"[..3] == "202" && "202"[..2] == "20" && "20"[..1] == "2" && "2"[..0] == "";
  }

  /** Concrete cases the parse accepts: a one-digit month and day, and a
      space before a one-digit day. */
  lemma ParseIsoAccepts()
    ensures ParseIso("2024-1-5") == Some(Date(2024, 1, 5))
    ensures ParseIso("2024-10- 5") == Some(Date(2024, 10, 5))
  {
    ParseYear2024();
    assert "2024-1-5"[..4] == "2024";
    assert "2024-10- 5"[..4] == "2024";
  }

  /** Concrete cases the parse rejects: a day the month does not have, a
      day with a digit left over, and year 0. */
  lemma ParseIsoRejects()
    ensures ParseIso("2023-02-29") == None
    ensures ParseIso("2024-01-32") == None
    ensures ParseIso("0000-01-01") == None
  {
    assert "0000"[..3] == "000" && "000"[..2] == "00" && "00"[..1] == "0" && "0"[..0] == "";
    assert ParseNat("0000") == 0;
    assert "2023-02-29"[..4] == "2023";
    assert "2024-01-32"[..4] == "2024";
    assert "0000-01-01"[..4] == "0000";
  }
}

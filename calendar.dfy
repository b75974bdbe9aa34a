/**
 * Proleptic Gregorian calendar dates as Python's `datetime` handles them:
 * years 1 to 9999, leap years every fourth year except centuries not divisible
 * by 400, and ISO 8601 rendering with zero-padded fields.
 */
module Calendar {
  import opened Wrappers

  const MinYear := 1
  const MaxYear := 9999

  datatype Date = Date(year: int, month: int, day: int)

  predicate IsLeapYear(y: int) {
    y % 4 == 0 && (y % 100 != 0 || y % 400 == 0)
  }

  function DaysInMonth(y: int, m: int): (n: int)
    requires 1 <= m <= 12
    ensures 28 <= n <= 31
    ensures n == 29 <==> m == 2 && IsLeapYear(y)
  {
    if m == 2 then (if IsLeapYear(y) then 29 else 28)
    else if m == 4 || m == 6 || m == 9 || m == 11 then 30
    else 31
  }

  function DaysInYear(y: int): int {
    if IsLeapYear(y) then 366 else 365
  }

  /** A date `datetime.date` accepts: MINYEAR..MAXYEAR, month 1..12, day within the month. */
  predicate ValidDate(d: Date) {
    MinYear <= d.year <= MaxYear && 1 <= d.month <= 12 && 1 <= d.day <= DaysInMonth(d.year, d.month)
  }

  const LastDate := Date(MaxYear, 12, 31)

  // ---------------------------------------------------------------------
  // Day numbers: the reference against which the next-day step is checked.
  // ---------------------------------------------------------------------

  /** Days in the years before `y`, counted from 0001-01-01. */
  function DaysBeforeYear(y: int): nat
    requires y >= MinYear
    decreases y
  {
    if y == MinYear then 0 else DaysBeforeYear(y - 1) + DaysInYear(y - 1)
  }

  /** Days in the months of year `y` before month `m`. */
  function DaysBeforeMonth(y: int, m: int): nat
    requires 1 <= m <= 12
    decreases m
  {
    if m == 1 then 0 else DaysBeforeMonth(y, m - 1) + DaysInMonth(y, m - 1)
  }

  /** The day number of a date; 0001-01-01 is day 1 (Python's `date.toordinal`). */
  function Ordinal(d: Date): int
    requires ValidDate(d)
  {
    DaysBeforeYear(d.year) + DaysBeforeMonth(d.year, d.month) + d.day
  }

  /** The twelve months add up to the length of the year. */
  lemma MonthsFillYear(y: int)
    ensures DaysBeforeMonth(y, 12) + DaysInMonth(y, 12) == DaysInYear(y)
  {
    assert DaysBeforeMonth(y, 3) == 31 + DaysInMonth(y, 2);
    assert DaysBeforeMonth(y, 12) == 334 + DaysInMonth(y, 2) - 28;
  }

  /**
   * The month lengths agree with Python's cumulative table
   * `_DAYS_BEFORE_MONTH`, plus the leap day after February.
   */
  lemma DaysBeforeMonthTable(y: int, m: int)
    requires 1 <= m <= 12
    ensures DaysBeforeMonth(y, m)
            == [0, 31, 59, 90, 120, 151, 181, 212, 243, 273, 304, 334][m - 1]
               + (if m > 2 && IsLeapYear(y) then 1 else 0)
  {
    var leap := if IsLeapYear(y) then 1 else 0;
    assert DaysBeforeMonth(y, 1) == 0;
    assert DaysBeforeMonth(y, 2) == 31;
    assert DaysBeforeMonth(y, 3) == 59 + leap;
    assert DaysBeforeMonth(y, 4) == 90 + leap;
    assert DaysBeforeMonth(y, 5) == 120 + leap;
    assert DaysBeforeMonth(y, 6) == 151 + leap;
    assert DaysBeforeMonth(y, 7) == 181 + leap;
    assert DaysBeforeMonth(y, 8) == 212 + leap;
    assert DaysBeforeMonth(y, 9) == 243 + leap;
    assert DaysBeforeMonth(y, 10) == 273 + leap;
    assert DaysBeforeMonth(y, 11) == 304 + leap;
    assert DaysBeforeMonth(y, 12) == 334 + leap;
  }

  /**
   * The date that follows `d` (`d + timedelta(days=1)`), or None when `d` is
   * the last representable date and the addition overflows.
   */
  function NextDay(d: Date): (r: Option<Date>)
    requires ValidDate(d)
    ensures r.None? <==> d == LastDate
    ensures r.Some? ==> ValidDate(r.value) && Ordinal(r.value) == Ordinal(d) + 1
  {
    if d.day < DaysInMonth(d.year, d.month) then
      Some(Date(d.year, d.month, d.day + 1))
    else if d.month < 12 then
      Some(Date(d.year, d.month + 1, 1))
    else if d.year < MaxYear then
      MonthsFillYear(d.year);
      Some(Date(d.year + 1, 1, 1))
    else
      None
  }

  // ---------------------------------------------------------------------
  // Day numbers identify dates, so NextDay is the one date a day later.
  // ---------------------------------------------------------------------

  lemma {:induction false} DaysBeforeMonthBound(y: int, m: int)
    requires 1 <= m <= 12
    ensures DaysBeforeMonth(y, m) + DaysInMonth(y, m) <= DaysInYear(y)
    decreases 12 - m
  {
    if m == 12 {
      MonthsFillYear(y);
    } else {
      DaysBeforeMonthBound(y, m + 1);
    }
  }

  lemma {:induction false} DaysBeforeMonthGrows(y: int, m1: int, m2: int)
    requires 1 <= m1 < m2 <= 12
    ensures DaysBeforeMonth(y, m1) + DaysInMonth(y, m1) <= DaysBeforeMonth(y, m2)
    decreases m2 - m1
  {
    if m1 + 1 < m2 {
      DaysBeforeMonthGrows(y, m1, m2 - 1);
    }
  }

  lemma {:induction false} DaysBeforeYearGrows(y1: int, y2: int)
    requires MinYear <= y1 < y2
    ensures DaysBeforeYear(y1) + DaysInYear(y1) <= DaysBeforeYear(y2)
    decreases y2 - y1
  {
    if y1 + 1 < y2 {
      DaysBeforeYearGrows(y1, y2 - 1);
    }
  }

  /** A date's day number lies within its year's span of day numbers. */
  lemma OrdinalInYear(d: Date)
    requires ValidDate(d)
    ensures DaysBeforeYear(d.year) < Ordinal(d) <= DaysBeforeYear(d.year) + DaysInYear(d.year)
  {
    DaysBeforeMonthBound(d.year, d.month);
  }

  /** Distinct valid dates have distinct day numbers. */
  lemma OrdinalInjective(a: Date, b: Date)
    requires ValidDate(a) && ValidDate(b)
    requires Ordinal(a) == Ordinal(b)
    ensures a == b
  {
    OrdinalInYear(a);
    OrdinalInYear(b);
    if a.year < b.year {
      DaysBeforeYearGrows(a.year, b.year);
    } else if b.year < a.year {
      DaysBeforeYearGrows(b.year, a.year);
    } else if a.month < b.month {
      DaysBeforeMonthGrows(a.year, a.month, b.month);
    } else if b.month < a.month {
      DaysBeforeMonthGrows(a.year, b.month, a.month);
    }
  }

  /** NextDay(d) is the only valid date exactly one day after `d`. */
  lemma NextDayUnique(d: Date, e: Date)
    requires ValidDate(d) && ValidDate(e)
    ensures Ordinal(e) == Ordinal(d) + 1 <==> NextDay(d) == Some(e)
  {
    if Ordinal(e) == Ordinal(d) + 1 {
      OrdinalInYear(d);
      if d == LastDate {
        OrdinalInYear(e);
        if e.year < MaxYear {
          DaysBeforeYearGrows(e.year, MaxYear);
        }
        assert false;
      }
      OrdinalInjective(NextDay(d).value, e);
    }
  }

  /** The day after 28 February is the leap day exactly in leap years. */
  lemma LeapDayRollover(y: int)
    requires MinYear <= y <= MaxYear
    ensures NextDay(Date(y, 2, 28)) == if IsLeapYear(y) then Some(Date(y, 2, 29)) else Some(Date(y, 3, 1))
  {
  }

  /** The last day of a month moves to the first of the next month, or of the next year. */
  lemma MonthEndRollover(d: Date)
    requires ValidDate(d) && d != LastDate && d.day == DaysInMonth(d.year, d.month)
    ensures NextDay(d) == if d.month < 12 then Some(Date(d.year, d.month + 1, 1)) else Some(Date(d.year + 1, 1, 1))
  {
  }

  // ---------------------------------------------------------------------
  // ISO 8601 rendering (`date.isoformat`, `datetime.isoformat`).
  // ---------------------------------------------------------------------

  predicate IsDigit(c: char) {
    '0' <= c <= '9'
  }

  function DigitChar(n: int): (c: char)
    requires 0 <= n <= 9
    ensures IsDigit(c) && c as int - '0' as int == n
  {
    ('0' as int + n) as char
  }

  /** `%02d` for 0..99. */
  function Pad2(n: int): (s: string)
    requires 0 <= n <= 99
    ensures |s| == 2 && IsDigit(s[0]) && IsDigit(s[1])
    ensures (s[0] as int - '0' as int) * 10 + (s[1] as int - '0' as int) == n
  {
    [DigitChar(n / 10), DigitChar(n % 10)]
  }

  /** `%04d` for 0..9999. */
  function Pad4(n: int): (s: string)
    requires 0 <= n <= 9999
    ensures |s| == 4 && IsDigit(s[0]) && IsDigit(s[1]) && IsDigit(s[2]) && IsDigit(s[3])
    ensures (((s[0] as int - '0' as int) * 10 + (s[1] as int - '0' as int)) * 10
              + (s[2] as int - '0' as int)) * 10 + (s[3] as int - '0' as int) == n
  {
    var tens := n / 10;
    var hundreds := tens / 10;
    assert n == tens * 10 + n % 10 && tens == hundreds * 10 + tens % 10;
    assert hundreds == hundreds / 10 * 10 + hundreds % 10 && hundreds / 10 <= 9;
    [DigitChar(hundreds / 10), DigitChar(hundreds % 10), DigitChar(tens % 10), DigitChar(n % 10)]
  }

  /** `YYYY-MM-DD`. */
  function IsoDate(d: Date): (s: string)
    requires ValidDate(d)
    ensures |s| == 10 && s[4] == '-' && s[7] == '-'
    ensures forall i | i in {0, 1, 2, 3, 5, 6, 8, 9} :: IsDigit(s[i])
  {
    Pad4(d.year) + "-" + Pad2(d.month) + "-" + Pad2(d.day)
  }

  /** `datetime.isoformat()` of midnight on `d`: `YYYY-MM-DDT00:00:00`. */
  function IsoMidnight(d: Date): (s: string)
    requires ValidDate(d)
    ensures |s| == 19 && s[..10] == IsoDate(d) && s[10..] == "T00:00:00"
  {
    IsoDate(d) + "T00:00:00"
  }
}

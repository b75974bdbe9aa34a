/**
 * `datetime.strptime(s, "%Y-%m-%d")`. CPython turns the format into the
 * regular expression `(\d\d\d\d)-(1[0-2]|0[1-9]|[1-9])-(3[01]|[12]\d|0[1-9]|[1-9]| [1-9])`,
 * matches it at the start of `s`, rejects any characters left after the match,
 * and then builds the date, which rejects year 0 and a day past the end of the
 * month. So single-digit months and days, and a day written as a space and a
 * digit, are accepted alongside the canonical `YYYY-MM-DD`.
 */
module DateParse {
  import opened Wrappers
  import opened Calendar

  /** Why strptime raised ValueError. */
  datatype ParseError =
    | DoesNotMatch      // the string does not match the format
    | UnconvertedData   // characters remain after the match
    | YearOutOfRange    // year 0
    | DayOutOfRange     // a day past the end of its month

  function DigitValue(c: char): (n: int)
    requires IsDigit(c)
    ensures 0 <= n <= 9
  {
    c as int - '0' as int
  }

  predicate NonZeroDigit(c: char) {
    '1' <= c <= '9'
  }

  /** The year group: four digits and the '-' after them. */
  predicate YearShape(s: string) {
    |s| >= 5 && IsDigit(s[0]) && IsDigit(s[1]) && IsDigit(s[2]) && IsDigit(s[3]) && s[4] == '-'
  }

  function YearValue(s: string): (y: int)
    requires YearShape(s)
    ensures 0 <= y <= 9999
  {
    ((DigitValue(s[0]) * 10 + DigitValue(s[1])) * 10 + DigitValue(s[2])) * 10 + DigitValue(s[3])
  }

  /** The ways the `%m` group can write month `m`: `MM`, or one digit when `m` < 10. */
  function MonthSpellings(m: int): (ts: set<string>)
    requires 1 <= m <= 12
    ensures Pad2(m) in ts
  {
    {Pad2(m)} + (if m < 10 then {[DigitChar(m)]} else {})
  }

  /** The ways the `%d` group can write day `d`: `DD`, or one digit or a space and one digit when `d` < 10. */
  function DaySpellings(d: int): (ts: set<string>)
    requires 1 <= d <= 31
    ensures Pad2(d) in ts
  {
    {Pad2(d)} + (if d < 10 then {[DigitChar(d)], [' ', DigitChar(d)]} else {})
  }

  /**
   * The month group and the '-' after it, alternatives tried in the order
   * `1[0-2]`, `0[1-9]`, `[1-9]`: the month and what follows the '-'.
   */
  function MatchMonth(s: string): (r: Option<(int, string)>)
    ensures r.Some? ==> 1 <= r.value.0 <= 12 && |r.value.1| < |s|
    ensures r.Some? ==> var t := s[..|s| - |r.value.1| - 1];
              t in MonthSpellings(r.value.0) && s == t + "-" + r.value.1
  {
    if |s| >= 3 && s[0] == '1' && '0' <= s[1] <= '2' && s[2] == '-' then
      assert s == s[..2] + "-" + s[3..];
      Pad2Of(s[..2]);
      Some((10 + DigitValue(s[1]), s[3..]))
    else if |s| >= 3 && s[0] == '0' && NonZeroDigit(s[1]) && s[2] == '-' then
      assert s == s[..2] + "-" + s[3..];
      Pad2Of(s[..2]);
      Some((DigitValue(s[1]), s[3..]))
    else if |s| >= 2 && NonZeroDigit(s[0]) && s[1] == '-' then
      assert s == s[..1] + "-" + s[2..];
      assert s[..1] == [DigitChar(DigitValue(s[0]))];
      Some((DigitValue(s[0]), s[2..]))
    else None
  }

  /**
   * The day group, alternatives tried in the order `3[01]`, `[12]\d`, `0[1-9]`,
   * `[1-9]`, ` [1-9]`: the day and how many characters the first matching
   * alternative consumed.
   */
  function MatchDay(s: string): (r: Option<(int, nat)>)
    ensures r.Some? ==> 1 <= r.value.0 <= 31 && 1 <= r.value.1 <= 2 && r.value.1 <= |s|
    ensures r.Some? ==> s[..r.value.1] in DaySpellings(r.value.0)
  {
    if |s| >= 2 && s[0] == '3' && (s[1] == '0' || s[1] == '1') then
      Pad2Of(s[..2]);
      Some((30 + DigitValue(s[1]), 2))
    else if |s| >= 2 && (s[0] == '1' || s[0] == '2') && IsDigit(s[1]) then
      Pad2Of(s[..2]);
      Some((DigitValue(s[0]) * 10 + DigitValue(s[1]), 2))
    else if |s| >= 2 && s[0] == '0' && NonZeroDigit(s[1]) then
      Pad2Of(s[..2]);
      Some((DigitValue(s[1]), 2))
    else if |s| >= 1 && NonZeroDigit(s[0]) then
      assert s[..1] == [DigitChar(DigitValue(s[0]))];
      Some((DigitValue(s[0]), 1))
    else if |s| >= 2 && s[0] == ' ' && NonZeroDigit(s[1]) then
      assert s[..2] == [' ', DigitChar(DigitValue(s[1]))];
      Some((DigitValue(s[1]), 2))
    else None
  }

  /** Every spelling of a month, followed by '-', is read as that month. */
  lemma MatchMonthOfSpelling(m: int, t: string, rest: string)
    requires 1 <= m <= 12 && t in MonthSpellings(m)
    ensures MatchMonth(t + "-" + rest) == Some((m, rest))
  {
    var s := t + "-" + rest;
    if t == Pad2(m) {
      assert s[..2] == t && s[2] == '-' && s[3..] == rest;
    } else {
      assert s[0] == t[0] && s[1] == '-' && s[2..] == rest;
    }
  }

  /** Every spelling of a day, standing alone, is read whole as that day. */
  lemma MatchDayOfSpelling(d: int, t: string)
    requires 1 <= d <= 31 && t in DaySpellings(d)
    ensures MatchDay(t) == Some((d, |t|))
  {
  }

  /** All the strings strptime reads as the date `d`. */
  function DateSpellings(d: Date): set<string>
    requires ValidDate(d)
  {
    set mt, dt | mt in MonthSpellings(d.month) && dt in DaySpellings(d.day) :: Pad4(d.year) + "-" + mt + "-" + dt
  }

  function ParseDate(s: string): (r: Result<Date, ParseError>)
    ensures r.Ok? ==> ValidDate(r.value)
    ensures r.Ok? ==> 8 <= |s| <= 10 && s[4] == '-'
  {
    if !YearShape(s) then Err(DoesNotMatch)
    else
      var year := YearValue(s);
      match MatchMonth(s[5..])
      case None => Err(DoesNotMatch)
      case Some((month, rest)) =>
        match MatchDay(rest)
        case None => Err(DoesNotMatch)
        case Some((day, used)) =>
          if used != |rest| then Err(UnconvertedData)
          else if year < MinYear then Err(YearOutOfRange)
          else if day > DaysInMonth(year, month) then Err(DayOutOfRange)
          else Ok(Date(year, month, day))
  }

  /**
   * strptime reads `s` as the date `d` exactly when `d` is a valid date and
   * `s` is one of its spellings: four year digits, '-', a month spelling,
   * '-', a day spelling.
   */
  lemma ParseDateSpellings(s: string, d: Date)
    ensures ParseDate(s) == Ok(d) <==> ValidDate(d) && s in DateSpellings(d)
  {
    if ParseDate(s) == Ok(d) {
      ParsedIsSpelling(s);
    }
    if ValidDate(d) && s in DateSpellings(d) {
      var mt, dt :| mt in MonthSpellings(d.month) && dt in DaySpellings(d.day) &&
                    s == Pad4(d.year) + "-" + mt + "-" + dt;
      SpellingParses(d, mt, dt);
    }
  }

  lemma ParsedIsSpelling(s: string)
    requires ParseDate(s).Ok?
    ensures s in DateSpellings(ParseDate(s).value)
  {
    var d := ParseDate(s).value;
    var rest := MatchMonth(s[5..]).value.1;
    var mt := s[5..][..|s[5..]| - |rest| - 1];
    assert s[5..] == mt + "-" + rest;
    assert rest[..|rest|] == rest;
    assert rest in DaySpellings(d.day);
    Pad4Of(s[..4]);
    assert s == s[..4] + "-" + s[5..];
    assert s == Pad4(d.year) + "-" + mt + "-" + rest;
  }

  lemma SpellingParses(d: Date, mt: string, dt: string)
    requires ValidDate(d) && mt in MonthSpellings(d.month) && dt in DaySpellings(d.day)
    ensures ParseDate(Pad4(d.year) + "-" + mt + "-" + dt) == Ok(d)
  {
    var s := Pad4(d.year) + "-" + mt + "-" + dt;
    assert s[..4] == Pad4(d.year) && s[4] == '-';
    assert YearValue(s) == d.year;
    assert s[5..] == mt + "-" + dt;
    MatchMonthOfSpelling(d.month, mt, dt);
    MatchDayOfSpelling(d.day, dt);
  }

  /** Every valid date, written as `YYYY-MM-DD`, parses back to itself. */
  lemma ParseIsoDate(d: Date)
    requires ValidDate(d)
    ensures ParseDate(IsoDate(d)) == Ok(d)
  {
    var s := IsoDate(d);
    var y, m, dd := Pad4(d.year), Pad2(d.month), Pad2(d.day);
    assert s == y + "-" + m + "-" + dd;
    assert s[..4] == y && s[5..7] == m && s[8..] == dd;
    assert YearValue(s) == d.year;
    assert s[5..][3..] == dd;
    assert MatchMonth(s[5..]) == Some((d.month, dd));
    assert MatchDay(dd) == Some((d.day, 2));
  }

  /**
   * The parsed date written back as `YYYY-MM-DD` is the input itself exactly
   * when the input already had that form: ten characters, with no space
   * standing for a leading zero of the day.
   */
  lemma IsoDateOfParsed(s: string)
    requires ParseDate(s).Ok?
    ensures IsoDate(ParseDate(s).value) == s <==> |s| == 10 && s[8] != ' '
  {
    var d := ParseDate(s).value;
    if |s| == 10 && s[8] != ' ' {
      assert s[5..][..2] == s[5..7] && s[5..][3..] == s[8..];
      assert IsDigit(s[5]) && IsDigit(s[6]) && s[7] == '-';
      assert d.month == DigitValue(s[5]) * 10 + DigitValue(s[6]);
      assert IsDigit(s[8]) && IsDigit(s[9]);
      assert d.day == DigitValue(s[8]) * 10 + DigitValue(s[9]);
      Pad2Of(s[5..7]);
      Pad2Of(s[8..]);
      Pad4Of(s[..4]);
      assert s == s[..4] + "-" + s[5..7] + "-" + s[8..];
    }
  }

  /** `%02d` of the value of two digits gives those digits back. */
  lemma Pad2Of(x: string)
    requires |x| == 2 && IsDigit(x[0]) && IsDigit(x[1])
    ensures Pad2(DigitValue(x[0]) * 10 + DigitValue(x[1])) == x
  {
  }

  /** `%04d` of the value of four digits gives those digits back. */
  lemma Pad4Of(x: string)
    requires |x| == 4 && IsDigit(x[0]) && IsDigit(x[1]) && IsDigit(x[2]) && IsDigit(x[3])
    ensures Pad4(((DigitValue(x[0]) * 10 + DigitValue(x[1])) * 10 + DigitValue(x[2])) * 10 + DigitValue(x[3])) == x
  {
    var hundreds := DigitValue(x[0]) * 10 + DigitValue(x[1]);
    var tens := hundreds * 10 + DigitValue(x[2]);
    var n := tens * 10 + DigitValue(x[3]);
    assert n / 10 == tens && n % 10 == DigitValue(x[3]);
    assert tens / 10 == hundreds && tens % 10 == DigitValue(x[2]);
    assert hundreds / 10 == DigitValue(x[0]) && hundreds % 10 == DigitValue(x[1]);
  }

  /** Inputs strptime accepts, including the non-canonical spellings. */
  lemma AcceptExamples()
    ensures ParseDate("2024-02-29") == Ok(Date(2024, 2, 29))
    ensures ParseDate("2024-1-5") == Ok(Date(2024, 1, 5))
    ensures ParseDate("2024-01- 5") == Ok(Date(2024, 1, 5))
    ensures ParseDate("2000-02-29") == Ok(Date(2000, 2, 29))
  {
    assert "2024-02-29" == Pad4(2024) + "-" + Pad2(2) + "-" + Pad2(29);
    SpellingParses(Date(2024, 2, 29), Pad2(2), Pad2(29));
    assert "2024-1-5" == Pad4(2024) + "-" + [DigitChar(1)] + "-" + [DigitChar(5)];
    SpellingParses(Date(2024, 1, 5), [DigitChar(1)], [DigitChar(5)]);
    assert "2024-01- 5" == Pad4(2024) + "-" + Pad2(1) + "-" + [' ', DigitChar(5)];
    SpellingParses(Date(2024, 1, 5), Pad2(1), [' ', DigitChar(5)]);
    assert "2000-02-29" == Pad4(2000) + "-" + Pad2(2) + "-" + Pad2(29);
    SpellingParses(Date(2000, 2, 29), Pad2(2), Pad2(29));
  }

  /** Inputs strptime rejects, and why. */
  lemma RejectExamples()
    ensures ParseDate("2023-02-29") == Err(DayOutOfRange)
    ensures ParseDate("2024-04-31") == Err(DayOutOfRange)
    ensures ParseDate("1900-02-29") == Err(DayOutOfRange)
    ensures ParseDate("0000-01-01") == Err(YearOutOfRange)
    ensures ParseDate("2024-01-011") == Err(UnconvertedData)
    ensures ParseDate("2024-13-01") == Err(DoesNotMatch)
    ensures ParseDate("2024/01/01") == Err(DoesNotMatch)
    ensures ParseDate("") == Err(DoesNotMatch)
  {
    RejectsPastMonthEnd();
    RejectsApril31();
    RejectsCenturyLeapDay();
    RejectsYearZero();
    RejectsTrailingText();
    RejectsMonth13();
    RejectsSlashes();
  }

  lemma RejectsPastMonthEnd()
    ensures ParseDate("2023-02-29") == Err(DayOutOfRange)
  {
  }

  lemma RejectsApril31()
    ensures ParseDate("2024-04-31") == Err(DayOutOfRange)
  {
  }

  /** 1900 is divisible by 100 but not by 400, so it has no 29 February. */
  lemma RejectsCenturyLeapDay()
    ensures ParseDate("1900-02-29") == Err(DayOutOfRange)
  {
  }

  lemma RejectsYearZero()
    ensures ParseDate("0000-01-01") == Err(YearOutOfRange)
  {
  }

  lemma RejectsTrailingText()
    ensures ParseDate("2024-01-011") == Err(UnconvertedData)
  {
  }

  lemma RejectsMonth13()
    ensures ParseDate("2024-13-01") == Err(DoesNotMatch)
  {
  }

  lemma RejectsSlashes()
    ensures ParseDate("2024/01/01") == Err(DoesNotMatch)
  {
  }
}

/** Spend periods and the integer that stands for the current one. */
module Periods {
  import opened Calendar

  datatype Period = Day | Week | Month

  const SECONDS_PER_DAY := 86400
  const U64_RANGE: int := 0x1_0000_0000_0000_0000
  const YEAR_10000: int := 253402300800  // 10000-01-01T00:00:00Z

  /** Unix times from 1970 through the last year the date type represents. */
  predicate Timely(now: int) {
    0 <= now < YEAR_10000
  }

  function DayNumber(now: int): int {
    now / SECONDS_PER_DAY
  }

  function DateAt(now: int): Date {
    CivilFromDays(DayNumber(now))
  }

  // ISO 8601 weeks start on Monday and belong to the year of their Thursday.

  function Thursday(day: int): int {
    (day + 3) / 7 * 7  // day 0 was a Thursday
  }

  function IsoYear(day: int): int {
    CivilFromDays(Thursday(day)).year
  }

  function IsoWeek(day: int): int {
    (Thursday(day) - DaysBeforeYear(IsoYear(day))) / 7 + 1
  }

  /** `current_period_token`: casts to u64 wrap. */
  function Token(period: Period, now: int): int {
    match period
    case Day => TruncDiv(now, SECONDS_PER_DAY) % U64_RANGE
    case Week => (DateAt(now).year * 100 + IsoWeek(DayNumber(now))) % U64_RANGE
    case Month => (DateAt(now).year * 100 + DateAt(now).month) % U64_RANGE
  }

  predicate SamePeriod(period: Period, a: int, b: int) {
    match period
    case Day => DayNumber(a) == DayNumber(b)
    case Week => Thursday(DayNumber(a)) == Thursday(DayNumber(b))
    case Month => DateAt(a).year == DateAt(b).year && DateAt(a).month == DateAt(b).month
  }

  lemma YearWithin(d: Date)
    requires Valid(d) && 0 <= DaysFromCivil(d) < YEAR_10000 / SECONDS_PER_DAY
    ensures 1970 <= d.year < 10000
  {
    hide DaysFromCivil, Valid;
    WithinYear(d);
    YearClosedForm(10000);
    YearClosedForm(1970);
    hide DaysBeforeYear;
    if d.year > 10000 {
      YearsMonotone(10000, d.year);
    } else if d.year < 1970 {
      YearsMonotone(d.year, 1970);
    }
  }

  lemma DateFacts(now: int)
    requires Timely(now)
    ensures Valid(DateAt(now)) && DaysFromCivil(DateAt(now)) == DayNumber(now)
    ensures 1970 <= DateAt(now).year < 10000
  {
    hide CivilFromDays, DaysFromCivil, Valid;
    CivilFromDaysIsCivil(DayNumber(now));
    YearWithin(DateAt(now));
  }

  lemma DayTokens(a: int, b: int)
    requires Timely(a) && Timely(b)
    ensures Token(Day, a) <= Token(Day, b) <==> DayNumber(a) <= DayNumber(b)
  {
  }

  lemma MonthToken(now: int)
    requires Timely(now)
    ensures Token(Month, now) == DateAt(now).year * 100 + DateAt(now).month
  {
    hide DateAt, DaysFromCivil, DayNumber;
    DateFacts(now);
  }

  lemma MonthTokens(a: int, b: int)
    requires Timely(a) && Timely(b) && a <= b
    ensures Token(Month, a) <= Token(Month, b)
    ensures Token(Month, a) == Token(Month, b) <==> SamePeriod(Month, a, b)
  {
    hide CivilFromDays, Token;
    DateFacts(a);
    DateFacts(b);
    MonthToken(a);
    MonthToken(b);
    CivilFromDaysOrder(DayNumber(b), DayNumber(a));
  }

  /** On a monotone clock, Day and Month tokens never decrease and name the calendar period. */
  lemma DayMonthTokens(period: Period, a: int, b: int)
    requires period != Week && Timely(a) && Timely(b) && a <= b
    ensures Token(period, a) <= Token(period, b)
    ensures Token(period, a) == Token(period, b) <==> SamePeriod(period, a, b)
  {
    hide Token;
    if period == Day {
      DayTokens(a, b);
      DayTokens(b, a);
    } else {
      MonthTokens(a, b);
    }
  }

  /** The moments of one period form an interval. */
  lemma PeriodsAreIntervals(period: Period, a: int, b: int, c: int)
    requires Timely(a) && Timely(b) && Timely(c) && a <= b <= c && SamePeriod(period, a, c)
    ensures SamePeriod(period, a, b) && SamePeriod(period, b, c)
  {
    if period != Week {
      hide Token, SamePeriod;
      DayMonthTokens(period, a, b);
      DayMonthTokens(period, b, c);
      DayMonthTokens(period, a, c);
    }
  }

  // ----- the Week token -----

  function DayOfYear(d: Date): int
    requires Valid(d)
  {
    DaysFromCivil(d) - DaysBeforeYear(d.year)
  }

  lemma MonthEnds(d: Date)
    requires Valid(d)
    ensures d.month == 1 <==> DayOfYear(d) < 31
    ensures d.month == 12 <==> DayOfYear(d) >= YearLength(d.year) - 31
    ensures 0 <= DayOfYear(d) < YearLength(d.year)
  {
    WithinYear(d);
    MonthTable(d.year);
    if d.month > 1 {
      if d.month > 2 {
        MonthsMonotone(d.year, 2, d.month);
      }
      if d.month < 12 {
        MonthsMonotone(d.year, d.month, 12);
      }
    }
  }

  /** Where a week's Thursday falls relative to one of its days near a year boundary. */
  lemma ThursdayYear(day: int)
    ensures var d := CivilFromDays(day);
            && Valid(d)
            && (IsoYear(day) > d.year <==> d.month == 12 && IsoWeek(day) == 1)
            && (IsoYear(day) < d.year <==> d.month == 1 && IsoWeek(day) >= 52)
  {
    hide CivilFromDays;
    var t := Thursday(day);
    assert day - 3 <= t <= day + 3;
    var d, dt := CivilFromDays(day), CivilFromDays(t);
    CivilFromDaysIsCivil(day);
    CivilFromDaysIsCivil(t);
    MonthEnds(d);
    MonthEnds(dt);
    YearStep(d.year);
    YearStep(dt.year);
    if d.year < dt.year {
      YearsMonotone(d.year, dt.year);
    } else if dt.year < d.year {
      YearsMonotone(dt.year, d.year);
    }
  }

  function IsoToken(day: int): int {
    IsoYear(day) * 100 + IsoWeek(day)
  }

  /** ISO year and week together identify the week. */
  lemma IsoTokenIdentifiesWeek(a: int, b: int)
    ensures IsoToken(a) == IsoToken(b) <==> Thursday(a) == Thursday(b)
  {
    hide CivilFromDays;
    WeekNumberRange(a);
    WeekNumberRange(b);
  }

  lemma WeekNumberRange(day: int)
    ensures 1 <= IsoWeek(day) <= 53
  {
    hide CivilFromDays;
    CivilFromDaysIsCivil(Thursday(day));
    WithinYear(CivilFromDays(Thursday(day)));
  }

  lemma WeekToken(now: int)
    requires Timely(now)
    ensures Token(Week, now) == DateAt(now).year * 100 + IsoWeek(DayNumber(now))
  {
    hide DateAt, IsoWeek, DayNumber;
    DateFacts(now);
    WeekNumberRange(DayNumber(now));
  }

  /** What a token spells: the day count, or the calendar year and the month or ISO week. So the
      tokens of different periods are told apart, except a Week token and a Month token whose
      numbers agree. */
  lemma TokensSpell(now: int)
    requires Timely(now)
    ensures var d := DateAt(now);
            && (Token(Day, now) + 1) * 86400 > now >= Token(Day, now) * 86400
            && Token(Month, now) / 100 == d.year && Token(Month, now) % 100 == d.month
            && Token(Week, now) / 100 == d.year && Token(Week, now) % 100 == IsoWeek(DayNumber(now))
            && (Token(Week, now) == Token(Month, now) <==> IsoWeek(DayNumber(now)) == d.month)
            && (Token(Day, now) < 197001 ==>
                  Token(Day, now) != Token(Month, now) && Token(Day, now) != Token(Week, now))
  {
    hide DateAt, IsoWeek, DaysFromCivil;
    DateFacts(now);
    MonthToken(now);
    WeekToken(now);
    WeekNumberRange(DayNumber(now));
  }

  /** Neither a January day of the old year's last week nor a December day of the new year's
      first. */
  predicate Regular(now: int) {
    var d, w := DateAt(now), IsoWeek(DayNumber(now));
    !(d.month == 1 && w >= 52) && !(d.month == 12 && w == 1)
  }

  /** The Week token combines the calendar year with the ISO week number. It is the ISO
      year-week exactly at regular times. */
  lemma WeekTokenIsIso(now: int)
    requires Timely(now)
    ensures Token(Week, now) == IsoToken(DayNumber(now)) <==> Regular(now)
    ensures DateAt(now).year == IsoYear(DayNumber(now)) <==> Regular(now)
  {
    hide CivilFromDays, IsoWeek, IsoYear, Token;
    WeekToken(now);
    ThursdayYear(DayNumber(now));
  }

  /** Two Week tokens tell the week correctly unless the ISO week numbers agree and exactly one
      of the calendar year and the ISO year does; so they do whenever both days are equally far
      from their ISO year. */
  lemma RegularWeekTokens(a: int, b: int)
    requires Timely(a) && Timely(b)
    ensures var x, y := DayNumber(a), DayNumber(b);
            (Token(Week, a) == Token(Week, b) <==> SamePeriod(Week, a, b)) <==>
            (IsoWeek(x) == IsoWeek(y) ==> (DateAt(a).year == DateAt(b).year <==> IsoYear(x) == IsoYear(y)))
    ensures IsoYear(DayNumber(a)) - DateAt(a).year == IsoYear(DayNumber(b)) - DateAt(b).year ==>
              (Token(Week, a) == Token(Week, b) <==> SamePeriod(Week, a, b))
  {
    hide CivilFromDays, DateAt, IsoWeek, IsoYear, DayNumber, Token;
    WeekToken(a);
    WeekToken(b);
    WeekNumberRange(DayNumber(a));
    WeekNumberRange(DayNumber(b));
    IsoTokenIdentifiesWeek(DayNumber(a), DayNumber(b));
  }

  lemma {:induction false} YearOfDay(day: int, y: int)
    ensures CivilFromDays(day).year == y <==> DaysBeforeYear(y) <= day < DaysBeforeYear(y + 1)
  {
    hide CivilFromDays, DaysBeforeYear;
    CivilFromDaysIsCivil(day);
    var d := CivilFromDays(day);
    WithinYear(d);
    YearStep(y);
    if d.year < y {
      YearsMonotone(d.year, y);
    } else if y < d.year {
      YearsMonotone(y, d.year);
    }
  }

  /** Regular Week tokens never go back. */
  lemma RegularTokensAdvance(a: int, b: int)
    requires Timely(a) && Timely(b) && a <= b && Regular(a) && Regular(b)
    ensures Token(Week, a) <= Token(Week, b)
  {
    hide CivilFromDays, Token, Regular;
    WeekTokenIsIso(a);
    WeekTokenIsIso(b);
    IsoTokensAdvance(DayNumber(a), DayNumber(b));
  }

  lemma IsoTokensAdvance(a: int, b: int)
    requires a <= b
    ensures IsoToken(a) <= IsoToken(b)
  {
    hide CivilFromDays;
    WeekNumberRange(a);
    WeekNumberRange(b);
    CivilFromDaysOrder(Thursday(b), Thursday(a));
  }

  /** A token that belongs to two weeks comes back 358 days later at the earliest. */
  lemma WeekTokensReturnLate(a: int, b: int)
    requires Timely(a) && Timely(b) && a <= b
    ensures Token(Week, a) == Token(Week, b) ==> SamePeriod(Week, a, b) || DayNumber(b) >= DayNumber(a) + 358
  {
    hide CivilFromDays, DateAt, Token, DaysBeforeYear;
    WeekToken(a);
    WeekToken(b);
    var x, y := DayNumber(a), DayNumber(b);
    WeekNumberRange(x);
    WeekNumberRange(y);
    assert Token(Week, a) == Token(Week, b) ==> IsoWeek(x) == IsoWeek(y);
    if IsoYear(x) < IsoYear(y) {
      YearsMonotone(IsoYear(x), IsoYear(y));
    } else if IsoYear(y) < IsoYear(x) {
      YearsMonotone(IsoYear(y), IsoYear(x));
    }
  }

  lemma YearsAdvance(a: int, b: int)
    requires a <= b
    ensures CivilFromDays(a).year <= CivilFromDays(b).year
  {
    hide CivilFromDays;
    CivilFromDaysOrder(b, a);
  }

  /** Between two days of one week with one token, the token is the same. */
  lemma SameYearSameToken(a: int, b: int, c: int)
    requires Timely(a) && Timely(b) && Timely(c) && a <= b <= c
    requires SamePeriod(Week, a, c) && Token(Week, a) == Token(Week, c)
    ensures Token(Week, b) == Token(Week, c)
  {
    hide CivilFromDays, Token, Thursday;
    PeriodsAreIntervals(Week, a, b, c);
    WeekToken(a);
    WeekToken(b);
    WeekToken(c);
    YearsAdvance(DayNumber(a), DayNumber(b));
    YearsAdvance(DayNumber(b), DayNumber(c));
  }

  /** An earlier moment that an irregular one is told apart from, or confused with, wrongly: the
      last day of the old year, in the same week, or 4 January of this year, in its first. */
  function Misleading(now: int): int {
    var y := DateAt(now).year;
    (if DateAt(now).month == 1 then DaysBeforeYear(y) - 1 else DaysBeforeYear(y) + 3) * SECONDS_PER_DAY
  }

  lemma OldYearsWeek(day: int, y: int)
    requires CivilFromDays(day).year == y && IsoYear(day) < y
    ensures var e := DaysBeforeYear(y) - 1;
            && Thursday(day) <= e < day && Thursday(e) == Thursday(day)
            && CivilFromDays(e).year == y - 1 == IsoYear(e)
  {
    hide CivilFromDays, DaysBeforeYear;
    var e, t := DaysBeforeYear(y) - 1, Thursday(day);
    assert day - 3 <= t <= day + 3;
    YearOfDay(day, y);
    YearOfDay(t, y);
    YearStep(y);
    YearOfDay(t, y + 1);
    YearStep(y + 1);
    YearStep(y - 1);
    YearOfDay(e, y - 1);
    YearOfDay(t, y - 1);
    assert t <= e < day;
    SameWeek(e, t);
  }

  lemma SameWeek(day: int, thursday: int)
    requires thursday % 7 == 0 && thursday - 3 <= day <= thursday + 3
    ensures Thursday(day) == thursday
  {
  }

  lemma NewYearsWeek(day: int, y: int)
    requires CivilFromDays(day).year == y && IsoYear(day) > y
    ensures var e := DaysBeforeYear(y) + 3;
            && e < day && Thursday(e) != Thursday(day)
            && CivilFromDays(e).year == y == IsoYear(e) && IsoWeek(e) == 1 == IsoWeek(day)
  {
    hide CivilFromDays, DaysBeforeYear;
    var e, t := DaysBeforeYear(y) + 3, Thursday(day);
    assert day - 3 <= t <= day + 3 && e - 3 <= Thursday(e) <= e + 3;
    YearStep(y - 1);
    YearOfDay(t, y - 1);
    YearOfDay(day, y);
    YearOfDay(t, y);
    YearStep(y);
    YearOfDay(e, y);
    YearOfDay(Thursday(e), y);
    YearStep(y + 1);
    YearOfDay(t, y + 1);
  }

  lemma IrregularMisleads(now: int)
    requires Timely(now)
    ensures var t := Misleading(now);
            !Regular(now) ==>
            && Timely(t) && t <= now && Regular(t)
            && (Token(Week, t) == Token(Week, now)) != SamePeriod(Week, t, now)
  {
    hide CivilFromDays, IsoYear, IsoWeek, DaysBeforeYear, Token, Regular;
    var day, y := DayNumber(now), DateAt(now).year;
    var e := if DateAt(now).month == 1 then DaysBeforeYear(y) - 1 else DaysBeforeYear(y) + 3;
    assert DayNumber(e * SECONDS_PER_DAY) == e;
    assert (Regular(now) <==> IsoYear(day) == y) by { WeekTokenIsIso(now); }
    assert (IsoYear(day) < y ==> DateAt(now).month == 1) && (IsoYear(day) > y ==> DateAt(now).month == 12) by {
      ThursdayYear(day);
    }
    assert DaysBeforeYear(y) >= 0 by { DateFacts(now); NotBeforeEpoch(y); }
    if IsoYear(day) != y {
      if IsoYear(day) < y {
        OldYearsWeek(day, y);
      } else {
        NewYearsWeek(day, y);
      }
      WeekTokenIsIso(e * SECONDS_PER_DAY);
      WeekToken(e * SECONDS_PER_DAY);
      WeekToken(now);
      WeekNumberRange(e);
      WeekNumberRange(day);
    }
  }

  lemma {:induction false} NotBeforeEpoch(y: int)
    requires y >= 1970
    ensures DaysBeforeYear(y) >= 0
  {
    hide DaysBeforeYear;
    assert DaysBeforeYear(1970) == 0 by { YearClosedForm(1970); }
    if y > 1970 {
      YearsMonotone(1970, y);
    }
  }

  const JAN_1_2024 := 19723 * SECONDS_PER_DAY
  const DEC_29_2024 := 20086 * SECONDS_PER_DAY
  const DEC_30_2024 := 20087 * SECONDS_PER_DAY
  const JAN_1_2025 := 20089 * SECONDS_PER_DAY

  lemma DatesAtYearEnd()
    ensures DaysBeforeYear(2024) == 19723 && DaysBeforeYear(2025) == 20089
    ensures CivilFromDays(19723) == Date(2024, 1, 1) && CivilFromDays(19726).year == 2024
    ensures CivilFromDays(20083).year == 2024 && CivilFromDays(20086) == Date(2024, 12, 29)
    ensures CivilFromDays(20087) == Date(2024, 12, 30)
    ensures CivilFromDays(20089) == Date(2025, 1, 1) && CivilFromDays(20090).year == 2025
  {
    hide CivilFromDays;
    YearClosedForm(2024);
    YearClosedForm(2025);
    MonthTable(2024);
    hide DaysBeforeYear;
    CivilFromDaysInverts(Date(2024, 1, 1));
    CivilFromDaysInverts(Date(2024, 1, 4));
    CivilFromDaysInverts(Date(2024, 12, 26));
    CivilFromDaysInverts(Date(2024, 12, 29));
    CivilFromDaysInverts(Date(2024, 12, 30));
    CivilFromDaysInverts(Date(2025, 1, 1));
    CivilFromDaysInverts(Date(2025, 1, 2));
  }

  /** 30 December 2024 starts ISO week 1 of 2025, but its token is that of ISO week 1 of 2024:
      it splits one week in two, rejoins a week of a year before, and goes backwards. */
  lemma WeekTokenAtYearEnd()
    ensures Token(Week, JAN_1_2024) == Token(Week, DEC_30_2024) == 202401 && !SamePeriod(Week, JAN_1_2024, DEC_30_2024)
    ensures Token(Week, DEC_29_2024) == 202452
    ensures Token(Week, JAN_1_2025) == 202501 && SamePeriod(Week, DEC_30_2024, JAN_1_2025)
  {
    hide CivilFromDays, DaysBeforeYear;
    DatesAtYearEnd();
  }
}

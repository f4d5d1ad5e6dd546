/** The proleptic Gregorian calendar, defined by counting years and months from 1970-01-01,
    and the era arithmetic of `civil_from_days` proved against it. */
module Calendar {
  datatype Date = Date(year: int, month: int, day: int)

  predicate Leap(y: int) {
    y % 4 == 0 && (y % 100 != 0 || y % 400 == 0)
  }

  function YearLength(y: int): int {
    if Leap(y) then 366 else 365
  }

  function MonthLength(y: int, m: int): int {
    if m == 2 then if Leap(y) then 29 else 28
    else if m == 4 || m == 6 || m == 9 || m == 11 then 30
    else 31
  }

  predicate Valid(d: Date) {
    1 <= d.month <= 12 && 1 <= d.day <= MonthLength(d.year, d.month)
  }

  /** Days from 1970-01-01 to January 1st of `y`, year by year. */
  function DaysBeforeYear(y: int): int
    decreases if y >= 1970 then y - 1970 else 1970 - y
  {
    if y == 1970 then 0
    else if y > 1970 then DaysBeforeYear(y - 1) + YearLength(y - 1)
    else DaysBeforeYear(y + 1) - YearLength(y)
  }

  /** Days from January 1st of `y` to the first of month `m`, month by month. */
  function DaysBeforeMonth(y: int, m: int): int
    requires 1 <= m <= 13
  {
    if m == 1 then 0 else DaysBeforeMonth(y, m - 1) + MonthLength(y, m - 1)
  }

  function DaysFromCivil(d: Date): int
    requires Valid(d)
  {
    DaysBeforeYear(d.year) + DaysBeforeMonth(d.year, d.month) + d.day - 1
  }

  function NextDay(d: Date): Date {
    if d.day < MonthLength(d.year, d.month) then d.(day := d.day + 1)
    else if d.month < 12 then Date(d.year, d.month + 1, 1)
    else Date(d.year + 1, 1, 1)
  }

  // ----- properties of the calendar -----

  lemma {:induction false} YearStep(y: int)
    ensures DaysBeforeYear(y + 1) == DaysBeforeYear(y) + YearLength(y)
  {
  }

  /** Leap years before `y`, counted by floor division. */
  function LeapsBefore(y: int): int {
    (y - 1) / 4 - (y - 1) / 100 + (y - 1) / 400
  }

  lemma MultiplesStep(y: int)
    ensures y / 4 - (y - 1) / 4 == if y % 4 == 0 then 1 else 0
    ensures y / 100 - (y - 1) / 100 == if y % 100 == 0 then 1 else 0
    ensures y / 400 - (y - 1) / 400 == if y % 400 == 0 then 1 else 0
  {
    assert y == 4 * (y / 4) + y % 4 && y == 100 * (y / 100) + y % 100 && y == 400 * (y / 400) + y % 400;
  }

  lemma NestedMultiples(y: int)
    ensures y % 400 == 0 ==> y % 100 == 0
    ensures y % 100 == 0 ==> y % 4 == 0
  {
    if y % 400 == 0 {
      Multiples(4 * (y / 400));
      assert y == 100 * (4 * (y / 400));
    }
    if y % 100 == 0 {
      Multiples(25 * (y / 100));
      assert y == 4 * (25 * (y / 100));
    }
  }

  lemma Multiples(m: int)
    ensures (100 * m) % 100 == 0 && (4 * m) % 4 == 0
  {
  }

  lemma LeapStep(y: int)
    ensures LeapsBefore(y + 1) == LeapsBefore(y) + if Leap(y) then 1 else 0
  {
    MultiplesStep(y);
    NestedMultiples(y);
  }

  lemma {:induction false} YearClosedForm(y: int)
    ensures DaysBeforeYear(y) == 365 * (y - 1970) + LeapsBefore(y) - 477
    decreases if y >= 1970 then y - 1970 else 1970 - y
  {
    if y > 1970 {
      YearClosedForm(y - 1);
      LeapStep(y - 1);
    } else if y < 1970 {
      YearClosedForm(y + 1);
      LeapStep(y);
    }
  }

  /** The month offsets, tabulated from the month-by-month definition. */
  lemma MonthTable(y: int)
    ensures var l := if Leap(y) then 1 else 0;
            && DaysBeforeMonth(y, 1) == 0 && DaysBeforeMonth(y, 2) == 31 && DaysBeforeMonth(y, 3) == 59 + l
            && DaysBeforeMonth(y, 4) == 90 + l && DaysBeforeMonth(y, 5) == 120 + l && DaysBeforeMonth(y, 6) == 151 + l
            && DaysBeforeMonth(y, 7) == 181 + l && DaysBeforeMonth(y, 8) == 212 + l && DaysBeforeMonth(y, 9) == 243 + l
            && DaysBeforeMonth(y, 10) == 273 + l && DaysBeforeMonth(y, 11) == 304 + l
            && DaysBeforeMonth(y, 12) == 334 + l
            && DaysBeforeMonth(y, 13) == YearLength(y)
  {
    assert DaysBeforeMonth(y, 2) == 31;
    assert DaysBeforeMonth(y, 3) == 59 + if Leap(y) then 1 else 0;
    assert DaysBeforeMonth(y, 5) == DaysBeforeMonth(y, 3) + 61;
    assert DaysBeforeMonth(y, 7) == DaysBeforeMonth(y, 5) + 61;
    assert DaysBeforeMonth(y, 9) == DaysBeforeMonth(y, 7) + 62;
    assert DaysBeforeMonth(y, 11) == DaysBeforeMonth(y, 9) + 61;
    assert DaysBeforeMonth(y, 13) == DaysBeforeMonth(y, 11) + 61;
  }

  lemma NextDayIsNextCount(d: Date)
    requires Valid(d)
    ensures Valid(NextDay(d)) && DaysFromCivil(NextDay(d)) == DaysFromCivil(d) + 1
  {
    if d.day == MonthLength(d.year, d.month) {
      if d.month < 12 {
        assert DaysBeforeMonth(d.year, d.month + 1) == DaysBeforeMonth(d.year, d.month) + d.day;
      } else {
        MonthTable(d.year);
        YearStep(d.year);
      }
    }
  }

  lemma {:induction false} YearsMonotone(y: int, y': int)
    requires y < y'
    ensures DaysBeforeYear(y) + YearLength(y) <= DaysBeforeYear(y')
    decreases y' - y
  {
    YearStep(y);
    if y + 1 < y' {
      YearsMonotone(y + 1, y');
    }
  }

  lemma {:induction false} MonthsMonotone(y: int, m: int, m': int)
    requires 1 <= m < m' <= 13
    ensures DaysBeforeMonth(y, m) + MonthLength(y, m) <= DaysBeforeMonth(y, m')
    decreases m' - m
  {
    if m < m' - 1 {
      MonthsMonotone(y, m, m' - 1);
    }
  }

  lemma WithinYear(d: Date)
    requires Valid(d)
    ensures DaysBeforeYear(d.year) <= DaysFromCivil(d) < DaysBeforeYear(d.year) + YearLength(d.year)
  {
    MonthTable(d.year);
    MonthsMonotone(d.year, d.month, 13);
    if d.month > 1 {
      MonthsMonotone(d.year, 1, d.month);
    }
  }

  predicate Before(a: Date, b: Date) {
    || a.year < b.year
    || (a.year == b.year && a.month < b.month)
    || (a.year == b.year && a.month == b.month && a.day < b.day)
  }

  /** Counting days preserves calendar order, so no two dates share a count. */
  lemma CivilOrder(a: Date, b: Date)
    requires Valid(a) && Valid(b)
    ensures DaysFromCivil(a) < DaysFromCivil(b) <==> Before(a, b)
    ensures DaysFromCivil(a) == DaysFromCivil(b) <==> a == b
  {
    if Before(a, b) {
      BeforeIsLess(a, b);
    } else if Before(b, a) {
      BeforeIsLess(b, a);
    }
  }

  lemma BeforeIsLess(a: Date, b: Date)
    requires Valid(a) && Valid(b) && Before(a, b)
    ensures DaysFromCivil(a) < DaysFromCivil(b)
  {
    if a.year < b.year {
      YearsMonotone(a.year, b.year);
      WithinYear(a);
      WithinYear(b);
    } else if a.month < b.month {
      MonthsMonotone(a.year, a.month, b.month);
    }
  }

  // ----- the era arithmetic -----

  /** Rust's `/` on `i64`: truncation toward zero. */
  function TruncDiv(a: int, b: int): int
    requires b > 0
  {
    if a >= 0 then a / b else -((-a) / b)
  }

  function CivilFromDays(days: int): Date {
    var z := days + 719468;
    var era := TruncDiv(if z >= 0 then z else z - 146096, 146097);
    var doe := z - era * 146097;
    var yoe := YearOfEra(doe);
    CivilOfYear(yoe + era * 400, doe - (365 * yoe + TruncDiv(yoe, 4) - TruncDiv(yoe, 100)))
  }

  function YearOfEra(doe: int): int {
    TruncDiv(doe - TruncDiv(doe, 1460) + TruncDiv(doe, 36524) - TruncDiv(doe, 146096), 365)
  }

  /** The date `doy` days into the year that starts on March 1st of `year`. */
  function CivilOfYear(year: int, doy: int): Date {
    var mp := TruncDiv(5 * doy + 2, 153);
    var day := doy - TruncDiv(153 * mp + 2, 5) + 1;
    var month := if mp < 10 then mp + 3 else mp - 9;
    Date(if month <= 2 then year + 1 else year, month, day)
  }

  lemma EraIsFloor(z: int)
    ensures TruncDiv(if z >= 0 then z else z - 146096, 146097) == z / 146097
  {
  }

  // A day of an era is day `s` of four-year cycle `q` of century `c`.

  predicate EraParts(c: int, q: int, s: int) {
    0 <= c <= 3 && 0 <= q <= 24 && 0 <= s <= 1460 && (q == 24 && s == 1460 ==> c == 3)
  }

  function CycleYear(s: int): int {
    if s < 365 then 0 else if s < 730 then 1 else if s < 1095 then 2 else 3
  }

  lemma CenturyTerm(c: int, q: int, s: int)
    requires EraParts(c, q, s)
    ensures var doe := 36524 * c + 1461 * q + s; doe / 36524 - doe / 146096 == c
  {
    var doe := 36524 * c + 1461 * q + s;
    assert 0 <= doe - 36524 * c <= 36524;
  }

  lemma CycleTerm(c: int, q: int, s: int)
    requires EraParts(c, q, s)
    ensures (36524 * c + 1461 * q + s) / 1460 == 25 * c + q + if 24 * c + q + s >= 1460 then 1 else 0
  {
  }

  lemma YearTerm(c: int, q: int, s: int)
    requires EraParts(c, q, s)
    ensures (36500 * c + 1460 * q + s - if 24 * c + q + s >= 1460 then 1 else 0) / 365 == 100 * c + 4 * q + CycleYear(s)
  {
  }

  lemma LeapTerms(c: int, q: int, y: int)
    requires 0 <= c <= 3 && 0 <= q <= 24 && 0 <= y <= 3
    ensures (100 * c + 4 * q + y) / 4 == 25 * c + q && (100 * c + 4 * q + y) / 100 == c
    ensures y == 3 && (q != 24 || c == 3) ==> Leap(100 * c + 4 * q + y + 1)
  {
  }

  lemma TruncIsFloor(a: int, b: int)
    requires a >= 0 && b > 0
    ensures TruncDiv(a, b) == a / b
  {
  }

  lemma YearOfEraAt(c: int, q: int, s: int)
    requires EraParts(c, q, s)
    ensures YearOfEra(36524 * c + 1461 * q + s) == 100 * c + 4 * q + CycleYear(s)
  {
    var doe := 36524 * c + 1461 * q + s;
    TruncIsFloor(doe, 1460);
    TruncIsFloor(doe, 36524);
    TruncIsFloor(doe, 146096);
    CenturyTerm(c, q, s);
    CycleTerm(c, q, s);
    TruncIsFloor(36500 * c + 1460 * q + s - if 24 * c + q + s >= 1460 then 1 else 0, 365);
    YearTerm(c, q, s);
  }

  lemma PartsOfEra(doe: int) returns (c: int, q: int, s: int)
    requires 0 <= doe < 146097
    ensures EraParts(c, q, s) && doe == 36524 * c + 1461 * q + s
  {
    c := if doe == 146096 then 3 else doe / 36524;
    q := (doe - 36524 * c) / 1461;
    s := doe - 36524 * c - 1461 * q;
  }

  /** Within an era, `YearOfEra` is the March-based year whose days contain `doe`. */
  lemma YearOfEraContains(doe: int)
    requires 0 <= doe < 146097
    ensures var yoe := YearOfEra(doe);
            var doy := doe - (365 * yoe + yoe / 4 - yoe / 100);
            0 <= yoe < 400 && 0 <= doy <= 365 && (doy == 365 ==> Leap(yoe + 1))
  {
    hide YearOfEra;
    var c, q, s := PartsOfEra(doe);
    YearOfEraAt(c, q, s);
    LeapTerms(c, q, CycleYear(s));
  }

  function MonthStart(mp: int): int {
    (153 * mp + 2) / 5
  }

  lemma MonthOfYear(doy: int)
    requires 0 <= doy <= 365
    ensures var mp := (5 * doy + 2) / 153; 0 <= mp <= 11 && MonthStart(mp) <= doy < MonthStart(mp + 1)
  {
  }

  lemma CivilOfYearParts(year: int, doy: int) returns (mp: int)
    requires 0 <= doy <= 365
    ensures 0 <= mp <= 11 && MonthStart(mp) <= doy < MonthStart(mp + 1)
    ensures CivilOfYear(year, doy) == MarchDate(year, mp, doy - MonthStart(mp) + 1)
  {
    MonthOfYear(doy);
    TruncIsFloor(5 * doy + 2, 153);
    mp := (5 * doy + 2) / 153;
    TruncIsFloor(153 * mp + 2, 5);
  }

  lemma CivilFromDaysParts(days: int) returns (era: int, yoe: int, doy: int)
    ensures 0 <= yoe < 400 && 0 <= doy <= 365 && (doy == 365 ==> Leap(yoe + 1))
    ensures days + 719468 == era * 146097 + 365 * yoe + yoe / 4 - yoe / 100 + doy
    ensures CivilFromDays(days) == CivilOfYear(400 * era + yoe, doy)
  {
    hide YearOfEra, CivilOfYear;
    var z := days + 719468;
    EraIsFloor(z);
    era := z / 146097;
    var doe := z - era * 146097;
    YearOfEraContains(doe);
    yoe := YearOfEra(doe);
    TruncIsFloor(yoe, 4);
    TruncIsFloor(yoe, 100);
    doy := doe - (365 * yoe + yoe / 4 - yoe / 100);
  }

  /** Day `day` of the month `mp` months after March of year `y`. */
  function MarchDate(y: int, mp: int, day: int): Date {
    if mp < 10 then Date(y, mp + 3, day) else Date(y + 1, mp - 9, day)
  }

  lemma DivisionShifts(era: int, a: int)
    ensures (4 * (100 * era) + a) / 4 == 100 * era + a / 4 && (4 * (100 * era) + a) % 4 == a % 4
    ensures (100 * (4 * era) + a) / 100 == 4 * era + a / 100 && (100 * (4 * era) + a) % 100 == a % 100
    ensures (400 * era + a) / 400 == era + a / 400 && (400 * era + a) % 400 == a % 400
  {
  }

  lemma EraTerms(era: int, yoe: int)
    requires 0 <= yoe < 400
    ensures var y := 400 * era + yoe;
            && y / 4 == 100 * era + yoe / 4 && y / 100 == 4 * era + yoe / 100 && y / 400 == era
            && (Leap(y + 1) <==> Leap(yoe + 1))
  {
    DivisionShifts(era, yoe);
    DivisionShifts(era, yoe + 1);
  }

  /** The last day of February of `400 * era + yoe`, counted both ways. */
  lemma MarchYear(era: int, yoe: int)
    requires 0 <= yoe < 400
    ensures var y := 400 * era + yoe;
            DaysBeforeYear(y + 1) - 306 == era * 146097 + 365 * yoe + yoe / 4 - yoe / 100 - 719468
  {
    YearClosedForm(400 * era + yoe + 1);
    EraTerms(era, yoe);
  }

  lemma MarchDateCount(y: int, mp: int, day: int)
    requires 0 <= mp <= 11 && 1 <= day <= MonthStart(mp + 1) - MonthStart(mp)
    requires mp == 11 ==> day <= 28 + if Leap(y + 1) then 1 else 0
    ensures Valid(MarchDate(y, mp, day))
    ensures DaysFromCivil(MarchDate(y, mp, day)) == DaysBeforeYear(y + 1) - 306 + MonthStart(mp) + day - 1
  {
    hide DaysBeforeMonth, DaysBeforeYear;
    MonthTable(y);
    MonthTable(y + 1);
    YearStep(y);
    assert MonthStart(mp) == [0, 31, 61, 92, 122, 153, 184, 214, 245, 275, 306, 337][mp];
  }

  /** Every day count, negative ones included, becomes a valid date with exactly that count. */
  lemma CivilFromDaysIsCivil(days: int)
    ensures Valid(CivilFromDays(days))
    ensures DaysFromCivil(CivilFromDays(days)) == days
  {
    hide CivilFromDays, CivilOfYear, MarchDate, DaysFromCivil, DaysBeforeYear, Valid;
    var era, yoe, doy := CivilFromDaysParts(days);
    var mp := CivilOfYearParts(400 * era + yoe, doy);
    EraTerms(era, yoe);
    MarchYear(era, yoe);
    MarchDateCount(400 * era + yoe, mp, doy - MonthStart(mp) + 1);
  }

  /** The inverse direction: the map from valid dates to day counts is undone too. */
  lemma CivilFromDaysInverts(d: Date)
    requires Valid(d)
    ensures CivilFromDays(DaysFromCivil(d)) == d
  {
    CivilFromDaysIsCivil(DaysFromCivil(d));
    CivilOrder(CivilFromDays(DaysFromCivil(d)), d);
  }

  lemma CivilFromDaysNext(d: Date)
    requires Valid(d)
    ensures CivilFromDays(DaysFromCivil(d) + 1) == NextDay(d)
  {
    NextDayIsNextCount(d);
    CivilFromDaysInverts(NextDay(d));
  }

  lemma CivilFromDaysEpoch()
    ensures CivilFromDays(0) == Date(1970, 1, 1)
  {
    CivilFromDaysInverts(Date(1970, 1, 1));
  }

  /** The next day count is the next calendar day, across month ends, leap days and eras. */
  lemma CivilFromDaysSuccessor(days: int)
    ensures CivilFromDays(days + 1) == NextDay(CivilFromDays(days))
  {
    hide *;
    CivilFromDaysIsCivil(days);
    CivilFromDaysNext(CivilFromDays(days));
  }

  /** A calendar that starts at the epoch and goes from day to day, both ways. */
  ghost predicate IsCalendar(f: int -> Date) {
    && f(0) == Date(1970, 1, 1)
    && forall z :: Valid(f(z)) && f(z + 1) == NextDay(f(z))
  }

  lemma CalendarStep(f: int -> Date, z: int)
    requires IsCalendar(f)
    ensures Valid(f(z)) && f(z + 1) == NextDay(f(z))
  {
  }

  lemma NextDayInjective(a: Date, b: Date)
    requires Valid(a) && Valid(b) && NextDay(a) == NextDay(b)
    ensures a == b
  {
    NextDayIsNextCount(a);
    NextDayIsNextCount(b);
    CivilOrder(a, b);
  }

  /** There is only one, so the era arithmetic computes the calendar and nothing else. */
  lemma {:induction false} CivilFromDaysIsUnique(f: int -> Date, z: int)
    requires IsCalendar(f)
    ensures f(z) == CivilFromDays(z)
    decreases if z >= 0 then z else -z
  {
    hide *;
    if z > 0 {
      CivilFromDaysIsUnique(f, z - 1);
      CalendarStep(f, z - 1);
      CivilFromDaysSuccessor(z - 1);
    } else if z < 0 {
      CivilFromDaysIsUnique(f, z + 1);
      CalendarStep(f, z);
      CivilFromDaysIsCivil(z);
      CivilFromDaysSuccessor(z);
      NextDayInjective(f(z), CivilFromDays(z));
    } else {
      CivilFromDaysEpoch();
      StartsAtEpoch(f);
    }
  }

  lemma StartsAtEpoch(f: int -> Date)
    requires IsCalendar(f)
    ensures f(0) == Date(1970, 1, 1)
  {
  }

  /** Later counts are later dates, so the map is injective. */
  lemma CivilFromDaysOrder(a: int, b: int)
    ensures a < b <==> Before(CivilFromDays(a), CivilFromDays(b))
    ensures CivilFromDays(a) == CivilFromDays(b) <==> a == b
  {
    CivilFromDaysIsCivil(a);
    CivilFromDaysIsCivil(b);
    CivilOrder(CivilFromDays(a), CivilFromDays(b));
  }
}

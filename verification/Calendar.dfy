/** The conversion of Unix seconds to a Gregorian date and time of day
    (src/state.rs, `civil_from_unix`), checked against a day count that goes
    year by year and month by month. */
module Calendar {

  datatype Civil = Civil(year: int, month: int, day: int, hour: int, minute: int, second: int)

  const SECONDS_PER_DAY := 86_400

  // ----- the reference calendar

  predicate IsLeap(year: int) {
    year % 4 == 0 && (year % 100 != 0 || year % 400 == 0)
  }

  function YearLength(year: int): int {
    if IsLeap(year) then 366 else 365
  }

  function MonthLength(year: int, month: int): int {
    if month == 2 then (if IsLeap(year) then 29 else 28)
    else if month in {4, 6, 9, 11} then 30
    else 31
  }

  /** Days from 1 January 1970 to 1 January of `year`, one year at a time. */
  function DaysToYear(year: int): int
    decreases if year < 1970 then 1970 - year else year - 1970
  {
    if year == 1970 then 0
    else if year > 1970 then DaysToYear(year - 1) + YearLength(year - 1)
    else DaysToYear(year + 1) - YearLength(year)
  }

  /** Days from 1 January to the first of `month`, one month at a time. */
  function DaysToMonth(year: int, month: int): int
    requires 1 <= month <= 12
  {
    if month == 1 then 0 else DaysToMonth(year, month - 1) + MonthLength(year, month - 1)
  }

  predicate Valid(c: Civil) {
    && 1 <= c.month <= 12
    && 1 <= c.day <= MonthLength(c.year, c.month)
    && 0 <= c.hour < 24
    && 0 <= c.minute < 60
    && 0 <= c.second < 60
  }

  function DayNumber(year: int, month: int, day: int): int
    requires 1 <= month <= 12
  {
    DaysToYear(year) + DaysToMonth(year, month) + day - 1
  }

  /** Seconds since the epoch of a valid date, by the reference calendar. */
  function UnixFromCivil(c: Civil): int
    requires Valid(c)
  {
    DayNumber(c.year, c.month, c.day) * SECONDS_PER_DAY + c.hour * 3_600 + c.minute * 60 + c.second
  }

  // ----- the conversion under proof

  /** `doe` is the day of a 400-year era that starts on 1 March. */
  function YearOfEra(doe: int): int {
    (doe - doe / 1_460 + doe / 36_524 - doe / 146_096) / 365
  }

  /** Year, month and day of day `doe` of era `era`. */
  function DateOfEra(era: int, doe: int): (int, int, int) {
    var yoe := YearOfEra(doe);
    var y := yoe + era * 400;
    var doy := doe - (365 * yoe + yoe / 4 - yoe / 100);
    var mp := (5 * doy + 2) / 153;
    var d := doy - (153 * mp + 2) / 5 + 1;
    var m := if mp < 10 then mp + 3 else mp - 9;
    (if m <= 2 then y + 1 else y, m, d)
  }

  function CivilFromUnix(secs: int): Civil {
    var days := secs / SECONDS_PER_DAY;
    var rem := secs % SECONDS_PER_DAY;
    var z := days + 719_468;
    var (year, month, day) := DateOfEra(z / 146_097, z % 146_097);
    Civil(year, month, day, rem / 3_600, rem % 3_600 / 60, rem % 60)
  }

  // ----- closed forms of the reference calendar

  /** Days from 1 March of year 0 to 1 March of year `y`. */
  function MarchDays(y: int): int {
    365 * y + y / 4 - y / 100 + y / 400
  }

  lemma {:induction false} DaysToYearClosed(year: int)
    ensures DaysToYear(year) == MarchDays(year - 1) + 306 - 719_468
    decreases if year < 1970 then 1970 - year else year - 1970
  {
    if year > 1970 {
      DaysToYearClosed(year - 1);
      MarchStep(year - 2);
    } else if year < 1970 {
      DaysToYearClosed(year + 1);
      MarchStep(year - 1);
    }
  }

  lemma MarchStep(y: int)
    ensures MarchDays(y + 1) == MarchDays(y) + YearLength(y + 1)
  {
    var x := y + 1;
    QuotientStep(y, 4);
    QuotientStep(y, 100);
    QuotientStep(y, 400);
    if x % 400 == 0 { MultipleOfMultiple(x, 100, 4); }
    if x % 100 == 0 { MultipleOfMultiple(x, 4, 25); }
  }

  lemma QuotientStep(y: int, n: int)
    requires n > 1
    ensures (y + 1) / n == y / n + (if (y + 1) % n == 0 then 1 else 0)
  {
    var q, r := y / n, y % n;
    assert y == q * n + r;
    if r == n - 1 {
      QuotientIs(y + 1, n, q + 1, 0);
    } else {
      QuotientIs(y + 1, n, q, r + 1);
    }
  }

  lemma QuotientIs(x: int, n: int, q: int, r: int)
    requires n > 0 && x == q * n + r && 0 <= r < n
    ensures x / n == q && x % n == r
  {
    var k := x / n - q;
    assert k * n == r - x % n;
    assert k >= 1 ==> k * n >= n;
    assert k <= -1 ==> k * n <= -n;
  }

  lemma MultipleOfMultiple(x: int, a: int, b: int)
    requires a > 0 && b > 0 && x % (a * b) == 0
    ensures x % a == 0
  {
    var q := x / (a * b);
    assert x == (q * b) * a + 0;
    QuotientIs(x, a, q * b, 0);
  }

  // ----- the year of the era

  /** A day of the era split into century, four-year cycle, year and day of year. */
  ghost predicate Split(doe: int, c: int, q: int, t: int, k: int) {
    && 0 <= c <= 3 && 0 <= q <= 24 && 0 <= t <= 3
    && 0 <= k <= (if t == 3 && (q < 24 || c == 3) then 365 else 364)
    && doe == 36_524 * c + 1_461 * q + 365 * t + k
  }

  lemma SplitExists(doe: int) returns (c: int, q: int, t: int, k: int)
    requires 0 <= doe < 146_097
    ensures Split(doe, c, q, t, k)
  {
    c := if doe == 146_096 then 3 else doe / 36_524;
    var r := doe - 36_524 * c;
    q := r / 1_461;
    var s := r - 1_461 * q;
    t := if s == 1_460 then 3 else s / 365;
    k := s - 365 * t;
  }

  lemma YearOfEraSplit(doe: int, c: int, q: int, t: int, k: int)
    requires Split(doe, c, q, t, k)
    ensures YearOfEra(doe) == 100 * c + 4 * q + t
  {
    var extra := if 24 * c + q + 365 * t + k >= 1_460 then 1 else 0;
    assert doe / 1_460 == 25 * c + q + extra;
    var last := if doe == 146_096 then 1 else 0;
    assert doe / 36_524 == c + last;
    assert doe / 146_096 == last;
  }

  lemma MarchDaysSplit(c: int, q: int, t: int)
    requires 0 <= c <= 3 && 0 <= q <= 24 && 0 <= t <= 3
    ensures MarchDays(100 * c + 4 * q + t) == 36_524 * c + 1_461 * q + 365 * t
  {
    var y := 100 * c + 4 * q + t;
    assert y / 4 == 25 * c + q;
    assert y / 100 == c;
    assert y / 400 == 0;
  }

  lemma YearOfEraBounds(doe: int)
    requires 0 <= doe < 146_097
    ensures 0 <= YearOfEra(doe) < 400
    ensures var y := YearOfEra(doe); 0 <= doe - MarchDays(y) < YearLength(y + 1)
  {
    var c, q, t, k := SplitExists(doe);
    YearOfEraSplit(doe, c, q, t, k);
    MarchDaysSplit(c, q, t);
    LeapAtTheEnd(c, q, t);
  }

  /** The year that ends a four-year cycle is the long one, unless it ends one of the first three
      centuries. */
  lemma LeapAtTheEnd(c: int, q: int, t: int)
    requires 0 <= c <= 3 && 0 <= q <= 24 && 0 <= t <= 3
    ensures YearLength(100 * c + 4 * q + t + 1) == if t == 3 && (q < 24 || c == 3) then 366 else 365
  {
    var y := 100 * c + 4 * q + t + 1;
    assert y == 4 * (25 * c + q) + (t + 1);
    if t == 3 {
      if q == 24 {
        assert y == 100 * (c + 1);
      } else {
        assert y == 100 * c + 4 * (q + 1);
      }
    }
  }

  lemma MarchDaysEra(yoe: int, era: int)
    ensures MarchDays(yoe + 400 * era) == MarchDays(yoe) + 146_097 * era
    ensures YearLength(yoe + 400 * era + 1) == YearLength(yoe + 1)
  {
    var y := yoe + 400 * era;
    assert y / 4 == yoe / 4 + 100 * era;
    assert y / 100 == yoe / 100 + 4 * era;
    assert y / 400 == yoe / 400 + era;
    assert (y + 1) / 4 == (yoe + 1) / 4 + 100 * era;
    assert (y + 1) / 100 == (yoe + 1) / 100 + 4 * era;
    assert (y + 1) / 400 == (yoe + 1) / 400 + era;
  }

  // ----- the month

  /** Days from 1 March to the first of a month, counted in the year that starts in March. */
  lemma MonthTable(year: int, month: int)
    requires 1 <= month <= 12
    ensures month >= 3 ==>
              DaysToMonth(year, month) == YearLength(year) - 306 + (153 * (month - 3) + 2) / 5
    ensures month <= 2 ==> DaysToMonth(year, month) + 306 == (153 * (month + 9) + 2) / 5
  {
    assert DaysToMonth(year, 1) == 0;
    assert DaysToMonth(year, 2) == 31;
    assert DaysToMonth(year, 3) == YearLength(year) - 306;
    assert DaysToMonth(year, 4) == YearLength(year) - 275;
    assert DaysToMonth(year, 5) == YearLength(year) - 245;
    assert DaysToMonth(year, 6) == YearLength(year) - 214;
    assert DaysToMonth(year, 7) == YearLength(year) - 184;
    assert DaysToMonth(year, 8) == YearLength(year) - 153;
    assert DaysToMonth(year, 9) == YearLength(year) - 122;
    assert DaysToMonth(year, 10) == YearLength(year) - 92;
    assert DaysToMonth(year, 11) == YearLength(year) - 61;
    assert DaysToMonth(year, 12) == YearLength(year) - 31;
  }

  /** The month and day computed from the day of a March year. */
  lemma MonthOfYear(doy: int, y: int)
    requires 0 <= doy < YearLength(y + 1)
    ensures var mp := (5 * doy + 2) / 153;
            var d := doy - (153 * mp + 2) / 5 + 1;
            var m := if mp < 10 then mp + 3 else mp - 9;
            var year := if m <= 2 then y + 1 else y;
            && 1 <= m <= 12
            && 1 <= d <= MonthLength(year, m)
  {
    var mp := (5 * doy + 2) / 153;
    assert 0 <= mp <= 11;
  }

  /** A day of a March year, written as a month and a day, has the day number it started from. */
  lemma DayNumberOfMarchDay(y: int, doy: int)
    requires 0 <= doy < YearLength(y + 1)
    ensures var mp := (5 * doy + 2) / 153;
            var d := doy - (153 * mp + 2) / 5 + 1;
            var m := if mp < 10 then mp + 3 else mp - 9;
            var year := if m <= 2 then y + 1 else y;
            && 1 <= m <= 12
            && 1 <= d <= MonthLength(year, m)
            && DayNumber(year, m, d) == MarchDays(y) + doy - 719_468
  {
    MonthOfYear(doy, y);
    var mp := (5 * doy + 2) / 153;
    var m := if mp < 10 then mp + 3 else mp - 9;
    var year := if m <= 2 then y + 1 else y;
    MonthTable(year, m);
    DaysToYearClosed(year);
    MarchStep(y - 1);
  }

  lemma TimeOfDay(rem: int)
    requires 0 <= rem < SECONDS_PER_DAY
    ensures 0 <= rem / 3_600 < 24 && 0 <= rem % 3_600 / 60 < 60 && 0 <= rem % 60 < 60
    ensures rem == rem / 3_600 * 3_600 + rem % 3_600 / 60 * 60 + rem % 60
  {
    assert rem == 3_600 * (rem / 3_600) + 60 * (rem % 3_600 / 60) + rem % 3_600 % 60;
  }

  /** The date of a day of an era is valid and has that day's number. */
  lemma DateOfEraCorrect(era: int, doe: int)
    requires 0 <= doe < 146_097
    ensures var (year, month, day) := DateOfEra(era, doe);
            && 1 <= month <= 12
            && 1 <= day <= MonthLength(year, month)
            && DayNumber(year, month, day) == 146_097 * era + doe - 719_468
  {
    var yoe := YearOfEra(doe);
    YearOfEraBounds(doe);
    MarchDaysEra(yoe, era);
    DayOfYearOfEra(yoe, doe);
    DayNumberOfMarchDay(yoe + era * 400, doe - (365 * yoe + yoe / 4 - yoe / 100));
  }

  lemma DayOfYearOfEra(yoe: int, doe: int)
    requires 0 <= yoe < 400
    ensures doe - MarchDays(yoe) == doe - (365 * yoe + yoe / 4 - yoe / 100)
  {
    assert yoe / 400 == 0;
  }

  // ----- main results

  /** For every input the conversion yields a valid date and time of day, and the
      reference calendar takes that date back to the input. */
  lemma CivilInvertsDayCount(secs: int)
    ensures Valid(CivilFromUnix(secs))
    ensures UnixFromCivil(CivilFromUnix(secs)) == secs
  {
    var days, rem := secs / SECONDS_PER_DAY, secs % SECONDS_PER_DAY;
    var z := days + 719_468;
    DateOfEraCorrect(z / 146_097, z % 146_097);
    TimeOfDay(rem);
    var c := CivilFromUnix(secs);
    assert DayNumber(c.year, c.month, c.day) == days;
  }

  /** Field by field order of two dates. */
  predicate Before(a: Civil, b: Civil) {
    || a.year < b.year
    || (a.year == b.year && a.month < b.month)
    || (a.year == b.year && a.month == b.month && a.day < b.day)
    || (a.year == b.year && a.month == b.month && a.day == b.day && a.hour < b.hour)
    || (a.year == b.year && a.month == b.month && a.day == b.day && a.hour == b.hour
        && a.minute < b.minute)
    || (a.year == b.year && a.month == b.month && a.day == b.day && a.hour == b.hour
        && a.minute == b.minute && a.second < b.second)
  }

  lemma {:induction false} YearsOrdered(a: int, b: int)
    requires a < b
    ensures DaysToYear(a) + YearLength(a) <= DaysToYear(b)
    decreases b - a
  {
    DaysToYearClosed(a);
    DaysToYearClosed(a + 1);
    MarchStep(a - 1);
    if a + 1 < b {
      YearsOrdered(a + 1, b);
    }
  }

  lemma {:induction false} MonthsOrdered(year: int, a: int, b: int)
    requires 1 <= a < b <= 13
    ensures b <= 12 ==> DaysToMonth(year, a) + MonthLength(year, a) <= DaysToMonth(year, b)
    ensures DaysToMonth(year, a) + MonthLength(year, a) <= YearLength(year)
    decreases 13 - a
  {
    if a == 12 {
      MonthTable(year, 12);
    } else if a + 1 < b {
      MonthsOrdered(year, a + 1, b);
    } else {
      MonthsOrdered(year, a + 1, 13);
    }
  }

  lemma {:induction false} MonthsFromZero(year: int, a: int)
    requires 1 <= a <= 12
    ensures DaysToMonth(year, a) >= 0
  {
    if a > 1 { MonthsFromZero(year, a - 1); }
  }

  lemma DayNumberOrdered(a: Civil, b: Civil)
    requires Valid(a) && Valid(b)
    requires || a.year < b.year || (a.year == b.year && a.month < b.month)
             || (a.year == b.year && a.month == b.month && a.day < b.day)
    ensures DayNumber(a.year, a.month, a.day) < DayNumber(b.year, b.month, b.day)
  {
    if a.year < b.year {
      YearsOrdered(a.year, b.year);
      MonthsOrdered(a.year, a.month, 13);
      MonthsFromZero(b.year, b.month);
    } else if a.month < b.month {
      MonthsOrdered(a.year, a.month, b.month);
    }
  }

  /** The reference calendar orders valid dates exactly as their fields do. */
  lemma UnixOrdersDates(a: Civil, b: Civil)
    requires Valid(a) && Valid(b)
    ensures UnixFromCivil(a) < UnixFromCivil(b) <==> Before(a, b)
    ensures UnixFromCivil(a) == UnixFromCivil(b) <==> a == b
  {
    if a.year == b.year && a.month == b.month && a.day == b.day {
      assert DayNumber(a.year, a.month, a.day) == DayNumber(b.year, b.month, b.day);
    } else if || a.year < b.year || (a.year == b.year && a.month < b.month)
              || (a.year == b.year && a.month == b.month && a.day < b.day) {
      DayNumberOrdered(a, b);
    } else {
      DayNumberOrdered(b, a);
    }
  }

  /** Two instants are ordered exactly as their converted dates are. */
  lemma CivilOrder(a: int, b: int)
    ensures a < b <==> Before(CivilFromUnix(a), CivilFromUnix(b))
  {
    CivilInvertsDayCount(a);
    CivilInvertsDayCount(b);
    UnixOrdersDates(CivilFromUnix(a), CivilFromUnix(b));
  }

  /** The conversion is the only inverse: it recovers every valid date. */
  lemma CivilRoundTrip(c: Civil)
    requires Valid(c)
    ensures CivilFromUnix(UnixFromCivil(c)) == c
  {
    CivilInvertsDayCount(UnixFromCivil(c));
    UnixOrdersDates(CivilFromUnix(UnixFromCivil(c)), c);
  }
}

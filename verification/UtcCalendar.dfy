/**
 * The UTC calendar of `Date`, as section 21.4.1 of ECMA-262 defines it: the proleptic
 * Gregorian calendar counted in days from 1 January 1970.
 */
module UtcCalendar {
  import opened Common

  /** The range of a `Date` that is not NaN: a hundred million days either side of 1970. */
  type TimeValue = t: Instant | -8_640_000_000_000_000 <= t <= 8_640_000_000_000_000 witness 0

  datatype Utc = Utc(year: int, month: int, day: int, hour: int, minute: int, second: int, ms: int)
  {
    predicate Valid() {
      && -999_999 <= year <= 999_999 && 1 <= month <= 12 && 1 <= day <= 31
      && 0 <= hour <= 23 && 0 <= minute <= 59 && 0 <= second <= 59 && 0 <= ms <= 999
    }
  }

  predicate Leap(year: int) {
    year % 4 == 0 && (year % 100 != 0 || year % 400 == 0)
  }

  function DaysIn(year: int): int {
    if Leap(year) then 366 else 365
  }

  /** Days from 1 January 1970 to the first of the year. */
  function YearStart(year: int): int
    decreases if year < 1970 then 1970 - year else year - 1970
  {
    if year == 1970 then 0
    else if year > 1970 then YearStart(year - 1) + DaysIn(year - 1)
    else YearStart(year + 1) - DaysIn(year)
  }

  lemma YearLasts(year: int)
    ensures YearStart(year + 1) == YearStart(year) + DaysIn(year)
  {
  }

  /** `DayFromYear` */
  function DayFromYear(year: int): int {
    365 * (year - 1970) + (year - 1969) / 4 - (year - 1901) / 100 + (year - 1601) / 400
  }

  lemma Fourths(year: int)
    ensures (year - 1968) / 4 == (year - 1969) / 4 + (if year % 4 == 0 then 1 else 0)
  {
  }

  lemma Hundredths(year: int)
    ensures (year - 1900) / 100 == (year - 1901) / 100 + (if year % 100 == 0 then 1 else 0)
  {
  }

  lemma FourHundredths(year: int)
    ensures (year - 1600) / 400 == (year - 1601) / 400 + (if year % 400 == 0 then 1 else 0)
  {
  }

  lemma CenturiesAreFourths(year: int)
    ensures year % 400 == 0 ==> year % 100 == 0
    ensures year % 100 == 0 ==> year % 4 == 0
  {
  }

  lemma NextDayFromYear(year: int)
    ensures DayFromYear(year + 1) == DayFromYear(year) + DaysIn(year)
  {
    Fourths(year);
    Hundredths(year);
    FourHundredths(year);
    CenturiesAreFourths(year);
  }

  /** Counting the years up is the closed form of the standard. */
  lemma {:induction false} YearStartIsDayFromYear(year: int)
    ensures YearStart(year) == DayFromYear(year)
    decreases if year < 1970 then 1970 - year else year - 1970
  {
    if year > 1970 {
      YearStartIsDayFromYear(year - 1);
      NextDayFromYear(year - 1);
    } else if year < 1970 {
      YearStartIsDayFromYear(year + 1);
      NextDayFromYear(year);
    }
  }

  lemma {:induction false} YearsAscend(a: int, b: int)
    requires a <= b
    ensures YearStart(a) + 365 * (b - a) <= YearStart(b)
    decreases b - a
  {
    if a < b {
      YearsAscend(a, b - 1);
      YearLasts(b - 1);
    }
  }

  /** The year a day falls in, looked for from a year that starts no later. */
  function YearFrom(day: int, year: int): (y: int)
    requires YearStart(year) <= day
    ensures YearStart(y) <= day < YearStart(y + 1)
    decreases day - YearStart(year)
  {
    YearLasts(year);
    if YearStart(year + 1) <= day then YearFrom(day, year + 1) else year
  }

  function YearOf(day: int): (y: int)
    ensures YearStart(y) <= day < YearStart(y + 1)
  {
    EarlyEnough(day);
    YearFrom(day, if day >= 0 then 1970 else 1969 + day / 365)
  }

  lemma EarlyEnough(day: int)
    ensures day < 0 ==> YearStart(1969 + day / 365) <= day
  {
    if day < 0 {
      YearsAscend(1969 + day / 365, 1970);
    }
  }

  /** Days of the year before the first of the month. */
  function MonthStart(leap: bool, month: int): int
    requires 1 <= month <= 13
  {
    var extra := if leap && month > 2 then 1 else 0;
    extra + [0, 31, 59, 90, 120, 151, 181, 212, 243, 273, 304, 334, 365][month - 1]
  }

  /** Thirty days have September, April, June and November. */
  lemma MonthsLast(leap: bool, month: int)
    requires 1 <= month <= 12
    ensures MonthStart(leap, 1) == 0
    ensures MonthStart(leap, month + 1) - MonthStart(leap, month)
         == if month == 2 then (if leap then 29 else 28) else if month in {4, 6, 9, 11} then 30 else 31
  {
  }

  function MonthFrom(leap: bool, dayOfYear: int, month: int): (m: int)
    requires 1 <= month <= 12 && MonthStart(leap, month) <= dayOfYear < (if leap then 366 else 365)
    ensures 1 <= m <= 12 && MonthStart(leap, m) <= dayOfYear < MonthStart(leap, m + 1)
    decreases 12 - month
  {
    if month < 12 && MonthStart(leap, month + 1) <= dayOfYear then MonthFrom(leap, dayOfYear, month + 1) else month
  }

  /** The fields of a moment given as a day and the milliseconds since its midnight. */
  function FieldsOf(day: int, time: int): Utc {
    var year := YearOf(day);
    YearLasts(year);
    var dayOfYear := day - YearStart(year);
    var month := MonthFrom(Leap(year), dayOfYear, 1);
    Utc(year, month, dayOfYear - MonthStart(Leap(year), month) + 1,
        time / HOUR, time / MINUTE % 60, time / 1000 % 60, time % 1000)
  }

  function UtcOf(t: Instant): Utc {
    FieldsOf(t / DAY, t % DAY)
  }

  function DayNamed(u: Utc): int
    requires 1 <= u.month <= 12
  {
    DayFromYear(u.year) + MonthStart(Leap(u.year), u.month) + u.day - 1
  }

  /** The instant of given calendar fields, `Date.UTC`. */
  function InstantOf(u: Utc): Instant
    requires 1 <= u.month <= 12
  {
    DayNamed(u) * DAY + (u.hour * HOUR + u.minute * MINUTE + u.second * 1000 + u.ms)
  }

  lemma WithoutMilliseconds(u: Utc)
    requires 1 <= u.month <= 12
    ensures InstantOf(u.(ms := 0)) == InstantOf(u) - u.ms
  {
  }

  lemma TimeOfDayReadsBack(time: int)
    requires 0 <= time < DAY
    ensures time == time / HOUR * HOUR + time / MINUTE % 60 * MINUTE + time / 1000 % 60 * 1000 + time % 1000
    ensures 0 <= time / HOUR <= 23
  {
    assert time / MINUTE / 60 == time / HOUR;
    assert time / 1000 / 60 == time / MINUTE;
  }

  lemma FieldsReadBack(day: int, time: int)
    requires 0 <= time < DAY
    ensures DayNamed(FieldsOf(day, time)) == day
    ensures InstantOf(FieldsOf(day, time)) == day * DAY + time
  {
    YearStartIsDayFromYear(YearOf(day));
    TimeOfDayReadsBack(time);
  }

  /** Every instant is the one its calendar fields name. */
  lemma InstantOfInvertsUtcOf(t: Instant)
    ensures InstantOf(UtcOf(t)) == t
  {
    FieldsReadBack(t / DAY, t % DAY);
  }

  lemma SameMilliseconds(t: int, day: int, time: int)
    requires t == 86_400_000 * day + time
    ensures t % 1000 == time % 1000
  {
    assert t == 1000 * (86_400 * day) + time;
  }

  lemma MillisecondsOf(t: Instant)
    ensures UtcOf(t).ms == t % 1000
  {
    SameMilliseconds(t, t / DAY, t % DAY);
  }

  lemma YearReached(day: int, year: int, start: int)
    requires start == DayFromYear(year)
    ensures YearOf(day) >= year <==> day >= start
  {
    var y := YearOf(day);
    YearStartIsDayFromYear(year);
    if y >= year {
      YearsAscend(year, y);
    } else {
      YearsAscend(y + 1, year);
    }
  }

  lemma YearIsInRange(day: int)
    requires -100_000_000 <= day <= 100_000_000
    ensures -999_999 <= YearOf(day) <= 999_999
  {
    YearReached(day, 1_000_000, DayFromYear(1_000_000));
    YearReached(day, -999_999, DayFromYear(-999_999));
  }

  lemma FieldsAreValid(day: int, time: int)
    requires -100_000_000 <= day <= 100_000_000 && 0 <= time < DAY
    ensures FieldsOf(day, time).Valid()
  {
    YearIsInRange(day);
    TimeOfDayReadsBack(time);
  }

  lemma DayIsInRange(t: TimeValue)
    ensures -100_000_000 <= t / DAY <= 100_000_000
  {
  }

  lemma UtcIsValid(t: TimeValue)
    ensures UtcOf(t).Valid()
  {
    DayIsInRange(t);
    FieldsAreValid(t / DAY, t % DAY);
  }

  /** 1 January of the year 0 and of the year 10000. */
  const YEAR_ZERO: Instant := -62_167_219_200_000
  const YEAR_TEN_THOUSAND: Instant := 253_402_300_800_000

  lemma DayReached(t: Instant, day: int)
    ensures t / DAY >= day <==> t >= day * DAY
  {
  }

  lemma YearField(t: Instant)
    ensures UtcOf(t).year == YearOf(t / DAY)
  {
  }

  lemma YearReachedAt(t: Instant, year: int, start: int)
    requires start == DayFromYear(year)
    ensures YearOf(t / DAY) >= year <==> t >= start * DAY
  {
    YearReached(t / DAY, year, start);
    DayReached(t, start);
  }

  lemma FourDigitsExactly(t: Instant)
    ensures 0 <= UtcOf(t).year <= 9999 <==> YEAR_ZERO <= t < YEAR_TEN_THOUSAND
  {
    YearField(t);
    YearReachedAt(t, 0, -719_528);
    YearReachedAt(t, 10_000, 2_932_897);
  }

  /** What a writer of these fields needs to know of them. */
  lemma UtcFacts(t: TimeValue)
    ensures UtcOf(t).Valid() && InstantOf(UtcOf(t)) == t && UtcOf(t).ms == t % 1000
    ensures 0 <= UtcOf(t).year <= 9999 <==> YEAR_ZERO <= t < YEAR_TEN_THOUSAND
  {
    UtcIsValid(t);
    InstantOfInvertsUtcOf(t);
    MillisecondsOf(t);
    FourDigitsExactly(t);
  }
}

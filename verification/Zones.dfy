/** Two zones of the timezone library: UTC, and Berlin around one change of its clocks. */
module Zones {
  import opened Common
  import opened BookingRows
  import opened Slots
  import UtcCalendar

  /** What a clock shows that reads `day` and `m` minutes past midnight. */
  function Naive(day: int, m: int): int {
    day * DAY + Minutes(m)
  }

  /** The date and the minute of day that a clock shows. */
  function DateShown(clock: int): int {
    clock / DAY
  }

  function MinuteShown(clock: int): int {
    clock % DAY / MINUTE
  }

  lemma DayAndRest(day: int, rest: int)
    requires 0 <= rest < DAY
    ensures (day * DAY + rest) / DAY == day && (day * DAY + rest) % DAY == rest
  {
  }

  lemma MinutesAndRest(m: int)
    ensures m * MINUTE / MINUTE == m
  {
  }

  lemma ShownAgain(day: int, m: int)
    requires 0 <= m < 1440
    ensures DateShown(Naive(day, m)) == day && MinuteShown(Naive(day, m)) == m
  {
    DayAndRest(day, m * MINUTE);
    MinutesAndRest(m);
  }

  lemma MinuteIsOfDay(clock: int)
    ensures 0 <= MinuteShown(clock) < 1440
  {
    var rest := clock % DAY;
    assert 0 <= rest < 1440 * MINUTE;
    MinuteBelow(rest);
  }

  lemma MinuteBelow(rest: int)
    requires 0 <= rest < 1440 * MINUTE
    ensures 0 <= rest / MINUTE < 1440
  {
  }

  // ---------------------------------------------------------------------------
  // UTC
  // ---------------------------------------------------------------------------

  function UtcInstant(day: int, m: int): Option<Instant> {
    if 0 <= m < 1440 then Some(Naive(day, m)) else None
  }

  const UTC := Zone(UtcInstant, DateShown, MinuteShown)

  lemma UtcReadsBack()
    ensures UTC.ReadsBack()
  {
    forall day, m | UtcInstant(day, m).Some?
      ensures DateShown(UtcInstant(day, m).value) == day && MinuteShown(UtcInstant(day, m).value) == m
    {
      ShownAgain(day, m);
    }
  }

  lemma UtcMinutesAreOfDay()
    ensures UTC.MinutesAreOfDay()
  {
    forall at ensures 0 <= MinuteShown(at) < 1440 {
      MinuteIsOfDay(at);
    }
  }

  lemma UtcIsLawful()
    ensures UTC.Lawful()
  {
    UtcReadsBack();
    UtcMinutesAreOfDay();
  }

  // ---------------------------------------------------------------------------
  // Berlin
  // ---------------------------------------------------------------------------

  /** Sunday, 29 March 2026, and the moment at which Berlin's clocks go from 02:00 to 03:00 on it. */
  const CHANGE_DAY := 20_541
  const CHANGE: Instant := CHANGE_DAY * DAY + HOUR

  lemma ChangeIsOneOClockUtc()
    ensures UtcCalendar.InstantOf(UtcCalendar.Utc(2026, 3, 29, 1, 0, 0, 0)) == CHANGE
  {
    assert UtcCalendar.DayFromYear(2026) == 20_454 && !UtcCalendar.Leap(2026);
  }

  function BerlinOffset(at: Instant): int {
    if at < CHANGE then HOUR else 2 * HOUR
  }

  function BerlinInstant(day: int, m: int): Option<Instant> {
    if !(0 <= m < 1440) then None
    else if Naive(day, m) - HOUR < CHANGE then Some(Naive(day, m) - HOUR)
    else if Naive(day, m) - 2 * HOUR >= CHANGE then Some(Naive(day, m) - 2 * HOUR)
    else None
  }

  function BerlinDate(at: Instant): int {
    DateShown(at + BerlinOffset(at))
  }

  function BerlinMinutes(at: Instant): int {
    MinuteShown(at + BerlinOffset(at))
  }

  const BERLIN := Zone(BerlinInstant, BerlinDate, BerlinMinutes)

  lemma BerlinReads(day: int, m: int)
    requires BerlinInstant(day, m).Some?
    ensures 0 <= m < 1440
    ensures BerlinDate(BerlinInstant(day, m).value) == day && BerlinMinutes(BerlinInstant(day, m).value) == m
  {
    var at := BerlinInstant(day, m).value;
    assert at + BerlinOffset(at) == Naive(day, m);
    ShownAgain(day, m);
  }

  lemma BerlinReadsBack()
    ensures BERLIN.ReadsBack()
  {
    forall day, m | BerlinInstant(day, m).Some?
      ensures 0 <= m < 1440
      ensures BerlinDate(BerlinInstant(day, m).value) == day && BerlinMinutes(BerlinInstant(day, m).value) == m
    {
      BerlinReads(day, m);
    }
  }

  lemma BerlinIsNearUtc()
    ensures BERLIN.NearUtc()
  {
  }

  lemma BerlinLater(day: int, m: int, n: int)
    requires m < n && BerlinInstant(day, m).Some? && BerlinInstant(day, n).Some?
    ensures BerlinInstant(day, m).value < BerlinInstant(day, n).value
  {
    assert Naive(day, m) < Naive(day, n);
  }

  lemma BerlinAscends()
    ensures BERLIN.Ascends()
  {
    forall day, m, n | m < n && BerlinInstant(day, m).Some? && BerlinInstant(day, n).Some?
      ensures BerlinInstant(day, m).value < BerlinInstant(day, n).value
    {
      BerlinLater(day, m, n);
    }
  }

  lemma BerlinMinutesAreOfDay()
    ensures BERLIN.MinutesAreOfDay()
  {
    forall at ensures 0 <= BerlinMinutes(at) < 1440 {
      MinuteIsOfDay(at + BerlinOffset(at));
    }
  }

  lemma BerlinIsLawful()
    ensures BERLIN.Lawful()
  {
    BerlinReadsBack();
    BerlinIsNearUtc();
    BerlinAscends();
    BerlinMinutesAreOfDay();
  }
}

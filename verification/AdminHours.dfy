/** The day view's "outside opening hours" badge, over the same windows the customer books in. */
module AdminHours {
  import opened Common
  import opened BookingRows
  import opened OpeningWindows
  import opened Slots
  import opened Zones
  import UtcCalendar

  /** Sorted by start with a real gap before each next window. */
  ghost predicate Gapped(ws: seq<Window>) {
    forall i, j :: 0 <= i < j < |ws| ==> ws[i].endMin < ws[j].startMin && ws[i].startMin <= ws[j].startMin
  }

  ghost predicate CoverSame(a: seq<Window>, b: seq<Window>) {
    forall m :: Covers(a, m) <==> Covers(b, m)
  }

  /** Extending the last window over one that starts inside or right after it covers both. */
  lemma ExtendCovers(done: seq<Window>, last: Window, w: Window, m: int)
    requires last.startMin <= w.startMin <= last.endMin
    ensures Covers(done + [Window(last.startMin, Max(last.endMin, w.endMin))], m)
       <==> Covers(done + [last], m) || w.Has(m)
  {
    var wide := Window(last.startMin, Max(last.endMin, w.endMin));
    CoversSplit(done, [wide], m);
    CoversSplit(done, [last], m);
    CoversOne(wide, m);
    CoversOne(last, m);
  }

  lemma CoversOne(w: Window, m: int)
    ensures Covers([w], m) <==> w.Has(m)
  {
    assert w in [w];
  }

  lemma ExtendKeeps(before: seq<Window>, seen: seq<Window>, window: Window)
    requires Gapped(before) && CoverSame(before, seen) && before != []
    requires before[|before| - 1].startMin <= window.startMin <= before[|before| - 1].endMin
    ensures var last := before[|before| - 1];
            var merged := before[|before| - 1 := last.(endMin := Max(last.endMin, window.endMin))];
            && Gapped(merged) && CoverSame(merged, seen + [window])
            && (AllNonEmpty(before) ==> AllNonEmpty(merged))
  {
    var done, last := before[..|before| - 1], before[|before| - 1];
    var wide := Window(last.startMin, Max(last.endMin, window.endMin));
    assert before == done + [last];
    assert before[|before| - 1 := wide] == done + [wide];
    forall m ensures Covers(done + [wide], m) <==> Covers(seen + [window], m) {
      ExtendCovers(done, last, window, m);
      CoversSplit(seen, [window], m);
      CoversOne(window, m);
    }
  }

  lemma AddKeeps(before: seq<Window>, seen: seq<Window>, window: Window)
    requires Gapped(before) && CoverSame(before, seen)
    requires before != [] ==>
      before[|before| - 1].startMin <= window.startMin && before[|before| - 1].endMin < window.startMin
    ensures Gapped(before + [window]) && CoverSame(before + [window], seen + [window])
    ensures AllNonEmpty(before) && window.startMin < window.endMin ==> AllNonEmpty(before + [window])
  {
    forall m ensures Covers(before + [window], m) <==> Covers(seen + [window], m) {
      CoversSplit(before, [window], m);
      CoversSplit(seen, [window], m);
    }
  }

  /** `mergeWindows`, for any windows at all, sorted or not. */
  method MergeWindows(windows: seq<Window>) returns (merged: seq<Window>)
    ensures Gapped(merged)
    ensures CoverSame(merged, windows)
    ensures AllNonEmpty(windows) ==> AllNonEmpty(merged)
  {
    var sorted := Sort(ByStart, windows);
    SortSorts(ByStart, windows);
    if AllNonEmpty(windows) {
      SortKeepsNonEmpty(windows);
    }
    merged := [];
    for i := 0 to |sorted|
      invariant Gapped(merged)
      invariant CoverSame(merged, sorted[..i])
      invariant AllNonEmpty(windows) ==> AllNonEmpty(merged)
      invariant merged != [] ==> forall j :: i <= j < |sorted| ==> merged[|merged| - 1].startMin <= sorted[j].startMin
    {
      var window := sorted[i];
      assert sorted[..i + 1] == sorted[..i] + [window];
      if merged != [] && window.startMin <= merged[|merged| - 1].endMin {
        ExtendKeeps(merged, sorted[..i], window);
        var last := merged[|merged| - 1];
        merged := merged[|merged| - 1 := last.(endMin := Max(last.endMin, window.endMin))];
      } else {
        AddKeeps(merged, sorted[..i], window);
        merged := merged + [window];
      }
    }
    assert sorted[..|sorted|] == sorted;
    forall m ensures Covers(merged, m) <==> Covers(windows, m) {
      SameElementsCover(sorted, windows, m);
    }
  }

  lemma GapIsUncovered(ws: seq<Window>, i: nat)
    requires Gapped(ws) && i < |ws| && ws[i].startMin < ws[i].endMin
    ensures !Covers(ws, ws[i].endMin)
  {
    forall j | 0 <= j < |ws| ensures !ws[j].Has(ws[i].endMin) {
      assert j < i || j == i || i < j;
    }
  }

  /** Among windows with real gaps, an interval whose every minute is covered lies in one of them. */
  lemma CoveredIntervalIsInOneWindow(ws: seq<Window>, startMin: int, endMin: int)
    requires Gapped(ws) && startMin < endMin
    requires forall m :: startMin <= m < endMin ==> Covers(ws, m)
    ensures exists w :: w in ws && w.startMin <= startMin && endMin <= w.endMin
  {
    assert Covers(ws, startMin);
    var i :| 0 <= i < |ws| && ws[i].Has(startMin);
    GapIsUncovered(ws, i);
  }

  /** An interval that ends no later than it starts lies in a merged window exactly when one that was merged holds it. */
  lemma BackwardsIntervalInOneWindow(merged: seq<Window>, windows: seq<Window>, startMin: int, endMin: int)
    requires Gapped(merged) && AllNonEmpty(merged) && AllNonEmpty(windows) && CoverSame(merged, windows)
    requires endMin <= startMin
    ensures InOne(merged, startMin, endMin) <==> InOne(windows, startMin, endMin)
  {
    if InOne(merged, startMin, endMin) {
      var i :| 0 <= i < |merged| && merged[i].startMin <= startMin && endMin <= merged[i].endMin;
      var m := Min(startMin, merged[i].endMin - 1);
      assert merged[i].Has(m) && Covers(merged, m);
      var w :| w in windows && w.Has(m);
      if m < startMin {
        GapIsUncovered(merged, i);
        assert !w.Has(merged[i].endMin);
      }
    }
    if InOne(windows, startMin, endMin) {
      var w :| w in windows && w.startMin <= startMin && endMin <= w.endMin;
      forall m | w.startMin <= m < w.endMin ensures Covers(merged, m) {
        assert w.Has(m);
        assert Covers(windows, m);
      }
      assert w.startMin < w.endMin;
      CoveredIntervalIsInOneWindow(merged, w.startMin, w.endMin);
    }
  }

  ghost predicate InOne(ws: seq<Window>, startMin: int, endMin: int) {
    exists w :: w in ws && w.startMin <= startMin && endMin <= w.endMin
  }

  /** Some minute of the appointment is not open or, when it ends no later than it starts, no window holds it. */
  ghost predicate Outside(ws: seq<Window>, startMin: int, endMin: int) {
    if startMin < endMin then exists m :: startMin <= m < endMin && !Covers(ws, m)
    else !InOne(ws, startMin, endMin)
  }

  method IsOutsideOpeningHours(startMin: int, endMin: int, windows: seq<Window>) returns (outside: bool)
    ensures startMin < endMin || AllNonEmpty(windows) ==> (outside <==> Outside(windows, startMin, endMin))
    ensures startMin < endMin ==> (outside <==> exists m :: startMin <= m < endMin && !Covers(windows, m))
    ensures endMin <= startMin && (forall w :: w in windows ==> w.startMin < w.endMin) ==>
      (outside <==> forall w :: w in windows ==> !(w.startMin <= startMin && endMin <= w.endMin))
  {
    var merged := MergeWindows(windows);
    outside := !exists w :: w in merged && startMin >= w.startMin && endMin <= w.endMin;
    if endMin <= startMin {
      if AllNonEmpty(windows) {
        BackwardsIntervalInOneWindow(merged, windows, startMin, endMin);
      }
    } else if outside {
      if forall m :: startMin <= m < endMin ==> Covers(merged, m) {
        CoveredIntervalIsInOneWindow(merged, startMin, endMin);
      }
    } else {
      var w :| w in merged && startMin >= w.startMin && endMin <= w.endMin;
      forall m | startMin <= m < endMin ensures Covers(windows, m) {
        assert w.Has(m);
        assert Covers(merged, m);
      }
    }
  }

  // ---------------------------------------------------------------------------
  // The check over instants
  // ---------------------------------------------------------------------------

  /** The last minute of the appointment on its own date; an end on another date reads as 1440. */
  function WallEnd(zone: Zone, startsAt: Instant, endsAt: Instant): int {
    if zone.dateKey(endsAt) != zone.dateKey(startsAt) then 1440 else zone.minutesOf(endsAt)
  }

  ghost predicate Flagged(zone: Zone, sched: Schedule, startsAt: Instant, endsAt: Instant) {
    Outside(OpenWindows(zone.dateKey(startsAt), sched), zone.minutesOf(startsAt), WallEnd(zone, startsAt, endsAt))
  }

  /** A minute of the date at which the business is not open: nothing schedules it, or a closure holds it. */
  ghost predicate NotOpen(day: int, sched: Schedule, m: int) {
    !ScheduledAt(day, sched, m) || ClosedAt(day, sched, m)
  }

  lemma NotOpenExactly(day: int, sched: Schedule, m: int)
    ensures Covers(OpenWindows(day, sched), m) <==> !NotOpen(day, sched, m)
  {
    OpenExactly(day, sched, m);
    if w :| w in OpenWindows(day, sched) && w.startMin <= m < w.endMin {
      assert w.Has(m);
    }
  }

  lemma OutsideByRows(day: int, sched: Schedule, startMin: int, endMin: int)
    requires startMin < endMin
    ensures Outside(OpenWindows(day, sched), startMin, endMin)
       <==> exists m :: startMin <= m < endMin && NotOpen(day, sched, m)
  {
    if m :| startMin <= m < endMin && NotOpen(day, sched, m) {
      NotOpenExactly(day, sched, m);
    }
    if m :| startMin <= m < endMin && !Covers(OpenWindows(day, sched), m) {
      NotOpenExactly(day, sched, m);
    }
  }

  /**
   * In terms of the rows: an appointment that ends on a later minute of its own date is
   * flagged if and only if some minute of it is not open, one that ends on another date if
   * and only if some minute from its start to the end of the date is not, and one whose end
   * reads no later than its start if and only if no window of the date holds both.
   */
  lemma FlaggedByRows(zone: Zone, sched: Schedule, startsAt: Instant, endsAt: Instant, day: int, from: int, until: int)
    requires day == zone.dateKey(startsAt) && from == zone.minutesOf(startsAt) && until == zone.minutesOf(endsAt)
    ensures zone.dateKey(endsAt) == day && from < until ==>
      (Flagged(zone, sched, startsAt, endsAt) <==> exists m :: from <= m < until && NotOpen(day, sched, m))
    ensures zone.dateKey(endsAt) != day && from < 1440 ==>
      (Flagged(zone, sched, startsAt, endsAt) <==> exists m :: from <= m < 1440 && NotOpen(day, sched, m))
    ensures zone.dateKey(endsAt) == day && until <= from ==>
      (Flagged(zone, sched, startsAt, endsAt)
       <==> forall w :: w in OpenWindows(day, sched) ==> !(w.startMin <= from && until <= w.endMin))
  {
    if from < WallEnd(zone, startsAt, endsAt) {
      OutsideByRows(day, sched, from, WallEnd(zone, startsAt, endsAt));
    }
  }

  /** The check the day view makes of an appointment, against the same windows the customer books in. */
  method OpeningHoursCheck(zone: Zone, sched: Schedule, startsAt: Instant, endsAt: Instant) returns (flagged: bool)
    ensures flagged <==> Flagged(zone, sched, startsAt, endsAt)
    ensures var (day, from, until) := (zone.dateKey(startsAt), zone.minutesOf(startsAt), zone.minutesOf(endsAt));
      && (zone.dateKey(endsAt) == day && from < until ==>
            (flagged <==> exists m :: from <= m < until && NotOpen(day, sched, m)))
      && (zone.dateKey(endsAt) != day && from < 1440 ==>
            (flagged <==> exists m :: from <= m < 1440 && NotOpen(day, sched, m)))
      && (zone.dateKey(endsAt) == day && until <= from ==>
            (flagged <==> forall w :: w in OpenWindows(day, sched) ==> !(w.startMin <= from && until <= w.endMin)))
  {
    var day := zone.dateKey(startsAt);
    var windows := OpenWindowsForDate(day, sched);
    OpenMinutes(day, sched, 0);
    var startMin := zone.minutesOf(startsAt);
    var rawEnd := zone.minutesOf(endsAt);
    var endsNextDay := zone.dateKey(endsAt) != day;
    var endMin := if endsNextDay then 1440 else rawEnd;
    flagged := IsOutsideOpeningHours(startMin, endMin, windows);
    FlaggedByRows(zone, sched, startsAt, endsAt, day, startMin, rawEnd);
  }

  /**
   * Exactly when a start that the booking page offers is flagged once booked: the wall clock
   * moves further than the service is long, into a minute that is not open.
   */
  lemma OfferedSlotFlaggedExactly(x: Inputs, day: int, start: Instant)
    requires x.Valid() && x.policy.zone.Lawful() && start in Answer(x, day).slots
    ensures var (zone, end) := (x.policy.zone, start + x.service.durationMin * 60_000);
            var until := if zone.dateKey(end) != day then 1440 else zone.minutesOf(end);
            && zone.dateKey(start) == day
            && (Flagged(zone, x.sched, start, end) <==>
                  exists m :: zone.minutesOf(start) + x.service.durationMin <= m < until && NotOpen(day, x.sched, m))
  {
    var zone, end := x.policy.zone, start + Minutes(x.service.durationMin);
    SlotsAnywhere(x, day);
    assert OnGrid(x, day, start);
    var w :| w in OpenWindows(day, x.sched) && OnGridOf(x, day, w, start);
    var n: nat :| Grid(x, w.startMin, n) + x.service.durationMin <= w.endMin
                  && zone.toInstant(day, Grid(x, w.startMin, n)) == Some(start);
    GridShifts(x, w.startMin, n);
    assert zone.dateKey(start) == day && zone.minutesOf(start) == Grid(x, w.startMin, n);
    FitsExactly(day, x.sched, w, Grid(x, w.startMin, n), x.service.durationMin, WallEnd(zone, start, end));
  }

  lemma FitsExactly(day: int, sched: Schedule, w: Window, startMin: int, duration: int, endMin: int)
    requires w in OpenWindows(day, sched) && w.startMin <= startMin && startMin + duration <= w.endMin && duration > 0
    ensures Outside(OpenWindows(day, sched), startMin, endMin)
       <==> exists m :: startMin + duration <= m < endMin && NotOpen(day, sched, m)
  {
    var ws := OpenWindows(day, sched);
    forall m | startMin <= m < startMin + duration ensures Covers(ws, m) && !NotOpen(day, sched, m) {
      assert w.Has(m);
      NotOpenExactly(day, sched, m);
    }
    if startMin < endMin {
      OutsideByRows(day, sched, startMin, endMin);
    } else {
      assert InOne(ws, startMin, endMin);
    }
  }

  /** The local clock as one number of minutes. */
  function WallClock(zone: Zone, at: Instant): int {
    zone.dateKey(at) * 1440 + zone.minutesOf(at)
  }

  /** No offered start is flagged unless the clocks go forward during the appointment. */
  lemma OfferedSlotNotFlagged(x: Inputs, day: int, start: Instant)
    requires x.Valid() && x.policy.zone.Lawful() && start in Answer(x, day).slots
    requires var zone, end := x.policy.zone, start + Minutes(x.service.durationMin);
             zone.dateKey(start) <= zone.dateKey(end)
             && WallClock(zone, end) <= WallClock(zone, start) + x.service.durationMin
    ensures !Flagged(x.policy.zone, x.sched, start, start + Minutes(x.service.durationMin))
  {
    OfferedSlotFlaggedExactly(x, day, start);
    SlotsAnywhere(x, day);
    assert OnGrid(x, day, start);
  }

  // ---------------------------------------------------------------------------
  // The exception
  // ---------------------------------------------------------------------------

  /** Open 01:00 to 02:30 on Sundays. */
  const EARLY_SUNDAY := Schedule([WorkingHour(0, 60, 150)], [], [])

  const CHANGE_NIGHT := Inputs(CHANGE_DAY, CHANGE_DAY, CHANGE - DAY, Policy(BERLIN, 30, 0, 60),
                               ServiceShape(60, 0, 0), EARLY_SUNDAY, [])

  lemma EarlySundayWindow()
    ensures OpenWindows(CHANGE_DAY, EARLY_SUNDAY) == [Window(60, 150)]
  {
    var w := Window(60, 150);
    assert Template(CHANGE_DAY, EARLY_SUNDAY) == [w];
    assert Sort(ByStart, [w]) == [w] && NonEmpty([w]) == [w];
  }

  lemma HalfPastOne()
    ensures BerlinInstant(CHANGE_DAY, 90) == Some(CHANGE - 30 * MINUTE)
    ensures BERLIN.dateKey(CHANGE - 30 * MINUTE) == CHANGE_DAY && BERLIN.minutesOf(CHANGE - 30 * MINUTE) == 90
  {
    BerlinReads(CHANGE_DAY, 90);
  }

  lemma HalfPastThree()
    ensures BERLIN.dateKey(CHANGE + 30 * MINUTE) == CHANGE_DAY && BERLIN.minutesOf(CHANGE + 30 * MINUTE) == 210
  {
    assert BerlinInstant(CHANGE_DAY, 210) == Some(CHANGE + 30 * MINUTE);
    BerlinReads(CHANGE_DAY, 210);
  }

  lemma TheDayBefore()
    ensures BERLIN.dateKey(CHANGE - DAY) == CHANGE_DAY - 1
  {
    assert BerlinInstant(CHANGE_DAY - 1, 120) == Some(CHANGE - DAY);
    BerlinReads(CHANGE_DAY - 1, 120);
  }

  lemma HalfPastOneOffered()
    ensures CHANGE - 30 * MINUTE in Answer(CHANGE_NIGHT, CHANGE_DAY).slots
  {
    var x, start := CHANGE_NIGHT, CHANGE - 30 * MINUTE;
    EarlySundayWindow();
    HalfPastOne();
    TheDayBefore();
    assert OpenWindows(CHANGE_DAY, x.sched)[0] == Window(60, 150);
    assert Grid(x, 60, 1) == 90;
    assert OnGridOf(x, CHANGE_DAY, Window(60, 150), start);
    assert OnGrid(x, CHANGE_DAY, start) && Bookable(x, start);
    SlotsAnywhere(x, CHANGE_DAY);
  }

  /** An hour from 01:30 in Berlin on 29 March 2026 is offered, ends at 03:30 on the wall clock, and is flagged. */
  lemma FlaggedOnChangeNight() returns (start: Instant)
    ensures CHANGE_NIGHT.Valid() && BERLIN.Lawful()
    ensures CHANGE == UtcCalendar.InstantOf(UtcCalendar.Utc(2026, 3, 29, 1, 0, 0, 0)) && WeekdayOf(CHANGE_DAY) == 0
    ensures start == CHANGE - 30 * MINUTE && start in Answer(CHANGE_NIGHT, CHANGE_DAY).slots
    ensures BERLIN.minutesOf(start) == 90 && WallEnd(BERLIN, start, start + HOUR) == 210
    ensures Flagged(BERLIN, EARLY_SUNDAY, start, start + HOUR)
  {
    start := CHANGE - 30 * MINUTE;
    ChangeIsOneOClockUtc();
    BerlinIsLawful();
    HalfPastOneOffered();
    HalfPastOne();
    HalfPastThree();
    EarlySundayWindow();
    assert !Covers([Window(60, 150)], 180);
  }
}

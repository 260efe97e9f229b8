/**
 * The slot engine: walks each open window on the business's grid and says, day by day,
 * which starts can be booked and why a day has none.
 */
module Slots {
  import opened Common
  import opened BookingRows
  import opened OpeningWindows

  /**
   * The timezone library. `toInstant` is undefined for a wall-clock time that does not
   * exist: the hour a spring-forward erases, or a minute outside 0..1439. `dateKey` and
   * `minutesOf` read the local date and time of day back from an instant.
   */
  datatype Zone = Zone(toInstant: (int, int) -> Option<Instant>, dateKey: Instant -> int, minutesOf: Instant -> int)
  {
    function LocalMidnightUtc(day: int): Instant {
      day * 86_400_000
    }

    /** The two readings of a local time's instant give that time back. */
    ghost predicate ReadsBack() {
      forall day, m :: toInstant(day, m).Some? ==>
        0 <= m < 1440 && dateKey(toInstant(day, m).value) == day && minutesOf(toInstant(day, m).value) == m
    }

    /** Offsets between -12 and +14 hours. */
    ghost predicate NearUtc() {
      forall day, m :: toInstant(day, m).Some? ==>
        && LocalMidnightUtc(day) + Minutes(m) - Minutes(14 * 60) <= toInstant(day, m).value
        && toInstant(day, m).value <= LocalMidnightUtc(day) + Minutes(m) + Minutes(12 * 60)
    }

    /** A later wall-clock time of a day comes later. */
    ghost predicate Ascends() {
      forall day, m, n :: m < n && toInstant(day, m).Some? && toInstant(day, n).Some? ==>
        toInstant(day, m).value < toInstant(day, n).value
    }

    ghost predicate MinutesAreOfDay() {
      forall at :: 0 <= minutesOf(at) < 1440
    }

    ghost predicate Lawful() {
      ReadsBack() && NearUtc() && Ascends() && MinutesAreOfDay()
    }
  }

  datatype Busy = Busy(from: Instant, until: Instant)

  datatype Policy = Policy(zone: Zone, slotGranularityMin: int, minNoticeMin: int, maxAdvanceDays: int)

  datatype ServiceShape = ServiceShape(durationMin: int, bufferBeforeMin: int, bufferAfterMin: int)
  {
    function From(start: Instant): Instant {
      start - Minutes(bufferBeforeMin)
    }

    function Until(start: Instant): Instant {
      start + Minutes(durationMin) + Minutes(bufferAfterMin)
    }
  }

  datatype Inputs = Inputs(from: int, to: int, now: Instant, policy: Policy, service: ServiceShape,
                           sched: Schedule, busy: seq<Busy>)
  {
    function EarliestStart(): Instant {
      now + Minutes(policy.minNoticeMin)
    }

    function LastBookableDay(): int {
      policy.zone.dateKey(now) + policy.maxAdvanceDays
    }

    predicate Valid() {
      policy.slotGranularityMin > 0 && service.durationMin > 0
    }
  }

  datatype DayState = Open | Full | Closed | TooSoon | BeyondHorizon

  datatype DayAvailability = DayAvailability(date: int, state: DayState, slots: seq<Instant>)

  datatype InputError = GranularityNotPositive | DurationNotPositive

  predicate Overlaps(aFrom: Instant, aUntil: Instant, bFrom: Instant, bUntil: Instant) {
    aFrom < bUntil && aUntil > bFrom
  }

  predicate Clashes(busy: seq<Busy>, from: Instant, until: Instant) {
    exists b :: b in busy && Overlaps(from, until, b.from, b.until)
  }

  // ---------------------------------------------------------------------------
  // What a day's answer means
  // ---------------------------------------------------------------------------

  /** An existing time on the grid of this window, at which the whole appointment fits. */
  ghost predicate OnGridOf(x: Inputs, day: int, w: Window, start: Instant) {
    exists n: nat ::
      && Grid(x, w.startMin, n) + x.service.durationMin <= w.endMin
      && x.policy.zone.toInstant(day, Grid(x, w.startMin, n)) == Some(start)
  }

  /** The `n`th grid minute from `m`. */
  function Grid(x: Inputs, m: int, n: nat): int {
    m + n * x.policy.slotGranularityMin
  }

  ghost predicate OnGrid(x: Inputs, day: int, start: Instant) {
    exists w :: w in OpenWindows(day, x.sched) && OnGridOf(x, day, w, start)
  }

  predicate IsFree(x: Inputs, start: Instant) {
    !Clashes(x.busy, x.service.From(start), x.service.Until(start))
  }

  predicate Bookable(x: Inputs, start: Instant) {
    x.EarliestStart() <= start && IsFree(x, start)
  }

  /** Some time of the day was held back only because it is too soon. */
  ghost predicate HasTooSoon(x: Inputs, day: int) {
    exists start :: OnGrid(x, day, start) && start < x.EarliestStart()
  }

  ghost predicate HasBookable(x: Inputs, day: int) {
    exists start :: OnGrid(x, day, start) && Bookable(x, start)
  }

  ghost predicate Ascending(s: seq<Instant>) {
    forall i, j :: 0 <= i < j < |s| ==> s[i] < s[j]
  }

  /** The walk of this window meets this minute, which exists, and the appointment fits. */
  ghost predicate FitsAt(x: Inputs, day: int, w: Window, m: int) {
    && (exists n: nat :: m == Grid(x, w.startMin, n))
    && m + x.service.durationMin <= w.endMin && x.policy.zone.toInstant(day, m).Some?
  }

  ghost predicate OffersAt(x: Inputs, day: int, w: Window, m: int) {
    FitsAt(x, day, w, m) && Bookable(x, x.policy.zone.toInstant(day, m).value)
  }

  /** What one window offers all comes before what a later one offers. */
  ghost predicate OffersInTurn(x: Inputs, day: int, ws: seq<Window>) {
    forall i, j, m, n :: 0 <= i < j < |ws| && OffersAt(x, day, ws[i], m) && OffersAt(x, day, ws[j], n) ==> m < n
  }

  /** The same of every fitting minute, bookable or not. */
  ghost predicate FitsInTurn(x: Inputs, day: int, ws: seq<Window>) {
    forall i, j, m, n :: 0 <= i < j < |ws| && FitsAt(x, day, ws[i], m) && FitsAt(x, day, ws[j], n) ==> m < n
  }

  ghost predicate Answers(x: Inputs, day: int, a: DayAvailability) {
    && a.date == day
    && (if day > x.LastBookableDay() then a.state == BeyondHorizon && a.slots == []
        else if OpenWindows(day, x.sched) == [] then a.state == Closed && a.slots == []
        else
          && (forall start :: start in a.slots <==> OnGrid(x, day, start) && Bookable(x, start))
          && a.state == (if HasBookable(x, day) then Open
                         else if HasTooSoon(x, day) then TooSoon
                         else Full))
    && (Ascending(a.slots) <==> day > x.LastBookableDay() || OffersInTurn(x, day, OpenWindows(day, x.sched)))
  }

  // ---------------------------------------------------------------------------
  // The answer as a function, and the loops that compute it
  // ---------------------------------------------------------------------------

  /** What one grid time contributes; a time the clocks skip contributes nothing. */
  function SlotAt(x: Inputs, at: Option<Instant>): seq<Instant> {
    if at.Some? && Bookable(x, at.value) then [at.value] else []
  }

  predicate SoonAt(x: Inputs, at: Option<Instant>) {
    at.Some? && at.value < x.EarliestStart()
  }

  function WindowSlots(x: Inputs, day: int, startMin: int, endMin: int): seq<Instant>
    requires x.Valid()
    decreases endMin - startMin
  {
    if startMin + x.service.durationMin > endMin then []
    else SlotAt(x, x.policy.zone.toInstant(day, startMin))
         + WindowSlots(x, day, startMin + x.policy.slotGranularityMin, endMin)
  }

  predicate WindowSoon(x: Inputs, day: int, startMin: int, endMin: int)
    requires x.Valid()
    decreases endMin - startMin
  {
    startMin + x.service.durationMin <= endMin
    && (SoonAt(x, x.policy.zone.toInstant(day, startMin))
        || WindowSoon(x, day, startMin + x.policy.slotGranularityMin, endMin))
  }

  function DaySlots(x: Inputs, day: int, windows: seq<Window>): seq<Instant>
    requires x.Valid()
  {
    if windows == [] then []
    else WindowSlots(x, day, windows[0].startMin, windows[0].endMin) + DaySlots(x, day, windows[1..])
  }

  predicate DaySoon(x: Inputs, day: int, windows: seq<Window>)
    requires x.Valid()
  {
    windows != [] && (WindowSoon(x, day, windows[0].startMin, windows[0].endMin) || DaySoon(x, day, windows[1..]))
  }

  function Answer(x: Inputs, day: int): DayAvailability
    requires x.Valid()
  {
    if day > x.LastBookableDay() then DayAvailability(day, BeyondHorizon, [])
    else WithinHorizon(x, day, OpenWindows(day, x.sched))
  }

  function WithinHorizon(x: Inputs, day: int, windows: seq<Window>): DayAvailability
    requires x.Valid()
  {
    if windows == [] then DayAvailability(day, Closed, [])
    else
      var slots := DaySlots(x, day, windows);
      DayAvailability(day, if slots != [] then Open else if DaySoon(x, day, windows) then TooSoon else Full, slots)
  }

  lemma {:induction false} DayAppends(x: Inputs, day: int, a: seq<Window>, w: Window)
    requires x.Valid()
    ensures DaySlots(x, day, a + [w]) == DaySlots(x, day, a) + WindowSlots(x, day, w.startMin, w.endMin)
    ensures DaySoon(x, day, a + [w]) <==> DaySoon(x, day, a) || WindowSoon(x, day, w.startMin, w.endMin)
  {
    if a == [] {
      assert [] + [w] == [w] && [w][1..] == [];
      assert DaySlots(x, day, [w]) == WindowSlots(x, day, w.startMin, w.endMin) + DaySlots(x, day, [w][1..]);
    } else {
      assert (a + [w])[0] == a[0] && (a + [w])[1..] == a[1..] + [w];
      DayAppends(x, day, a[1..], w);
    }
  }

  method WalkWindow(x: Inputs, day: int, w: Window) returns (slots: seq<Instant>, withheld: bool)
    requires x.Valid()
    ensures slots == WindowSlots(x, day, w.startMin, w.endMin)
    ensures withheld <==> WindowSoon(x, day, w.startMin, w.endMin)
  {
    slots, withheld := [], false;
    var startMin := w.startMin;
    while startMin + x.service.durationMin <= w.endMin
      invariant slots + WindowSlots(x, day, startMin, w.endMin) == WindowSlots(x, day, w.startMin, w.endMin)
      invariant (withheld || WindowSoon(x, day, startMin, w.endMin)) <==> WindowSoon(x, day, w.startMin, w.endMin)
      decreases w.endMin - startMin
    {
      var at := x.policy.zone.toInstant(day, startMin);
      ghost var rest := WindowSlots(x, day, startMin + x.policy.slotGranularityMin, w.endMin);
      assert slots + (SlotAt(x, at) + rest) == (slots + SlotAt(x, at)) + rest;
      assert slots + [] == slots;
      startMin := startMin + x.policy.slotGranularityMin;
      if at.None? {
        continue;
      }
      var start := at.value;
      if start < x.EarliestStart() {
        withheld := true;
        continue;
      }
      if Clashes(x.busy, x.service.From(start), x.service.Until(start)) {
        continue;
      }
      slots := slots + [start];
    }
  }

  lemma EveryDayInTime(x: Inputs, days: seq<DayAvailability>)
    requires x.Valid() && |days| == Max(0, x.to - x.from + 1)
    requires forall day :: x.from <= day <= x.to ==> days[day - x.from] == Answer(x, day)
    ensures forall i, start :: 0 <= i < |days| && start in days[i].slots ==>
              start >= x.now + x.policy.minNoticeMin * 60_000
              && x.from + i <= x.policy.zone.dateKey(x.now) + x.policy.maxAdvanceDays
  {
    forall i, start | 0 <= i < |days| && start in days[i].slots
      ensures start >= x.now + x.policy.minNoticeMin * 60_000
              && x.from + i <= x.policy.zone.dateKey(x.now) + x.policy.maxAdvanceDays
    {
      assert days[i] == Answer(x, x.from + i);
      OfferedInTime(x, x.from + i, start);
    }
  }

  /** `generateAvailability`: one answer per day from `from` to `to`, none for an inverted range. */
  method GenerateAvailability(x: Inputs) returns (r: Result<seq<DayAvailability>, InputError>)
    ensures x.policy.slotGranularityMin <= 0 ==> r == Err(GranularityNotPositive)
    ensures x.policy.slotGranularityMin > 0 && x.service.durationMin <= 0 ==> r == Err(DurationNotPositive)
    ensures x.Valid() ==>
      && r.Ok? && |r.value| == Max(0, x.to - x.from + 1)
      && (forall day :: x.from <= day <= x.to ==> r.value[day - x.from] == Answer(x, day))
      && (forall i, start :: 0 <= i < |r.value| && start in r.value[i].slots ==>
            start >= x.now + x.policy.minNoticeMin * 60_000
            && x.from + i <= x.policy.zone.dateKey(x.now) + x.policy.maxAdvanceDays)
  {
    if x.policy.slotGranularityMin <= 0 {
      return Err(GranularityNotPositive);
    }
    if x.service.durationMin <= 0 {
      return Err(DurationNotPositive);
    }
    var days: seq<DayAvailability> := [];
    var day := x.from;
    while day <= x.to
      invariant x.from <= day <= Max(x.from, x.to + 1) && |days| == day - x.from
      invariant forall d :: x.from <= d < day ==> days[d - x.from] == Answer(x, d)
      decreases x.to - day
    {
      var a := DayFor(x, day);
      days := days + [a];
      day := day + 1;
    }
    r := Ok(days);
    EveryDayInTime(x, days);
  }

  method WalkDay(x: Inputs, day: int, windows: seq<Window>) returns (slots: seq<Instant>, withheldForNotice: bool)
    requires x.Valid()
    ensures slots == DaySlots(x, day, windows)
    ensures withheldForNotice <==> DaySoon(x, day, windows)
  {
    slots, withheldForNotice := [], false;
    for i := 0 to |windows|
      invariant slots == DaySlots(x, day, windows[..i])
      invariant withheldForNotice <==> DaySoon(x, day, windows[..i])
    {
      var found, soon := WalkWindow(x, day, windows[i]);
      DayAppends(x, day, windows[..i], windows[i]);
      assert windows[..i + 1] == windows[..i] + [windows[i]];
      slots, withheldForNotice := slots + found, withheldForNotice || soon;
    }
    assert windows[..|windows|] == windows;
  }

  method DayFor(x: Inputs, day: int) returns (a: DayAvailability)
    requires x.Valid()
    ensures a == Answer(x, day)
  {
    if day > x.LastBookableDay() {
      return DayAvailability(day, BeyondHorizon, []);
    }
    var windows := OpenWindowsForDate(day, x.sched);
    if |windows| == 0 {
      return DayAvailability(day, Closed, []);
    }
    var slots, withheldForNotice := WalkDay(x, day, windows);
    if |slots| > 0 {
      return DayAvailability(day, Open, slots);
    }
    return DayAvailability(day, if withheldForNotice then TooSoon else Full, []);
  }

  // ---------------------------------------------------------------------------
  // The answer means what it should
  // ---------------------------------------------------------------------------

  lemma GridShifts(x: Inputs, m: int, n: nat)
    requires x.Valid()
    ensures Grid(x, m, 0) == m
    ensures Grid(x, m + x.policy.slotGranularityMin, n) == Grid(x, m, n + 1)
    ensures m <= Grid(x, m, n)
  {
    assert (n + 1) * x.policy.slotGranularityMin == n * x.policy.slotGranularityMin + x.policy.slotGranularityMin;
  }

  /** Nothing on the grid from `m` fits, the first time does, or a later one does. */
  lemma OnGridStep(x: Inputs, day: int, m: int, endMin: int, start: Instant)
    requires x.Valid()
    ensures var g := x.policy.slotGranularityMin;
            OnGridOf(x, day, Window(m, endMin), start) <==>
              m + x.service.durationMin <= endMin
              && (x.policy.zone.toInstant(day, m) == Some(start) || OnGridOf(x, day, Window(m + g, endMin), start))
  {
    var g := x.policy.slotGranularityMin;
    var here, later := Window(m, endMin), Window(m + g, endMin);
    if OnGridOf(x, day, here, start) {
      var n: nat :| Grid(x, m, n) + x.service.durationMin <= endMin
                    && x.policy.zone.toInstant(day, Grid(x, m, n)) == Some(start);
      GridShifts(x, m, n);
      if n > 0 {
        GridShifts(x, m, n - 1);
        assert OnGridOf(x, day, later, start);
      }
    }
    if OnGridOf(x, day, later, start) {
      var n: nat :| Grid(x, m + g, n) + x.service.durationMin <= endMin
                    && x.policy.zone.toInstant(day, Grid(x, m + g, n)) == Some(start);
      GridShifts(x, m, n);
      GridShifts(x, m, n + 1);
      assert Grid(x, m, n + 1) + x.service.durationMin <= endMin;
    }
    GridShifts(x, m, 0);
    assert Grid(x, here.startMin, 0) == m;
  }

  lemma {:induction false} WindowMembers(x: Inputs, day: int, startMin: int, endMin: int, start: Instant)
    requires x.Valid()
    ensures start in WindowSlots(x, day, startMin, endMin)
       <==> OnGridOf(x, day, Window(startMin, endMin), start) && Bookable(x, start)
    decreases endMin - startMin
  {
    OnGridStep(x, day, startMin, endMin, start);
    if startMin + x.service.durationMin <= endMin {
      WindowMembers(x, day, startMin + x.policy.slotGranularityMin, endMin, start);
    }
  }

  ghost predicate SoonOnGridOf(x: Inputs, day: int, w: Window) {
    exists start :: OnGridOf(x, day, w, start) && start < x.EarliestStart()
  }

  lemma {:induction false} WindowSoonMeans(x: Inputs, day: int, startMin: int, endMin: int)
    requires x.Valid()
    ensures WindowSoon(x, day, startMin, endMin) <==> SoonOnGridOf(x, day, Window(startMin, endMin))
    decreases endMin - startMin
  {
    var next := startMin + x.policy.slotGranularityMin;
    forall start
      ensures OnGridOf(x, day, Window(startMin, endMin), start) <==>
              startMin + x.service.durationMin <= endMin
              && (x.policy.zone.toInstant(day, startMin) == Some(start) || OnGridOf(x, day, Window(next, endMin), start))
    {
      OnGridStep(x, day, startMin, endMin, start);
    }
    if startMin + x.service.durationMin <= endMin {
      WindowSoonMeans(x, day, next, endMin);
      var at := x.policy.zone.toInstant(day, startMin);
      if at.Some? {
        assert OnGridOf(x, day, Window(startMin, endMin), at.value);
      }
    }
  }

  ghost predicate OnGridOfAny(x: Inputs, day: int, windows: seq<Window>, start: Instant) {
    exists w :: w in windows && OnGridOf(x, day, w, start)
  }

  lemma {:induction false} DayMembers(x: Inputs, day: int, windows: seq<Window>, start: Instant)
    requires x.Valid()
    ensures start in DaySlots(x, day, windows) <==> OnGridOfAny(x, day, windows, start) && Bookable(x, start)
  {
    if windows != [] {
      WindowMembers(x, day, windows[0].startMin, windows[0].endMin, start);
      DayMembers(x, day, windows[1..], start);
      assert windows[0] == Window(windows[0].startMin, windows[0].endMin);
      assert forall w :: w in windows <==> w == windows[0] || w in windows[1..];
    }
  }

  lemma {:induction false} DaySoonMeans(x: Inputs, day: int, windows: seq<Window>)
    requires x.Valid()
    ensures DaySoon(x, day, windows) <==> exists w :: w in windows && SoonOnGridOf(x, day, w)
  {
    if windows != [] {
      WindowSoonMeans(x, day, windows[0].startMin, windows[0].endMin);
      DaySoonMeans(x, day, windows[1..]);
      assert windows[0] == Window(windows[0].startMin, windows[0].endMin);
      assert forall w :: w in windows <==> w == windows[0] || w in windows[1..];
    }
  }

  // ---------------------------------------------------------------------------
  // The answer, from the inputs alone
  // ---------------------------------------------------------------------------

  /** An existing minute on the grid of an open window at which the appointment fits. */
  ghost predicate OnOffer(x: Inputs, day: int, start: Instant) {
    exists w, n: nat ::
      && w in OpenWindows(day, x.sched)
      && x.policy.zone.toInstant(day, Grid(x, w.startMin, n)) == Some(start)
      && Grid(x, w.startMin, n) + x.service.durationMin <= w.endMin
  }

  /** A start that the inputs allow: within the horizon, on offer, with notice, and clear of every booking. */
  ghost predicate MayStart(x: Inputs, day: int, start: Instant) {
    && day <= x.policy.zone.dateKey(x.now) + x.policy.maxAdvanceDays
    && OnOffer(x, day, start)
    && start >= x.now + x.policy.minNoticeMin * 60_000
    && forall b :: b in x.busy ==>
         b.until <= start - x.service.bufferBeforeMin * 60_000
         || start + (x.service.durationMin + x.service.bufferAfterMin) * 60_000 <= b.from
  }

  lemma OnOfferIsOnGrid(x: Inputs, day: int, start: Instant)
    ensures OnOffer(x, day, start) <==> OnGrid(x, day, start)
  {
    if OnOffer(x, day, start) {
      var w, n: nat :| w in OpenWindows(day, x.sched)
                       && x.policy.zone.toInstant(day, Grid(x, w.startMin, n)) == Some(start)
                       && Grid(x, w.startMin, n) + x.service.durationMin <= w.endMin;
      assert OnGridOf(x, day, w, start);
    }
  }

  lemma MayStartExactly(x: Inputs, day: int, start: Instant)
    ensures MayStart(x, day, start)
       <==> day <= x.LastBookableDay() && OnGrid(x, day, start) && Bookable(x, start)
  {
    OnOfferIsOnGrid(x, day, start);
  }

  /**
   * What a day's answer says, with the notice and the horizon spelled out: exactly the starts
   * the inputs allow, and why there are none when there are none.
   */
  lemma AnswerExactly(x: Inputs, day: int)
    requires x.Valid()
    ensures var a, horizon := Answer(x, day), x.policy.zone.dateKey(x.now) + x.policy.maxAdvanceDays;
      && a.date == day
      && (forall start :: start in a.slots <==> MayStart(x, day, start))
      && (a.state == BeyondHorizon <==> day > horizon)
      && (a.state == Closed <==> day <= horizon && OpenWindows(day, x.sched) == [])
      && (a.state == Open <==> exists start :: MayStart(x, day, start))
      && (a.state == TooSoon <==>
            day <= horizon && (forall start :: !MayStart(x, day, start))
            && exists start :: OnOffer(x, day, start) && start < x.now + x.policy.minNoticeMin * 60_000)
  {
    SlotsAnywhere(x, day);
    SoonAnywhere(x, day);
    forall start
      ensures MayStart(x, day, start) <==> day <= x.LastBookableDay() && OnGrid(x, day, start) && Bookable(x, start)
      ensures OnOffer(x, day, start) <==> OnGrid(x, day, start)
    {
      MayStartExactly(x, day, start);
      OnOfferIsOnGrid(x, day, start);
    }
  }

  /** Nothing is offered within the notice or beyond the horizon. */
  lemma OfferedInTime(x: Inputs, day: int, start: Instant)
    requires x.Valid() && start in Answer(x, day).slots
    ensures start >= x.now + x.policy.minNoticeMin * 60_000
    ensures day <= x.policy.zone.dateKey(x.now) + x.policy.maxAdvanceDays
  {
    AnswerExactly(x, day);
    assert MayStart(x, day, start);
  }

  // ---------------------------------------------------------------------------
  // Order
  // ---------------------------------------------------------------------------

  /** Two minutes of one day and their instants are in the same order. */
  lemma SameOrder(x: Inputs, day: int, m: int, n: int)
    requires x.policy.zone.Lawful()
    requires x.policy.zone.toInstant(day, m).Some? && x.policy.zone.toInstant(day, n).Some?
    ensures m < n <==> x.policy.zone.toInstant(day, m).value < x.policy.zone.toInstant(day, n).value
  {
  }

  lemma OffersMembers(x: Inputs, day: int, w: Window, start: Instant)
    requires x.Valid()
    ensures start in WindowSlots(x, day, w.startMin, w.endMin)
       <==> exists m :: OffersAt(x, day, w, m) && x.policy.zone.toInstant(day, m) == Some(start)
  {
    WindowMembers(x, day, w.startMin, w.endMin, start);
    assert w == Window(w.startMin, w.endMin);
    if OnGridOf(x, day, w, start) && Bookable(x, start) {
      var n: nat :| Grid(x, w.startMin, n) + x.service.durationMin <= w.endMin
                    && x.policy.zone.toInstant(day, Grid(x, w.startMin, n)) == Some(start);
      assert OffersAt(x, day, w, Grid(x, w.startMin, n));
    }
  }

  ghost predicate AllLater(from: Instant, slots: seq<Instant>) {
    forall start :: start in slots ==> from < start
  }

  lemma AscendingCons(head: Instant, rest: seq<Instant>)
    requires Ascending(rest) && AllLater(head, rest)
    ensures Ascending([head] + rest)
  {
    forall j | 0 <= j < |rest| ensures head < rest[j] {
      assert rest[j] in rest;
    }
  }

  lemma LaterOnTheGrid(x: Inputs, day: int, startMin: int, endMin: int)
    requires x.Valid() && x.policy.zone.Lawful() && x.policy.zone.toInstant(day, startMin).Some?
    ensures AllLater(x.policy.zone.toInstant(day, startMin).value,
                     WindowSlots(x, day, startMin + x.policy.slotGranularityMin, endMin))
  {
    var next := startMin + x.policy.slotGranularityMin;
    forall start | start in WindowSlots(x, day, next, endMin)
      ensures x.policy.zone.toInstant(day, startMin).value < start
    {
      OffersMembers(x, day, Window(next, endMin), start);
      var m :| OffersAt(x, day, Window(next, endMin), m) && x.policy.zone.toInstant(day, m) == Some(start);
      var n: nat :| m == Grid(x, next, n);
      GridShifts(x, next, n);
      SameOrder(x, day, startMin, m);
    }
  }

  lemma {:induction false} WindowAscends(x: Inputs, day: int, startMin: int, endMin: int)
    requires x.Valid() && x.policy.zone.Lawful()
    ensures Ascending(WindowSlots(x, day, startMin, endMin))
    decreases endMin - startMin
  {
    if startMin + x.service.durationMin <= endMin {
      var next := startMin + x.policy.slotGranularityMin;
      var at := x.policy.zone.toInstant(day, startMin);
      WindowAscends(x, day, next, endMin);
      if at.Some? && Bookable(x, at.value) {
        LaterOnTheGrid(x, day, startMin, endMin);
        AscendingCons(at.value, WindowSlots(x, day, next, endMin));
      } else {
        assert SlotAt(x, at) + WindowSlots(x, day, next, endMin) == WindowSlots(x, day, next, endMin);
      }
    }
  }

  ghost predicate AllBefore(a: seq<Instant>, b: seq<Instant>) {
    forall s, t :: s in a && t in b ==> s < t
  }

  lemma AscendingConcat(a: seq<Instant>, b: seq<Instant>)
    ensures Ascending(a + b) <==> Ascending(a) && Ascending(b) && AllBefore(a, b)
  {
    if Ascending(a + b) {
      forall i, j | 0 <= i < j < |a| ensures a[i] < a[j] {
        assert (a + b)[i] < (a + b)[j];
      }
      forall i, j | 0 <= i < j < |b| ensures b[i] < b[j] {
        assert (a + b)[|a| + i] < (a + b)[|a| + j];
      }
      forall s, t | s in a && t in b ensures s < t {
        var i :| 0 <= i < |a| && a[i] == s;
        var j :| 0 <= j < |b| && b[j] == t;
        assert (a + b)[i] < (a + b)[|a| + j];
      }
    }
    if Ascending(a) && Ascending(b) && AllBefore(a, b) {
      forall i, j | 0 <= i < |a| && 0 <= j < |b| ensures a[i] < b[j] {
        assert a[i] in a && b[j] in b;
      }
    }
  }

  /** Everything the first window offers comes before everything these offer. */
  ghost predicate FirstInTurn(x: Inputs, day: int, w: Window, rest: seq<Window>) {
    forall j, m, n :: 0 <= j < |rest| && OffersAt(x, day, w, m) && OffersAt(x, day, rest[j], n) ==> m < n
  }

  lemma InTurnStep(x: Inputs, day: int, w: Window, rest: seq<Window>)
    ensures OffersInTurn(x, day, [w] + rest) <==> FirstInTurn(x, day, w, rest) && OffersInTurn(x, day, rest)
  {
    var ws := [w] + rest;
    if OffersInTurn(x, day, ws) {
      forall j, m, n | 0 <= j < |rest| && OffersAt(x, day, w, m) && OffersAt(x, day, rest[j], n) ensures m < n {
        assert ws[0] == w && ws[j + 1] == rest[j];
      }
      forall i, j, m, n | 0 <= i < j < |rest| && OffersAt(x, day, rest[i], m) && OffersAt(x, day, rest[j], n)
        ensures m < n
      {
        assert ws[i + 1] == rest[i] && ws[j + 1] == rest[j];
      }
    }
  }

  lemma {:induction false} OffersOfAny(x: Inputs, day: int, ws: seq<Window>, start: Instant)
    requires x.Valid()
    ensures start in DaySlots(x, day, ws)
       <==> exists j, m :: 0 <= j < |ws| && OffersAt(x, day, ws[j], m) && x.policy.zone.toInstant(day, m) == Some(start)
  {
    if ws != [] {
      OffersMembers(x, day, ws[0], start);
      OffersOfAny(x, day, ws[1..], start);
      if start in DaySlots(x, day, ws[1..]) {
        var j, m :| 0 <= j < |ws[1..]| && OffersAt(x, day, ws[1..][j], m)
                    && x.policy.zone.toInstant(day, m) == Some(start);
        assert OffersAt(x, day, ws[j + 1], m);
      }
      if j, m :| 0 <= j < |ws| && OffersAt(x, day, ws[j], m) && x.policy.zone.toInstant(day, m) == Some(start) {
        if j > 0 {
          assert OffersAt(x, day, ws[1..][j - 1], m);
        }
      }
    }
  }

  lemma FirstBeforeRest(x: Inputs, day: int, w: Window, rest: seq<Window>)
    requires x.Valid() && x.policy.zone.Lawful()
    ensures AllBefore(WindowSlots(x, day, w.startMin, w.endMin), DaySlots(x, day, rest)) <==> FirstInTurn(x, day, w, rest)
  {
    var a, b := WindowSlots(x, day, w.startMin, w.endMin), DaySlots(x, day, rest);
    if AllBefore(a, b) {
      forall j, m, n | 0 <= j < |rest| && OffersAt(x, day, w, m) && OffersAt(x, day, rest[j], n) ensures m < n {
        OffersMembers(x, day, w, x.policy.zone.toInstant(day, m).value);
        OffersOfAny(x, day, rest, x.policy.zone.toInstant(day, n).value);
        SameOrder(x, day, m, n);
      }
    }
    if FirstInTurn(x, day, w, rest) {
      forall s, t | s in a && t in b ensures s < t {
        OffersMembers(x, day, w, s);
        OffersOfAny(x, day, rest, t);
        var m :| OffersAt(x, day, w, m) && x.policy.zone.toInstant(day, m) == Some(s);
        var j, n :| 0 <= j < |rest| && OffersAt(x, day, rest[j], n) && x.policy.zone.toInstant(day, n) == Some(t);
        SameOrder(x, day, m, n);
      }
    }
  }

  /** A day's slots ascend exactly when its windows offer theirs one after another. */
  lemma {:induction false} DayAscendsExactly(x: Inputs, day: int, ws: seq<Window>)
    requires x.Valid() && x.policy.zone.Lawful()
    ensures Ascending(DaySlots(x, day, ws)) <==> OffersInTurn(x, day, ws)
  {
    if ws != [] {
      assert ws == [ws[0]] + ws[1..];
      WindowAscends(x, day, ws[0].startMin, ws[0].endMin);
      DayAscendsExactly(x, day, ws[1..]);
      AscendingConcat(WindowSlots(x, day, ws[0].startMin, ws[0].endMin), DaySlots(x, day, ws[1..]));
      FirstBeforeRest(x, day, ws[0], ws[1..]);
      InTurnStep(x, day, ws[0], ws[1..]);
    }
  }

  lemma SoonAnywhere(x: Inputs, day: int)
    requires x.Valid()
    ensures HasTooSoon(x, day) <==> DaySoon(x, day, OpenWindows(day, x.sched))
  {
    DaySoonMeans(x, day, OpenWindows(day, x.sched));
    if HasTooSoon(x, day) {
      var start :| OnGrid(x, day, start) && start < x.EarliestStart();
      var w :| w in OpenWindows(day, x.sched) && OnGridOf(x, day, w, start);
      assert SoonOnGridOf(x, day, w);
    }
    if w :| w in OpenWindows(day, x.sched) && SoonOnGridOf(x, day, w) {
      var start :| OnGridOf(x, day, w, start) && start < x.EarliestStart();
      assert OnGrid(x, day, start);
    }
  }

  lemma SlotsAnywhere(x: Inputs, day: int)
    requires x.Valid()
    ensures var slots := DaySlots(x, day, OpenWindows(day, x.sched));
      && (forall start :: start in slots <==> OnGrid(x, day, start) && Bookable(x, start))
      && (slots != [] <==> HasBookable(x, day))
  {
    var slots := DaySlots(x, day, OpenWindows(day, x.sched));
    forall start ensures start in slots <==> OnGrid(x, day, start) && Bookable(x, start) {
      DayMembers(x, day, OpenWindows(day, x.sched), start);
    }
    if slots != [] {
      assert slots[0] in slots;
      assert OnGrid(x, day, slots[0]) && Bookable(x, slots[0]);
    }
  }

  /**
   * Every day's answer: the state follows the order of the tests, the slots are exactly the
   * existing grid times that fit, meet notice and clash with nothing, and they strictly
   * ascend if and only if the windows offer theirs one after another.
   */
  lemma AnswersMean(x: Inputs, day: int)
    requires x.Valid() && x.policy.zone.Lawful()
    ensures Answers(x, day, Answer(x, day))
  {
    SlotsAnywhere(x, day);
    SoonAnywhere(x, day);
    DayAscendsExactly(x, day, OpenWindows(day, x.sched));
  }

  // ---------------------------------------------------------------------------
  // Whatever the clock and the other bookings
  // ---------------------------------------------------------------------------

  /** The same service on the same grid of the same windows, at another time and among other bookings. */
  ghost predicate SameGrid(x: Inputs, y: Inputs) {
    && y.sched == x.sched && y.service == x.service
    && y.policy.zone == x.policy.zone && y.policy.slotGranularityMin == x.policy.slotGranularityMin
  }

  lemma SameFits(x: Inputs, y: Inputs, day: int, w: Window, m: int)
    requires SameGrid(x, y)
    ensures FitsAt(y, day, w, m) <==> FitsAt(x, day, w, m)
  {
    assert forall n: nat :: Grid(y, w.startMin, n) == Grid(x, w.startMin, n);
  }

  /** Seen from the very moment of minute `n`, with no bookings, notice or horizon, it and what follows is bookable. */
  function SeenFrom(x: Inputs, day: int, n: int): Inputs
    requires x.policy.zone.toInstant(day, n).Some?
  {
    x.(now := x.policy.zone.toInstant(day, n).value, busy := [],
       policy := x.policy.(minNoticeMin := 0, maxAdvanceDays := 0))
  }

  lemma OutOfTurnShows(x: Inputs, day: int, i: nat, j: nat, m: int, n: int)
    requires x.Valid() && x.policy.zone.Lawful()
    requires i < j < |OpenWindows(day, x.sched)| && n <= m
    requires FitsAt(x, day, OpenWindows(day, x.sched)[i], m) && FitsAt(x, day, OpenWindows(day, x.sched)[j], n)
    ensures var y := SeenFrom(x, day, n); SameGrid(x, y) && !Ascending(Answer(y, day).slots)
  {
    var y, ws := SeenFrom(x, day, n), OpenWindows(day, x.sched);
    SameOrder(x, day, m, n);
    SameFits(x, y, day, ws[i], m);
    SameFits(x, y, day, ws[j], n);
    assert OffersAt(y, day, ws[i], m) && OffersAt(y, day, ws[j], n);
    AnswersMean(y, day);
  }

  /**
   * Exactly when a date's windows give ascending slots for every clock, notice, horizon and
   * set of bookings: when every existing grid minute of one window at which the service fits
   * is before every such minute of a later one.
   */
  lemma AlwaysAscendsExactly(x: Inputs, day: int)
    requires x.Valid() && x.policy.zone.Lawful()
    ensures (forall y :: SameGrid(x, y) ==> Ascending(Answer(y, day).slots))
       <==> FitsInTurn(x, day, OpenWindows(day, x.sched))
  {
    var ws := OpenWindows(day, x.sched);
    if FitsInTurn(x, day, ws) {
      forall y | SameGrid(x, y) ensures Ascending(Answer(y, day).slots) {
        forall i, j, m, n | 0 <= i < j < |ws| && OffersAt(y, day, ws[i], m) && OffersAt(y, day, ws[j], n) ensures m < n {
          SameFits(x, y, day, ws[i], m);
          SameFits(x, y, day, ws[j], n);
        }
        AnswersMean(y, day);
      }
    } else {
      var i, j, m, n :| 0 <= i < j < |ws| && FitsAt(x, day, ws[i], m) && FitsAt(x, day, ws[j], n) && !(m < n);
      OutOfTurnShows(x, day, i, j, m, n);
    }
  }

  /** Windows that do not overlap meet that. */
  lemma LaidOutAscends(x: Inputs, day: int)
    requires x.Valid() && x.policy.zone.Lawful() && LaidOut(OpenWindows(day, x.sched))
    ensures Ascending(Answer(x, day).slots)
  {
    var ws := OpenWindows(day, x.sched);
    forall i, j, m, n | 0 <= i < j < |ws| && FitsAt(x, day, ws[i], m) && FitsAt(x, day, ws[j], n) ensures m < n {
      var k: nat :| n == Grid(x, ws[j].startMin, k);
      GridShifts(x, ws[j].startMin, k);
    }
    AlwaysAscendsExactly(x, day);
    assert SameGrid(x, x);
  }
}

/**
 * The rows that `getAvailability` selects before it calls the slot engine, and the agreement
 * that follows: a time is offered exactly when the booking write's own conflict check would
 * find nothing.
 */
module Availability {
  import opened Common
  import opened BookingRows
  import opened OpeningWindows
  import opened Slots
  import BookingProtocol

  type Service = BookingProtocol.Service

  datatype Business = Business(id: BusinessId, policy: Policy, sched: Schedule)
  {
    /** The CHECK constraints on the settings and on the hours and override rows. */
    predicate InSchema() {
      && policy.slotGranularityMin > 0
      && (forall h :: h in sched.hours ==> 0 <= h.startMin < h.endMin <= 1440)
      && (forall o :: o in sched.overrides ==> 0 <= o.startMin < o.endMin <= 1440)
    }
  }

  function ShapeOf(sv: Service): ServiceShape {
    ServiceShape(sv.durationMin, sv.bufferBefore, sv.bufferAfter)
  }

  // ---------------------------------------------------------------------------
  // The queries
  // ---------------------------------------------------------------------------

  /** `$1::date - INTERVAL '1 day'` and `$2::date + INTERVAL '2 days'`, in a UTC session. */
  function WidenedFrom(from: int): Instant {
    (from - 1) * 86_400_000
  }

  function WidenedUntil(to: int): Instant {
    (to + 2) * 86_400_000
  }

  predicate Selected(rows: Table, business: BusinessId, from: int, to: int, exclude: Option<BookingId>, id: BookingId) {
    Visible(rows, business, id) && rows[id].Live()
    && rows[id].BlocksUntil() > WidenedFrom(from) && rows[id].BlocksFrom() < WidenedUntil(to)
    && exclude != Some(id)
  }

  ghost predicate BusyRows(rows: Table, business: BusinessId, from: int, to: int, exclude: Option<BookingId>,
                           busy: seq<Busy>)
  {
    && (forall id :: id in rows && Selected(rows, business, from, to, exclude, id) ==>
          Busy(rows[id].BlocksFrom(), rows[id].BlocksUntil()) in busy)
    && (forall b :: b in busy ==> exists id :: id in rows && Selected(rows, business, from, to, exclude, id)
                                               && b == Busy(rows[id].BlocksFrom(), rows[id].BlocksUntil()))
  }

  method SelectBusy(rows: Table, business: BusinessId, from: int, to: int, exclude: Option<BookingId>)
    returns (busy: seq<Busy>)
    ensures BusyRows(rows, business, from, to, exclude, busy)
  {
    busy := [];
    var left := set id | id in rows && Selected(rows, business, from, to, exclude, id);
    ghost var all := left;
    while left != {}
      invariant left <= all
      invariant forall id :: id in all && id !in left ==>
        Busy(rows[id].BlocksFrom(), rows[id].BlocksUntil()) in busy
      invariant forall b :: b in busy ==> exists id :: id in all && b == Busy(rows[id].BlocksFrom(), rows[id].BlocksUntil())
      decreases left
    {
      var id :| id in left;
      left := left - {id};
      busy := busy + [Busy(rows[id].BlocksFrom(), rows[id].BlocksUntil())];
    }
  }

  /** `WHERE on_date BETWEEN $1 AND $2` on both date-keyed tables. */
  function Between(sched: Schedule, from: int, to: int): Schedule {
    Schedule(sched.hours,
             Collect((c: Closure) => if from <= c.onDate <= to then Some(c) else None, sched.closures),
             Collect((o: DateOverride) => if from <= o.onDate <= to then Some(o) else None, sched.overrides))
  }

  lemma {:induction false} OtherDaysDoNotCut(ws: seq<Window>, day: int, closures: seq<Closure>, from: int, to: int)
    requires from <= day <= to
    ensures CutAll(ws, day, Collect((c: Closure) => if from <= c.onDate <= to then Some(c) else None, closures))
         == CutAll(ws, day, closures)
    decreases |closures|
  {
    if closures != [] {
      var keep := (c: Closure) => if from <= c.onDate <= to then Some(c) else None;
      OtherDaysDoNotCut(CutBy(ws, day, closures[0]), day, closures[1..], from, to);
      assert Collect(keep, closures) == Kept(keep(closures[0])) + Collect(keep, closures[1..]);
      if from <= closures[0].onDate <= to {
        assert Collect(keep, closures)[1..] == Collect(keep, closures[1..]);
      } else {
        assert Collect(keep, closures) == Collect(keep, closures[1..]);
      }
    }
  }

  lemma {:induction false} OtherDaysDoNotOverride(day: int, overrides: seq<DateOverride>, from: int, to: int)
    requires from <= day <= to
    ensures OverridesOn(day, Collect((o: DateOverride) => if from <= o.onDate <= to then Some(o) else None, overrides))
         == OverridesOn(day, overrides)
  {
    if overrides != [] {
      var keep := (o: DateOverride) => if from <= o.onDate <= to then Some(o) else None;
      OtherDaysDoNotOverride(day, overrides[1..], from, to);
      assert Collect(keep, overrides) == Kept(keep(overrides[0])) + Collect(keep, overrides[1..]);
      if from <= overrides[0].onDate <= to {
        assert Collect(keep, overrides)[1..] == Collect(keep, overrides[1..]);
      } else {
        assert Collect(keep, overrides) == Collect(keep, overrides[1..]);
      }
    }
  }

  /** Reading only the range's closures and overrides changes no day in the range. */
  lemma RangeIsEnough(day: int, sched: Schedule, from: int, to: int)
    requires from <= day <= to
    ensures OpenWindows(day, Between(sched, from, to)) == OpenWindows(day, sched)
  {
    OtherDaysDoNotOverride(day, sched.overrides, from, to);
    OtherDaysDoNotCut(Sort(ByStart, Template(day, sched)), day, sched.closures, from, to);
  }

  // ---------------------------------------------------------------------------
  // The widened window misses nothing
  // ---------------------------------------------------------------------------

  lemma TemplateIsInsideDay(b: Business, day: int, w: Window)
    requires b.InSchema() && w in Template(day, b.sched)
    ensures 0 <= w.startMin && w.endMin <= 1440
  {
    if w in OverridesOn(day, b.sched.overrides) {
      CollectedFrom(OverrideOn(day), b.sched.overrides, w);
    } else {
      CollectedFrom(HourOn(day), b.sched.hours, w);
    }
  }

  lemma OpenWindowIsInsideDay(b: Business, day: int, w: Window)
    requires b.InSchema() && w in OpenWindows(day, b.sched)
    ensures 0 <= w.startMin < w.endMin <= 1440
  {
    OpenMinutes(day, b.sched, w.startMin);
    OpenMinutes(day, b.sched, w.endMin - 1);
    assert w.Has(w.startMin) && w.Has(w.endMin - 1);
    var v :| v in Template(day, b.sched) && v.Has(w.startMin);
    var u :| u in Template(day, b.sched) && u.Has(w.endMin - 1);
    TemplateIsInsideDay(b, day, v);
    TemplateIsInsideDay(b, day, u);
  }

  /** Zone offsets, buffers and the longest day together stay inside a day before and two after. */
  lemma CandidateIsInsideWidened(x: Inputs, day: int, w: Window, sv: Service, start: Instant)
    requires x.Valid() && x.policy.zone.Lawful() && x.from <= day <= x.to
    requires sv.InSchema() && x.service == ShapeOf(sv)
    requires 0 <= w.startMin < w.endMin <= 1440 && OnGridOf(x, day, w, start)
    ensures WidenedFrom(x.from) < x.service.From(start)
    ensures x.service.Until(start) < WidenedUntil(x.to)
  {
    var n: nat :| Grid(x, w.startMin, n) + x.service.durationMin <= w.endMin
                  && x.policy.zone.toInstant(day, Grid(x, w.startMin, n)) == Some(start);
    var m := Grid(x, w.startMin, n);
    assert x.policy.zone.toInstant(day, m).Some?;
    assert x.policy.zone.LocalMidnightUtc(day) + Minutes(m) - Minutes(14 * 60) <= start;
    assert start <= x.policy.zone.LocalMidnightUtc(day) + Minutes(m) + Minutes(12 * 60);
    assert x.from * 86_400_000 <= day * 86_400_000 <= x.to * 86_400_000;
  }

  lemma ClashesExactlyWhenConflicts(x: Inputs, rows: Table, business: BusinessId, exclude: Option<BookingId>,
                                    start: Instant)
    requires BusyRows(rows, business, x.from, x.to, exclude, x.busy)
    requires WidenedFrom(x.from) < x.service.From(start) && x.service.Until(start) < WidenedUntil(x.to)
    ensures IsFree(x, start) <==> Conflicts(rows, business, x.service.From(start), x.service.Until(start), exclude) == {}
  {
    var from, until := x.service.From(start), x.service.Until(start);
    if !IsFree(x, start) {
      var b :| b in x.busy && Overlaps(from, until, b.from, b.until);
      var id :| id in rows && Selected(rows, business, x.from, x.to, exclude, id)
                && b == Busy(rows[id].BlocksFrom(), rows[id].BlocksUntil());
      assert id in Conflicts(rows, business, from, until, exclude);
    }
    if id :| id in Conflicts(rows, business, from, until, exclude) {
      assert Selected(rows, business, x.from, x.to, exclude, id);
      assert Overlaps(from, until, rows[id].BlocksFrom(), rows[id].BlocksUntil());
    }
  }

  // ---------------------------------------------------------------------------
  // getAvailability
  // ---------------------------------------------------------------------------

  /** An existing grid time of the day's open windows, soon enough and not too soon. */
  ghost predicate Eligible(b: Business, sv: Service, now: Instant, day: int, start: Instant) {
    var x := Inputs(day, day, now, b.policy, ShapeOf(sv), b.sched, []);
    day <= x.LastBookableDay() && OnGrid(x, day, start) && x.EarliestStart() <= start
  }

  /** What the booking write's own check would find for this start. */
  function WouldConflict(rows: Table, b: Business, sv: Service, exclude: Option<BookingId>, start: Instant): set<BookingId> {
    Conflicts(rows, b.id, ShapeOf(sv).From(start), ShapeOf(sv).Until(start), exclude)
  }

  lemma OnGridDependsOnWindowsOnly(x: Inputs, y: Inputs, day: int, start: Instant)
    requires x.policy == y.policy && x.service == y.service
    requires OpenWindows(day, x.sched) == OpenWindows(day, y.sched)
    ensures OnGrid(x, day, start) <==> OnGrid(y, day, start)
  {
    assert forall m, n: nat :: Grid(x, m, n) == Grid(y, m, n);
    assert forall w :: OnGridOf(x, day, w, start) <==> OnGridOf(y, day, w, start);
  }

  lemma OfferedExactlyWhenFree(x: Inputs, rows: Table, b: Business, sv: Service, exclude: Option<BookingId>,
                               day: int, start: Instant)
    requires b.InSchema() && sv.InSchema() && b.policy.zone.Lawful() && x.from <= day <= x.to
    requires x.policy == b.policy && x.service == ShapeOf(sv) && x.sched == Between(b.sched, x.from, x.to)
    requires BusyRows(rows, b.id, x.from, x.to, exclude, x.busy)
    ensures start in Answer(x, day).slots <==>
              Eligible(b, sv, x.now, day, start) && WouldConflict(rows, b, sv, exclude, start) == {}
  {
    var plain := Inputs(day, day, x.now, b.policy, ShapeOf(sv), b.sched, []);
    RangeIsEnough(day, b.sched, x.from, x.to);
    OnGridDependsOnWindowsOnly(x, plain, day, start);
    SlotsAnywhere(x, day);
    if OnGrid(x, day, start) {
      var w :| w in OpenWindows(day, x.sched) && OnGridOf(x, day, w, start);
      OpenWindowIsInsideDay(b, day, w);
      CandidateIsInsideWidened(x, day, w, sv, start);
      ClashesExactlyWhenConflicts(x, rows, b.id, exclude, start);
    }
  }

  // ---------------------------------------------------------------------------
  // What it answers, from the tables alone
  // ---------------------------------------------------------------------------

  function Asked(b: Business, sv: Service, day: int, now: Instant): Inputs {
    Inputs(day, day, now, b.policy, ServiceShape(sv.durationMin, sv.bufferBefore, sv.bufferAfter), b.sched, [])
  }

  /** No pending or confirmed booking of the business, other than the excluded one, meets the appointment and its buffers. */
  ghost predicate ClearOf(rows: Table, business: BusinessId, sv: Service, exclude: Option<BookingId>, start: Instant) {
    forall id ::
      id in rows && rows[id].business == business && exclude != Some(id) && rows[id].status in {Pending, Confirmed} ==>
        || rows[id].endsAt + rows[id].bufferAfter * 60_000 <= start - sv.bufferBefore * 60_000
        || start + (sv.durationMin + sv.bufferAfter) * 60_000 <= rows[id].startsAt - rows[id].bufferBefore * 60_000
  }

  ghost predicate OfferedOn(rows: Table, b: Business, sv: Service, now: Instant, exclude: Option<BookingId>,
                            day: int, start: Instant)
  {
    && day <= b.policy.zone.dateKey(now) + b.policy.maxAdvanceDays
    && OnOffer(Asked(b, sv, day, now), day, start)
    && start >= now + b.policy.minNoticeMin * 60_000
    && ClearOf(rows, b.id, sv, exclude, start)
  }

  /** One day's answer: its slots are exactly the starts that are offered, and its state says why there is none. */
  ghost predicate DayRight(rows: Table, b: Business, sv: Service, now: Instant, exclude: Option<BookingId>,
                           day: int, a: DayAvailability)
  {
    var horizon := b.policy.zone.dateKey(now) + b.policy.maxAdvanceDays;
    && a.date == day
    && (forall start :: start in a.slots <==> OfferedOn(rows, b, sv, now, exclude, day, start))
    && (a.state == BeyondHorizon <==> day > horizon)
    && (a.state == Closed <==> day <= horizon && OpenWindows(day, b.sched) == [])
    && (a.state == Open <==> a.slots != [])
    && (a.state == TooSoon <==>
          day <= horizon && a.slots == []
          && exists start :: OnOffer(Asked(b, sv, day, now), day, start) && start < now + b.policy.minNoticeMin * 60_000)
  }

  lemma ClearExactly(rows: Table, b: Business, sv: Service, exclude: Option<BookingId>, start: Instant)
    ensures ClearOf(rows, b.id, sv, exclude, start) <==> WouldConflict(rows, b, sv, exclude, start) == {}
  {
    ConflictsExactly(rows, b.id, ShapeOf(sv).From(start), ShapeOf(sv).Until(start), exclude);
    if !ClearOf(rows, b.id, sv, exclude, start) {
      var id :| id in rows && rows[id].business == b.id && exclude != Some(id)
                && (rows[id].status == Pending || rows[id].status == Confirmed)
                && rows[id].endsAt + rows[id].bufferAfter * 60_000 > start - sv.bufferBefore * 60_000
                && start + (sv.durationMin + sv.bufferAfter) * 60_000 > rows[id].startsAt - rows[id].bufferBefore * 60_000;
      assert id in WouldConflict(rows, b, sv, exclude, start);
    }
    if id :| id in WouldConflict(rows, b, sv, exclude, start) {
      assert rows[id].endsAt + rows[id].bufferAfter * 60_000 > start - sv.bufferBefore * 60_000;
    }
  }

  lemma OfferedOnExactly(rows: Table, b: Business, sv: Service, now: Instant, exclude: Option<BookingId>,
                         day: int, start: Instant)
    ensures OfferedOn(rows, b, sv, now, exclude, day, start)
       <==> Eligible(b, sv, now, day, start) && WouldConflict(rows, b, sv, exclude, start) == {}
  {
    ClearExactly(rows, b, sv, exclude, start);
    OnOfferIsOnGrid(Asked(b, sv, day, now), day, start);
  }

  lemma SameOffer(x: Inputs, b: Business, sv: Service, day: int, start: Instant)
    requires x.policy == b.policy && x.service == ShapeOf(sv) && x.sched == Between(b.sched, x.from, x.to)
    requires x.from <= day <= x.to
    ensures OnOffer(x, day, start) <==> OnOffer(Asked(b, sv, day, x.now), day, start)
  {
    var plain := Asked(b, sv, day, x.now);
    RangeIsEnough(day, b.sched, x.from, x.to);
    OnGridDependsOnWindowsOnly(x, plain, day, start);
    OnOfferIsOnGrid(x, day, start);
    OnOfferIsOnGrid(plain, day, start);
  }

  lemma SlotsAreOffered(x: Inputs, rows: Table, b: Business, sv: Service, exclude: Option<BookingId>, day: int)
    requires b.InSchema() && sv.InSchema() && b.policy.zone.Lawful() && x.from <= day <= x.to
    requires x.policy == b.policy && x.service == ShapeOf(sv) && x.sched == Between(b.sched, x.from, x.to)
    requires BusyRows(rows, b.id, x.from, x.to, exclude, x.busy)
    ensures forall start :: start in Answer(x, day).slots <==> OfferedOn(rows, b, sv, x.now, exclude, day, start)
  {
    forall start ensures start in Answer(x, day).slots <==> OfferedOn(rows, b, sv, x.now, exclude, day, start) {
      OfferedExactlyWhenFree(x, rows, b, sv, exclude, day, start);
      OfferedOnExactly(rows, b, sv, x.now, exclude, day, start);
    }
  }

  lemma StateIsRight(x: Inputs, b: Business, sv: Service, day: int)
    requires x.Valid() && x.from <= day <= x.to
    requires x.policy == b.policy && x.service == ShapeOf(sv) && x.sched == Between(b.sched, x.from, x.to)
    ensures var a, horizon := Answer(x, day), b.policy.zone.dateKey(x.now) + b.policy.maxAdvanceDays;
      && a.date == day
      && (a.state == BeyondHorizon <==> day > horizon)
      && (a.state == Closed <==> day <= horizon && OpenWindows(day, b.sched) == [])
      && (a.state == Open <==> a.slots != [])
      && (a.state == TooSoon <==>
            day <= horizon && a.slots == []
            && exists start :: OnOffer(Asked(b, sv, day, x.now), day, start)
                               && start < x.now + b.policy.minNoticeMin * 60_000)
  {
    AnswerExactly(x, day);
    RangeIsEnough(day, b.sched, x.from, x.to);
    forall start ensures OnOffer(x, day, start) <==> OnOffer(Asked(b, sv, day, x.now), day, start) {
      SameOffer(x, b, sv, day, start);
    }
    var a := Answer(x, day);
    if a.slots != [] {
      assert a.slots[0] in a.slots;
    }
  }

  lemma DayIsRight(x: Inputs, rows: Table, b: Business, sv: Service, exclude: Option<BookingId>, day: int)
    requires b.InSchema() && sv.InSchema() && b.policy.zone.Lawful() && x.from <= day <= x.to
    requires x.policy == b.policy && x.service == ShapeOf(sv) && x.sched == Between(b.sched, x.from, x.to)
    requires BusyRows(rows, b.id, x.from, x.to, exclude, x.busy)
    ensures DayRight(rows, b, sv, x.now, exclude, day, Answer(x, day))
  {
    SlotsAreOffered(x, rows, b, sv, exclude, day);
    StateIsRight(x, b, sv, day);
  }

  /** Every day of the range, answered in order and exactly. */
  ghost predicate RangeAnswered(rows: Table, b: Business, sv: Service, from: int, to: int, now: Instant,
                                exclude: Option<BookingId>, days: seq<DayAvailability>)
  {
    && |days| == Max(0, to - from + 1)
    && forall i :: 0 <= i < |days| ==> DayRight(rows, b, sv, now, exclude, from + i, days[i])
  }

  lemma EveryDayIsRight(x: Inputs, rows: Table, b: Business, sv: Service, exclude: Option<BookingId>)
    requires b.InSchema() && sv.InSchema() && b.policy.zone.Lawful()
    requires x.policy == b.policy && x.service == ShapeOf(sv) && x.sched == Between(b.sched, x.from, x.to)
    requires BusyRows(rows, b.id, x.from, x.to, exclude, x.busy)
    ensures forall day :: x.from <= day <= x.to ==> DayRight(rows, b, sv, x.now, exclude, day, Answer(x, day))
  {
    forall day | x.from <= day <= x.to
      ensures DayRight(rows, b, sv, x.now, exclude, day, Answer(x, day))
    {
      DayIsRight(x, rows, b, sv, exclude, day);
    }
  }

  lemma RangeFromDays(x: Inputs, rows: Table, b: Business, sv: Service, exclude: Option<BookingId>,
                      days: seq<DayAvailability>)
    requires x.Valid() && |days| == Max(0, x.to - x.from + 1)
    requires forall day :: x.from <= day <= x.to ==> DayRight(rows, b, sv, x.now, exclude, day, Answer(x, day))
    requires forall day :: x.from <= day <= x.to ==> days[day - x.from] == Answer(x, day)
    ensures RangeAnswered(rows, b, sv, x.from, x.to, x.now, exclude, days)
  {
    forall i | 0 <= i < |days| ensures DayRight(rows, b, sv, x.now, exclude, x.from + i, days[i]) {
      assert days[i] == Answer(x, x.from + i);
    }
  }

  method GetAvailability(rows: Table, b: Business, sv: Service, from: int, to: int, now: Instant,
                         exclude: Option<BookingId>)
    returns (days: seq<DayAvailability>)
    requires b.InSchema() && sv.InSchema() && b.policy.zone.Lawful()
    ensures RangeAnswered(rows, b, sv, from, to, now, exclude, days)
  {
    var busy := SelectBusy(rows, b.id, from, to, exclude);
    var x := Inputs(from, to, now, b.policy, ShapeOf(sv), Between(b.sched, from, to), busy);
    var r := GenerateAvailability(x);
    days := r.value;
    EveryDayIsRight(x, rows, b, sv, exclude);
    RangeFromDays(x, rows, b, sv, exclude, days);
  }

  /** The start is one of those offered on its date. */
  ghost predicate Offered(rows: Table, b: Business, sv: Service, exclude: Option<BookingId>, startsAt: Instant,
                          now: Instant)
  {
    OfferedOn(rows, b, sv, now, exclude, b.policy.zone.dateKey(startsAt), startsAt)
  }

  /** The check that both of the customer's writes make first: ask for the date, look for the start. */
  method IsOffered(rows: Table, b: Business, sv: Service, exclude: Option<BookingId>, startsAt: Instant, now: Instant)
    returns (offered: bool)
    requires b.InSchema() && sv.InSchema() && b.policy.zone.Lawful()
    ensures offered <==> Offered(rows, b, sv, exclude, startsAt, now)
  {
    var day := b.policy.zone.dateKey(startsAt);
    var days := GetAvailability(rows, b, sv, day, day, now, exclude);
    offered := startsAt in days[0].slots;
    assert DayRight(rows, b, sv, now, exclude, day, days[0]);
  }
}

/** The customer's own move of a booking: the offered-slot check, then a reschedule that never forces. */
module ManagedBooking {
  import opened Common
  import opened BookingRows
  import opened BookingProtocol
  import opened BookingEngine
  import opened Availability
  import OpeningWindows
  import Slots
  import Zones

  datatype ManageError = NoSuchBooking | SlotNotAvailable | Refused(error: Error)

  /** What the reschedule's own check would find: it measures by the booking, not by its service. */
  function WouldBlock(rows: Table, business: BusinessId, id: BookingId, startsAt: Instant): set<BookingId>
    requires id in rows
  {
    var row := rows[id];
    var endsAt := startsAt + (row.endsAt - row.startsAt);
    set j | j in rows && rows[j].business == business && j != id && rows[j].status in {Pending, Confirmed}
            && rows[j].startsAt - rows[j].bufferBefore * 60_000 < endsAt + row.bufferAfter * 60_000
            && rows[j].endsAt + rows[j].bufferAfter * 60_000 > startsAt - row.bufferBefore * 60_000
  }

  /** While the two measure the same, a time that is offered is free for the booking. */
  lemma OfferedIsFreeWhenSizedLike(rows: Table, b: Business, sv: Service, id: BookingId, startsAt: Instant, now: Instant)
    requires id in rows
    requires Offered(rows, b, sv, Some(id), startsAt, now)
    ensures rows[id].endsAt - rows[id].startsAt == sv.durationMin * 60_000
            && rows[id].bufferBefore == sv.bufferBefore && rows[id].bufferAfter == sv.bufferAfter ==>
              WouldBlock(rows, b.id, id, startsAt) == {}
  {
    OfferedOnExactly(rows, b, sv, now, Some(id), b.policy.zone.dateKey(startsAt), startsAt);
  }

  /** The customer's move of a booking to another start. */
  function Moved(row: Row, startsAt: Instant, now: Instant): Row {
    row.(startsAt := startsAt, endsAt := startsAt + (row.endsAt - row.startsAt), revision := row.revision + 1,
         lastCustomerChange := Some(now), ownerSeen := None)
  }

  method MoveUnforced(db: Database, business: BusinessId, id: BookingId, startsAt: Instant, now: Instant)
    returns (r: Result<Option<Saved>, Error>)
    requires db.Valid() && db.clock <= now && Visible(db.rows, business, id)
    modifies db
    ensures db.Valid()
    ensures if WouldBlock(old(db.rows), business, id, startsAt) != {} then
              r.Err? && r.error.Conflict? && r.error.id in WouldBlock(old(db.rows), business, id, startsAt)
              && db.rows == old(db.rows)
            else r == Ok(Some(Saved(id, false)))
                 && db.rows == old(db.rows)[id := Moved(old(db.rows)[id], startsAt, now)]
    ensures db.log == if r.Ok? then old(db.log) + [Event(id, now, Placed(Customer, false, false))] else old(db.log)
  {
    r := db.RescheduleBooking(business, id, startsAt, Customer, false, now);
  }

  /**
   * `rescheduleByManageToken`, once the token has been resolved to a booking or to nothing.
   * The move goes through exactly when the time is offered for the service as it is now and
   * free for the booking as it was made. While the two measure the same, a time she was
   * offered is never refused.
   */
  method RescheduleManaged(db: Database, b: Business, found: Option<BookingId>, service: Service, startsAt: Instant,
                           callerNow: Instant, now: Instant)
    returns (r: Result<Option<Saved>, ManageError>)
    requires db.Valid() && db.clock <= now
    requires b.InSchema() && b.policy.zone.Lawful() && service.InSchema()
    requires found.Some? ==> Visible(db.rows, b.id, found.value)
    modifies db
    ensures db.Valid()
    ensures if found.None? then r == Err(NoSuchBooking) && db.rows == old(db.rows)
            else if !Offered(old(db.rows), b, service, found, startsAt, callerNow) then
              r == Err(SlotNotAvailable) && db.rows == old(db.rows)
            else if WouldBlock(old(db.rows), b.id, found.value, startsAt) != {} then
              && r.Err? && r.error.Refused? && r.error.error.Conflict?
              && r.error.error.id in WouldBlock(old(db.rows), b.id, found.value, startsAt)
              && db.rows == old(db.rows)
              && var row := old(db.rows)[found.value];
                 (row.endsAt - row.startsAt, row.bufferBefore, row.bufferAfter)
                 != (service.durationMin * 60_000, service.bufferBefore, service.bufferAfter)
            else
              && r == Ok(Some(Saved(found.value, false)))
              && db.rows == old(db.rows)[found.value := Moved(old(db.rows)[found.value], startsAt, now)]
    ensures db.log == if r.Ok? then old(db.log) + [Event(found.value, now, Placed(Customer, false, false))]
                      else old(db.log)
  {
    if found.None? {
      return Err(NoSuchBooking);
    }
    var offered := IsOffered(db.rows, b, service, found, startsAt, callerNow);
    if !offered {
      return Err(SlotNotAvailable);
    }
    OfferedIsFreeWhenSizedLike(db.rows, b, service, found.value, startsAt, callerNow);
    var saved := MoveUnforced(db, b.id, found.value, startsAt, now);
    r := match saved case Ok(s) => Ok(s) case Err(e) => Err(Refused(e));
  }

  // ---------------------------------------------------------------------------
  // An offered time that is refused
  // ---------------------------------------------------------------------------

  const LONG: Service := BookingProtocol.Service(120, 0, 0, 0, true)
  const SHORTENED: Service := LONG.(durationMin := 60)

  /** Open around the clock on Thursdays, in UTC, with starts on the hour. Day 0 is one. */
  const THURSDAYS := Business(0, Slots.Policy(Zones.UTC, 60, 0, 60),
                              OpeningWindows.Schedule([OpeningWindows.WorkingHour(4, 0, 1440)], [], []))

  lemma ThursdaysAreInOrder()
    ensures THURSDAYS.InSchema() && THURSDAYS.policy.zone.Lawful()
    ensures OpeningWindows.OpenWindows(0, THURSDAYS.sched) == [OpeningWindows.Window(0, 1440)]
  {
    Zones.UtcIsLawful();
    var w := OpeningWindows.Window(0, 1440);
    assert OpeningWindows.Template(0, THURSDAYS.sched) == [w];
    assert Sort(OpeningWindows.ByStart, [w]) == [w] && OpeningWindows.NonEmpty([w]) == [w];
  }

  lemma FourOClock()
    ensures Zones.UtcInstant(0, 240) == Some(4 * HOUR)
    ensures THURSDAYS.policy.zone.dateKey(4 * HOUR) == 0 && THURSDAYS.policy.zone.dateKey(0) == 0
  {
    Zones.ShownAgain(0, 240);
    Zones.ShownAgain(0, 0);
  }

  lemma FourOClockIsEligible()
    ensures Eligible(THURSDAYS, SHORTENED, 0, THURSDAYS.policy.zone.dateKey(4 * HOUR), 4 * HOUR)
  {
    var x := Slots.Inputs(0, 0, 0, THURSDAYS.policy, ShapeOf(SHORTENED), THURSDAYS.sched, []);
    ThursdaysAreInOrder();
    FourOClock();
    assert OpeningWindows.OpenWindows(0, x.sched)[0] == OpeningWindows.Window(0, 1440);
    assert Slots.Grid(x, 0, 4) == 240;
    assert Slots.OnGridOf(x, 0, OpeningWindows.Window(0, 1440), 4 * HOUR);
  }

  function LongAt(startsAt: Instant): Row {
    Row(THURSDAYS.id, startsAt, startsAt + 2 * HOUR, 0, 0, Confirmed, 0, 0, Some(0), None)
  }

  /** Two bookings of two hours each, from 00:00 and from 05:00. */
  function TwoLong(): Table {
    map[0 := LongAt(0), 1 := LongAt(5 * HOUR)]
  }

  lemma OneIsInTheWay()
    ensures WouldConflict(TwoLong(), THURSDAYS, SHORTENED, Some(0), 4 * HOUR) == {}
    ensures WouldBlock(TwoLong(), THURSDAYS.id, 0, 4 * HOUR) == {1}
  {
  }

  method BookTwoLong(env: Env) returns (db: Database)
    ensures fresh(db) && db.Valid() && db.clock == 0 && db.rows == TwoLong()
  {
    db := new Database(env);
    var _ := db.CreateBooking(THURSDAYS.id, Some(LONG), 0, Customer, Confirmed, false, 0, 0);
    assert db.rows == map[0 := LongAt(0)];
    assert Conflicts(db.rows, THURSDAYS.id, 5 * HOUR, 7 * HOUR, None) == {};
    var _ := db.CreateBooking(THURSDAYS.id, Some(LONG), 5 * HOUR, Customer, Confirmed, false, 1, 0);
  }

  /**
   * The two bookings are made, then the service is made an hour long. Moving the first one to
   * 04:00 is offered and refused: it keeps its two hours.
   */
  method MoveAfterShortening(env: Env) returns (r: Result<Option<Saved>, ManageError>)
    ensures THURSDAYS.InSchema() && THURSDAYS.policy.zone.Lawful() && SHORTENED.InSchema()
    ensures Visible(TwoLong(), THURSDAYS.id, 0) && Offered(TwoLong(), THURSDAYS, SHORTENED, Some(0), 4 * HOUR, 0)
    ensures r == Err(Refused(Conflict(1)))
  {
    ThursdaysAreInOrder();
    FourOClockIsEligible();
    OneIsInTheWay();
    OfferedOnExactly(TwoLong(), THURSDAYS, SHORTENED, 0, Some(0), THURSDAYS.policy.zone.dateKey(4 * HOUR), 4 * HOUR);
    var db := BookTwoLong(env);
    assert 1 in WouldBlock(db.rows, THURSDAYS.id, 0, 4 * HOUR);
    r := RescheduleManaged(db, THURSDAYS, Some(0), SHORTENED, 4 * HOUR, 0, 0);
  }
}

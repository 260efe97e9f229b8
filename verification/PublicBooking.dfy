/** Booking from the public page: the offered-slot check, then a create that never forces. */
module PublicBooking {
  import opened Common
  import opened BookingRows
  import opened BookingProtocol
  import opened BookingEngine
  import opened Availability

  datatype CustomerLookup = NewNumber | Known(blocked: bool, heldFuture: nat)

  datatype PublicError = SlotNotAvailable | CustomerBlocked | TooManyBookings | Refused(error: Error)

  /**
   * `bookPublicly`. With nothing else in flight a customer is never told that the time she
   * was offered has gone: the create's check agrees with the availability she saw.
   */
  method BookPublicly(db: Database, b: Business, service: Option<Service>, startsAt: Instant,
                      customer: CustomerLookup, cap: nat, confirmNewCustomers: bool,
                      newId: BookingId, callerNow: Instant, now: Instant)
    returns (r: Result<BookingId, PublicError>)
    requires db.Valid() && db.clock <= now && newId !in db.rows
    requires b.InSchema() && b.policy.zone.Lawful() && (service.Some? ==> service.value.InSchema())
    modifies db
    ensures db.Valid()
    ensures if service.None? || !service.value.active
               || !Offered(old(db.rows), b, service.value, None, startsAt, callerNow) then
              r == Err(SlotNotAvailable) && db.rows == old(db.rows)
            else if customer.Known? && customer.blocked then r == Err(CustomerBlocked) && db.rows == old(db.rows)
            else if customer.Known? && customer.heldFuture >= cap then
              r == Err(TooManyBookings) && db.rows == old(db.rows)
            else
              && r == Ok(newId)
              && db.rows == old(db.rows)[newId := Row(
                   b.id, startsAt, startsAt + service.value.durationMin * 60_000, service.value.bufferBefore,
                   service.value.bufferAfter, if confirmNewCustomers && customer.NewNumber? then Pending else Confirmed,
                   service.value.price, 0, Some(now), None)]
    ensures db.log == if r.Ok? then old(db.log) + [Event(newId, now, Placed(Customer, false, false))] else old(db.log)
    ensures r.Ok? ==> ClearOf(old(db.rows), b.id, service.value, None, startsAt)
  {
    if service.None? || !service.value.active {
      return Err(SlotNotAvailable);
    }
    var offered := IsOffered(db.rows, b, service.value, None, startsAt, callerNow);
    if !offered {
      return Err(SlotNotAvailable);
    }
    if customer.Known? && customer.blocked {
      return Err(CustomerBlocked);
    }
    if customer.Known? && customer.heldFuture >= cap {
      return Err(TooManyBookings);
    }
    var status := if confirmNewCustomers && customer.NewNumber? then Pending else Confirmed;
    var before := db.rows;
    OfferedOnExactly(before, b, service.value, callerNow, None, b.policy.zone.dateKey(startsAt), startsAt);
    ConflictsExactly(before, b.id, ShapeOf(service.value).From(startsAt), ShapeOf(service.value).Until(startsAt), None);
    var saved := db.CreateBooking(b.id, service, startsAt, Customer, status, false, newId, now);
    r := match saved case Ok(_) => Ok(newId) case Err(e) => Err(Refused(e));
  }
}

/**
 * The bookings table: its rows, the interval each row occupies, and the conflict query
 * that the booking writes and the availability read share.
 */
module BookingRows {
  import opened Common

  type BookingId = nat
  type BusinessId = nat

  datatype Actor = Customer | Admin

  datatype Status = Pending | Confirmed | Cancelled | NoShow

  /** The columns that some rule reads. Buffers are minutes; everything else in time is an instant. */
  datatype Row = Row(
    business: BusinessId,
    startsAt: Instant,
    endsAt: Instant,
    bufferBefore: nat,
    bufferAfter: nat,
    status: Status,
    price: nat,
    revision: nat,
    lastCustomerChange: Option<Instant>,
    ownerSeen: Option<Instant>)
  {
    /** Only bookings that are still going to happen take up time. */
    predicate Live() {
      status.Pending? || status.Confirmed?
    }

    /** Kept by a trigger on every write, so it always follows the row's own buffers. */
    function BlocksFrom(): Instant {
      startsAt - Minutes(bufferBefore)
    }

    function BlocksUntil(): Instant {
      endsAt + Minutes(bufferAfter)
    }

    function Size(): Shape {
      Shape(endsAt - startsAt, bufferBefore, bufferAfter)
    }

    /** The unseen-changes badge: the customer changed this since the owner looked. */
    predicate NeedsAttention() {
      lastCustomerChange.Some? && (ownerSeen.None? || ownerSeen.value < lastCustomerChange.value)
    }
  }

  /** What a placement needs to know about a booking apart from its start. */
  datatype Shape = Shape(duration: int, bufferBefore: nat, bufferAfter: nat)
  {
    function From(startsAt: Instant): Instant {
      startsAt - Minutes(bufferBefore)
    }

    function Until(startsAt: Instant): Instant {
      startsAt + duration + Minutes(bufferAfter)
    }
  }

  type Table = map<BookingId, Row>

  function Minutes(n: int): int {
    n * 60_000
  }

  predicate Clash(row: Row, from: Instant, until: Instant) {
    row.BlocksFrom() < until && row.BlocksUntil() > from
  }

  predicate Overlap(a: Row, b: Row) {
    Clash(a, b.BlocksFrom(), b.BlocksUntil())
  }

  predicate Visible(rows: Table, business: BusinessId, id: BookingId) {
    id in rows && rows[id].business == business
  }

  /** A row the conflict query returns; row-level security hides other businesses' rows. */
  predicate InTheWay(row: Row, business: BusinessId, from: Instant, until: Instant) {
    row.business == business && row.Live() && Clash(row, from, until)
  }

  /** The result set of the conflict query, before LIMIT 1 picks any one of it. */
  function Conflicts(rows: Table, business: BusinessId, from: Instant, until: Instant,
                     exclude: Option<BookingId>): set<BookingId>
  {
    set id | id in rows && InTheWay(rows[id], business, from, until) && exclude != Some(id)
  }

  /** Column by column: which rows stand in the way of a booking that wants all of [from, until). */
  lemma ConflictsExactly(rows: Table, business: BusinessId, from: Instant, until: Instant, exclude: Option<BookingId>)
    ensures Conflicts(rows, business, from, until, exclude)
         == set id | id in rows && rows[id].business == business && exclude != Some(id)
                     && (rows[id].status == Pending || rows[id].status == Confirmed)
                     && rows[id].startsAt - rows[id].bufferBefore * 60_000 < until
                     && rows[id].endsAt + rows[id].bufferAfter * 60_000 > from
  {
  }

  // ---------------------------------------------------------------------------
  // How a row may change over time
  // ---------------------------------------------------------------------------

  /**
   * What every committed write keeps: who owns the row, its length, buffers and price; a
   * freed slot stays freed; the revision never goes back, and when it stands still nothing
   * a calendar file shows has moved, except that a pending booking may have been approved.
   */
  predicate Evolves(old_: Row, new_: Row) {
    && new_.business == old_.business
    && new_.Size() == old_.Size()
    && new_.price == old_.price
    && (new_.Live() ==> old_.Live())
    && old_.revision <= new_.revision
    && (old_.revision == new_.revision ==>
          && new_.startsAt == old_.startsAt
          && (new_.status == old_.status || (old_.status.Pending? && new_.status.Confirmed?)))
  }

  lemma EvolvesTransitively(a: Row, b: Row, c: Row)
    requires Evolves(a, b) && Evolves(b, c)
    ensures Evolves(a, c)
  {
  }
}

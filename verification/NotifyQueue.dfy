/**
 * The notification queue: what the booking hooks put on it, what they take off, and what
 * the drainer does with the rest. Rows are kept in the order they were created.
 */
module NotifyQueue {
  import opened Common

  type BookingId = nat
  type BusinessId = nat
  type NotificationId = nat

  datatype Kind = BookingConfirmed | BookingCancelled | Reminder

  datatype Channel = Email | Whatsapp | Sms

  datatype Status = Queued | Sent | Failed | Skipped

  /** The columns of UNIQUE (booking_id, kind, channel). */
  datatype Key = Key(booking: BookingId, kind: Kind, channel: Channel)

  datatype Row = Row(id: NotificationId, business: BusinessId, key: Key, status: Status, sendAfter: Instant, attempts: nat)

  /** What the SELECT before scheduling returns for a booking. */
  datatype Appointment = Appointment(business: BusinessId, startsAt: Instant, reminderLeadMin: Option<int>)
  {
    function RemindAt(): Option<Instant> {
      if reminderLeadMin.Some? then Some(startsAt - reminderLeadMin.value * 60_000) else None
    }
  }

  datatype Event = Created | Cancelled

  /**
   * What a drain's turn at one row comes to: rendering may find nothing to say or throw, the
   * transport answers or throws, and after an answer the mark itself may still throw. A failed
   * mark of a row with nothing to say counts as a rendering that threw: nothing went out.
   */
  datatype Outcome = Gone | Delivered | Refused | Unsendable | RenderThrew | SendThrew | MarkThrew
  {
    /** The exception ends the drain with the row as it was. */
    predicate Throws() {
      RenderThrew? || SendThrew? || MarkThrew?
    }

    predicate HandedOver() {
      !Gone? && !RenderThrew?
    }
  }

  datatype Summary = Summary(considered: nat, sent: nat, failed: nat, skipped: nat)

  /** The table and the next id that was never used. */
  datatype Table = Table(rows: seq<Row>, nextId: NotificationId)

  // ---------------------------------------------------------------------------
  // Rows
  // ---------------------------------------------------------------------------

  function Find(rows: seq<Row>, key: Key): Option<Row> {
    if rows == [] then None else if rows[0].key == key then Some(rows[0]) else Find(rows[1..], key)
  }

  /** INSERT … ON CONFLICT DO NOTHING. */
  function EnqueueFn(t: Table, business: BusinessId, key: Key, sendAfter: Instant): Table {
    if Find(t.rows, key).Some? then t
    else Table(t.rows + [Row(t.nextId, business, key, Queued, sendAfter, 0)], t.nextId + 1)
  }

  predicate Pending(r: Row, business: BusinessId, booking: BookingId) {
    r.business == business && r.key.booking == booking && r.status.Queued?
  }

  /** DELETE of the booking's queued rows. */
  function DropFn(rows: seq<Row>, business: BusinessId, booking: BookingId): seq<Row> {
    if rows == [] then []
    else if Pending(rows[0], business, booking) then DropFn(rows[1..], business, booking)
    else [rows[0]] + DropFn(rows[1..], business, booking)
  }

  function MarkedRow(r: Row, status: Status): Row {
    r.(status := status, attempts := if status.Skipped? then r.attempts else r.attempts + 1)
  }

  /** UPDATE of one row of the current tenant, whatever its status was. */
  function MarkFn(rows: seq<Row>, business: BusinessId, id: NotificationId, status: Status): seq<Row> {
    if rows == [] then []
    else if rows[0].id == id && rows[0].business == business then
      [MarkedRow(rows[0], status)] + MarkFn(rows[1..], business, id, status)
    else [rows[0]] + MarkFn(rows[1..], business, id, status)
  }

  predicate Exists(rows: seq<Row>, business: BusinessId, id: NotificationId) {
    exists i :: 0 <= i < |rows| && rows[i].id == id && rows[i].business == business
  }

  // ---------------------------------------------------------------------------
  // What a booking event schedules
  // ---------------------------------------------------------------------------

  function EnqueueAll(t: Table, business: BusinessId, booking: BookingId, kind: Kind, channels: seq<Channel>,
                      sendAfter: Instant): Table
  {
    if channels == [] then t
    else
      var n := |channels| - 1;
      EnqueueFn(EnqueueAll(t, business, booking, kind, channels[..n], sendAfter), business,
                Key(booking, kind, channels[n]), sendAfter)
  }

  function ImmediateKind(event: Event): Kind {
    if event.Created? then BookingConfirmed else BookingCancelled
  }

  function ScheduleFn(t: Table, booking: BookingId, found: Option<Appointment>, event: Event, channels: seq<Channel>,
                      now: Instant): Table
  {
    match found
    case None => t
    case Some(a) =>
      var told := EnqueueAll(t, a.business, booking, ImmediateKind(event), channels, now);
      if event.Created? && a.RemindAt().Some? && a.RemindAt().value > now then
        EnqueueAll(told, a.business, booking, Reminder, channels, a.RemindAt().value)
      else told
  }

  function DropPending(t: Table, business: BusinessId, booking: BookingId): Table {
    t.(rows := DropFn(t.rows, business, booking))
  }

  function CreatedFn(t: Table, booking: BookingId, found: Option<Appointment>, channels: seq<Channel>, now: Instant): Table {
    ScheduleFn(t, booking, found, Created, channels, now)
  }

  function CancelledFn(t: Table, tenant: BusinessId, booking: BookingId, found: Option<Appointment>,
                       channels: seq<Channel>, now: Instant): Table
  {
    ScheduleFn(DropPending(t, tenant, booking), booking, found, Cancelled, channels, now)
  }

  function RescheduledFn(t: Table, tenant: BusinessId, booking: BookingId, found: Option<Appointment>,
                         channels: seq<Channel>, now: Instant): Table
  {
    ScheduleFn(DropPending(t, tenant, booking), booking, found, Created, channels, now)
  }

  // ---------------------------------------------------------------------------
  // What is due
  // ---------------------------------------------------------------------------

  predicate IsDue(r: Row, business: BusinessId, now: Instant) {
    r.business == business && r.status.Queued? && r.sendAfter <= now
  }

  function DueRows(rows: seq<Row>, business: BusinessId, now: Instant): seq<Row> {
    if rows == [] then []
    else if IsDue(rows[0], business, now) then [rows[0]] + DueRows(rows[1..], business, now)
    else DueRows(rows[1..], business, now)
  }

  function BySendAfter(r: Row): int {
    r.sendAfter
  }

  /** ORDER BY send_after, created_at: the rows are in creation order and the sort is stable. */
  function DueOf(rows: seq<Row>, business: BusinessId, now: Instant): seq<Row> {
    Sort(BySendAfter, DueRows(rows, business, now))
  }

  function Take(s: seq<Row>, n: int): seq<Row> {
    if n <= 0 then [] else if n >= |s| then s else s[..n]
  }

  function Clamp(limit: Option<int>, default: int): int {
    Min(Max(if limit.Some? then limit.value else default, 1), 500)
  }

  /** Everything due, business by business. */
  function AllDue(rows: seq<Row>, businesses: seq<BusinessId>, now: Instant): seq<Row> {
    if businesses == [] then []
    else AllDue(rows, businesses[..|businesses| - 1], now) + DueOf(rows, businesses[|businesses| - 1], now)
  }

  // ---------------------------------------------------------------------------
  // What a drain does
  // ---------------------------------------------------------------------------

  function StatusAfter(o: Outcome): Status {
    match o
    case Gone => Skipped
    case Delivered => Sent
    case Refused => Failed
    case Unsendable => Skipped
    case RenderThrew => Queued
    case SendThrew => Queued
    case MarkThrew => Queued
  }

  /** The notifications the drain gets to: all of them, or those up to the one that threw. */
  function Settled(due: seq<Row>, deliver: Row -> Outcome): seq<Row> {
    if due == [] || deliver(due[0]).Throws() then [] else [due[0]] + Settled(due[1..], deliver)
  }

  /** `deliver` says what rendering, sending and marking each row come to. */
  function MarkAll(rows: seq<Row>, due: seq<Row>, deliver: Row -> Outcome): seq<Row>
    decreases |due|
  {
    if due == [] then rows
    else
      var last := due[|due| - 1];
      MarkFn(MarkAll(rows, due[..|due| - 1], deliver), last.business, last.id, StatusAfter(deliver(last)))
  }

  function DrainFn(rows: seq<Row>, due: seq<Row>, deliver: Row -> Outcome): seq<Row> {
    MarkAll(rows, Settled(due, deliver), deliver)
  }

  function Count(due: seq<Row>, deliver: Row -> Outcome, status: Status): nat {
    if due == [] then 0
    else Count(due[..|due| - 1], deliver, status)
         + (if StatusAfter(deliver(due[|due| - 1])) == status then 1 else 0)
  }

  /** The places of the list whose turn came to this. */
  function With(due: seq<Row>, deliver: Row -> Outcome, outcome: Outcome): set<nat> {
    set k: nat | k < |due| && deliver(due[k]) == outcome
  }

  lemma OneMore(before: set<nat>, after: set<nat>, n: nat, hit: bool)
    requires n !in before && forall k :: k in after <==> k in before || (hit && k == n)
    ensures |after| == |before| + (if hit then 1 else 0)
  {
    assert after == if hit then before + {n} else before;
  }

  lemma WithOneMore(due: seq<Row>, deliver: Row -> Outcome, outcome: Outcome)
    requires due != []
    ensures var n := |due| - 1;
            |With(due, deliver, outcome)|
            == |With(due[..n], deliver, outcome)| + (if deliver(due[n]) == outcome then 1 else 0)
  {
    var n := |due| - 1;
    forall k: nat ensures k in With(due, deliver, outcome)
                     <==> k in With(due[..n], deliver, outcome) || (deliver(due[n]) == outcome && k == n) {
      if k < n {
        assert due[..n][k] == due[k];
      }
    }
    OneMore(With(due[..n], deliver, outcome), With(due, deliver, outcome), n, deliver(due[n]) == outcome);
  }

  /** The counters: what was delivered, what was refused, and what had nothing to say or could not be sent. */
  lemma {:induction false} CountsExactly(due: seq<Row>, deliver: Row -> Outcome)
    ensures Count(due, deliver, Sent) == |With(due, deliver, Delivered)|
    ensures Count(due, deliver, Failed) == |With(due, deliver, Refused)|
    ensures Count(due, deliver, Skipped) == |With(due, deliver, Gone)| + |With(due, deliver, Unsendable)|
  {
    if due == [] {
      assert forall o: Outcome :: With(due, deliver, o) == {};
    } else {
      CountsExactly(due[..|due| - 1], deliver);
      WithOneMore(due, deliver, Delivered);
      WithOneMore(due, deliver, Refused);
      WithOneMore(due, deliver, Gone);
      WithOneMore(due, deliver, Unsendable);
    }
  }

  // ---------------------------------------------------------------------------
  // The queue
  // ---------------------------------------------------------------------------

  lemma {:induction false} MarkNothing(rows: seq<Row>, business: BusinessId, id: NotificationId, status: Status)
    requires !Exists(rows, business, id)
    ensures MarkFn(rows, business, id, status) == rows
  {
    if rows != [] {
      assert !Exists(rows[1..], business, id) by {
        assert forall i :: 0 <= i < |rows[1..]| ==> rows[1..][i] == rows[i + 1];
      }
      assert !(rows[0].id == id && rows[0].business == business);
      MarkNothing(rows[1..], business, id, status);
    }
  }

  lemma {:induction false} DropAppends(a: seq<Row>, r: Row, business: BusinessId, booking: BookingId)
    ensures DropFn(a + [r], business, booking)
         == if Pending(r, business, booking) then DropFn(a, business, booking) else DropFn(a, business, booking) + [r]
  {
    if a == [] {
      assert [] + [r] == [r];
    } else {
      assert (a + [r])[1..] == a[1..] + [r];
      DropAppends(a[1..], r, business, booking);
    }
  }

  lemma {:induction false} MarkAppends(a: seq<Row>, r: Row, business: BusinessId, id: NotificationId, status: Status)
    ensures MarkFn(a + [r], business, id, status)
         == MarkFn(a, business, id, status)
            + [if r.id == id && r.business == business then MarkedRow(r, status) else r]
  {
    if a == [] {
      assert [] + [r] == [r];
    } else {
      assert (a + [r])[1..] == a[1..] + [r];
      MarkAppends(a[1..], r, business, id, status);
    }
  }

  lemma {:induction false} DueAppends(a: seq<Row>, r: Row, business: BusinessId, now: Instant)
    ensures DueRows(a + [r], business, now)
         == if IsDue(r, business, now) then DueRows(a, business, now) + [r] else DueRows(a, business, now)
  {
    if a == [] {
      assert [] + [r] == [r];
    } else {
      assert (a + [r])[1..] == a[1..] + [r];
      DueAppends(a[1..], r, business, now);
    }
  }

  class Queue {
    var rows: seq<Row>
    var nextId: NotificationId

    function State(): Table
      reads this
    {
      Table(rows, nextId)
    }

    constructor ()
      ensures State() == Table([], 0)
    {
      rows, nextId := [], 0;
    }

    /** The new id, or none when this exact notification is already on the table. */
    method Enqueue(business: BusinessId, key: Key, sendAfter: Instant) returns (id: Option<NotificationId>)
      modifies this
      ensures State() == EnqueueFn(old(State()), business, key, sendAfter)
      ensures id == if Find(old(rows), key).Some? then None else Some(old(nextId))
    {
      if Find(rows, key).Some? {
        return None;
      }
      id := Some(nextId);
      rows := rows + [Row(nextId, business, key, Queued, sendAfter, 0)];
      nextId := nextId + 1;
    }

    method ListDue(tenant: BusinessId, now: Instant, limit: Option<int>) returns (due: seq<Row>)
      ensures due == Take(DueOf(rows, tenant, now), Clamp(limit, 50))
    {
      var found: seq<Row> := [];
      for i := 0 to |rows|
        invariant found == DueRows(rows[..i], tenant, now)
      {
        DueAppends(rows[..i], rows[i], tenant, now);
        assert rows[..i + 1] == rows[..i] + [rows[i]];
        if IsDue(rows[i], tenant, now) {
          found := found + [rows[i]];
        }
      }
      assert rows[..|rows|] == rows;
      due := Take(Sort(BySendAfter, found), Clamp(limit, 50));
    }

    /** Says whether a row of this tenant changed; a wrong id or tenant changes nothing. */
    method Mark(tenant: BusinessId, id: NotificationId, status: Status) returns (changed: bool)
      modifies this`rows
      ensures rows == MarkFn(old(rows), tenant, id, status)
      ensures changed <==> Exists(old(rows), tenant, id)
      ensures !changed ==> rows == old(rows)
    {
      changed := false;
      var after: seq<Row> := [];
      for i := 0 to |rows|
        invariant rows == old(rows) && after == MarkFn(rows[..i], tenant, id, status)
        invariant changed <==> Exists(rows[..i], tenant, id)
      {
        MarkAppends(rows[..i], rows[i], tenant, id, status);
        assert rows[..i + 1] == rows[..i] + [rows[i]];
        ExistsAppends(rows[..i], rows[i], tenant, id);
        var hit := rows[i].id == id && rows[i].business == tenant;
        after := after + [if hit then MarkedRow(rows[i], status) else rows[i]];
        changed := changed || hit;
      }
      assert rows[..|rows|] == rows;
      if !changed {
        MarkNothing(rows, tenant, id, status);
      }
      rows := after;
    }

    method DropPendingForBooking(tenant: BusinessId, booking: BookingId) returns (dropped: nat)
      modifies this`rows
      ensures State() == DropPending(old(State()), tenant, booking)
      ensures dropped == |old(rows)| - |rows|
    {
      dropped := 0;
      var kept: seq<Row> := [];
      for i := 0 to |rows|
        invariant rows == old(rows) && kept == DropFn(rows[..i], tenant, booking) && |kept| + dropped == i
      {
        DropAppends(rows[..i], rows[i], tenant, booking);
        assert rows[..i + 1] == rows[..i] + [rows[i]];
        if Pending(rows[i], tenant, booking) {
          dropped := dropped + 1;
        } else {
          kept := kept + [rows[i]];
        }
      }
      assert rows[..|rows|] == rows;
      rows := kept;
    }

    method EnqueueEach(business: BusinessId, booking: BookingId, kind: Kind, channels: seq<Channel>, sendAfter: Instant)
      returns (queued: seq<NotificationId>)
      modifies this
      ensures State() == EnqueueAll(old(State()), business, booking, kind, channels, sendAfter)
      ensures |queued| == |rows| - |old(rows)|
    {
      queued := [];
      for i := 0 to |channels|
        invariant State() == EnqueueAll(old(State()), business, booking, kind, channels[..i], sendAfter)
        invariant |queued| == |rows| - |old(rows)|
      {
        assert channels[..i + 1][..i] == channels[..i];
        var id := Enqueue(business, Key(booking, kind, channels[i]), sendAfter);
        if id.Some? {
          queued := queued + [id.value];
        }
      }
      assert channels[..|channels|] == channels;
    }

    method ScheduleForBooking(booking: BookingId, found: Option<Appointment>, event: Event, channels: seq<Channel>,
                              now: Instant)
      returns (queued: seq<NotificationId>)
      modifies this
      ensures State() == ScheduleFn(old(State()), booking, found, event, channels, now)
      ensures |queued| == |rows| - |old(rows)|
    {
      if |channels| == 0 {
        return [];
      }
      if found.None? {
        return [];
      }
      var a := found.value;
      queued := EnqueueEach(a.business, booking, ImmediateKind(event), channels, now);
      if !event.Created? {
        return;
      }
      if a.reminderLeadMin.None? {
        return;
      }
      var remindAt := a.startsAt - a.reminderLeadMin.value * 60_000;
      if remindAt <= now {
        return;
      }
      var more := EnqueueEach(a.business, booking, Reminder, channels, remindAt);
      queued := queued + more;
    }

    method AfterBookingCreated(booking: BookingId, found: Option<Appointment>, channels: seq<Channel>, now: Instant)
      modifies this
      ensures State() == CreatedFn(old(State()), booking, found, channels, now)
    {
      if |channels| == 0 {
        return;
      }
      var _ := ScheduleForBooking(booking, found, Created, channels, now);
    }

    /** Dropping comes first and happens even when no channel is configured. */
    method AfterBookingCancelled(tenant: BusinessId, booking: BookingId, found: Option<Appointment>,
                                 channels: seq<Channel>, now: Instant)
      modifies this
      ensures State() == CancelledFn(old(State()), tenant, booking, found, channels, now)
    {
      var _ := DropPendingForBooking(tenant, booking);
      if |channels| == 0 {
        return;
      }
      var _ := ScheduleForBooking(booking, found, Cancelled, channels, now);
    }

    method AfterBookingRescheduled(tenant: BusinessId, booking: BookingId, found: Option<Appointment>,
                                   channels: seq<Channel>, now: Instant)
      modifies this
      ensures State() == RescheduledFn(old(State()), tenant, booking, found, channels, now)
    {
      var _ := DropPendingForBooking(tenant, booking);
      if |channels| == 0 {
        return;
      }
      var _ := ScheduleForBooking(booking, found, Created, channels, now);
    }

    /** The first `limit` of everything due, business by business. */
    method ListDueAcrossTenants(businesses: seq<BusinessId>, now: Instant, limit: Option<int>)
      returns (collected: seq<Row>)
      ensures collected == Take(AllDue(rows, businesses, now), Clamp(limit, 100))
    {
      var n := Clamp(limit, 100);
      collected := [];
      for i := 0 to |businesses|
        invariant collected == Take(AllDue(rows, businesses[..i], now), n)
      {
        if |collected| >= n {
          TakeIsFull(rows, businesses, now, n, i);
          break;
        }
        var due := ListDue(businesses[i], now, Some(n - |collected|));
        OneMoreBusiness(rows, businesses, now, i);
        TakeSplits(AllDue(rows, businesses[..i], now), DueOf(rows, businesses[i], now), n);
        collected := collected + due;
      }
      assert businesses[..|businesses|] == businesses;
    }

    /** One pass of the drainer; a turn that throws ends it where it stands. */
    method DrainDue(businesses: seq<BusinessId>, now: Instant, limit: Option<int>, deliver: Row -> Outcome)
      returns (summary: Option<Summary>)
      modifies this`rows
      ensures var due := Take(AllDue(old(rows), businesses, now), Clamp(limit, 100));
              && rows == DrainFn(old(rows), due, deliver)
              && (summary.None? <==> Settled(due, deliver) != due)
              && (summary.Some? ==>
                    summary.value == Summary(|due|, |With(due, deliver, Delivered)|, |With(due, deliver, Refused)|,
                                             |With(due, deliver, Gone)| + |With(due, deliver, Unsendable)|))
    {
      var due := ListDueAcrossTenants(businesses, now, limit);
      var sent, failed, skipped := 0, 0, 0;
      for i := 0 to |due|
        invariant rows == MarkAll(old(rows), due[..i], deliver) && Settled(due[..i], deliver) == due[..i]
        invariant sent == Count(due[..i], deliver, Sent)
        invariant failed == Count(due[..i], deliver, Failed)
        invariant skipped == Count(due[..i], deliver, Skipped)
      {
        var n := due[i];
        OneMoreMarked(old(rows), due, deliver, i);
        SettledSplits(due, deliver, i);
        var outcome := deliver(n);
        if outcome.Throws() {
          return None;
        }
        var _ := Mark(n.business, n.id, StatusAfter(outcome));
        match StatusAfter(outcome)
        case Sent => sent := sent + 1;
        case Failed => failed := failed + 1;
        case Skipped => skipped := skipped + 1;
      }
      assert due[..|due|] == due;
      CountsExactly(due, deliver);
      summary := Some(Summary(|due|, sent, failed, skipped));
    }
  }

  lemma OneMoreBusiness(rows: seq<Row>, businesses: seq<BusinessId>, now: Instant, i: nat)
    requires i < |businesses|
    ensures AllDue(rows, businesses[..i + 1], now)
         == AllDue(rows, businesses[..i], now) + DueOf(rows, businesses[i], now)
  {
    assert businesses[..i + 1][..i] == businesses[..i];
  }

  lemma OneMoreMarked(rows: seq<Row>, due: seq<Row>, deliver: Row -> Outcome, i: nat)
    requires i < |due|
    ensures MarkAll(rows, due[..i + 1], deliver)
         == MarkFn(MarkAll(rows, due[..i], deliver), due[i].business, due[i].id, StatusAfter(deliver(due[i])))
    ensures forall status ::
      Count(due[..i + 1], deliver, status)
      == Count(due[..i], deliver, status) + (if StatusAfter(deliver(due[i])) == status then 1 else 0)
  {
    assert due[..i + 1][..i] == due[..i];
  }

  lemma ExistsAppends(a: seq<Row>, r: Row, business: BusinessId, id: NotificationId)
    ensures Exists(a + [r], business, id) <==> Exists(a, business, id) || (r.id == id && r.business == business)
  {
    if Exists(a, business, id) {
      var i :| 0 <= i < |a| && a[i].id == id && a[i].business == business;
      assert (a + [r])[i] == a[i];
    }
    if r.id == id && r.business == business {
      assert (a + [r])[|a|] == r;
    }
  }

  lemma TakeSplits(a: seq<Row>, b: seq<Row>, n: int)
    requires 0 < n <= 500
    ensures |Take(a, n)| < n ==>
      1 <= n - |Take(a, n)| <= 500 && Take(a + b, n) == Take(a, n) + Take(b, n - |Take(a, n)|)
  {
  }

  lemma {:induction false} AllDueGrows(rows: seq<Row>, businesses: seq<BusinessId>, now: Instant, i: nat)
    requires i <= |businesses|
    ensures |AllDue(rows, businesses[..i], now)| <= |AllDue(rows, businesses, now)|
    ensures AllDue(rows, businesses, now)[..|AllDue(rows, businesses[..i], now)|] == AllDue(rows, businesses[..i], now)
  {
    if i < |businesses| {
      var front := businesses[..|businesses| - 1];
      AllDueGrows(rows, front, now, i);
      assert front[..i] == businesses[..i];
    } else {
      assert businesses[..i] == businesses;
    }
  }

  lemma TakeIsFull(rows: seq<Row>, businesses: seq<BusinessId>, now: Instant, n: int, i: nat)
    requires i <= |businesses| && n > 0 && |Take(AllDue(rows, businesses[..i], now), n)| >= n
    ensures Take(AllDue(rows, businesses[..i], now), n) == Take(AllDue(rows, businesses, now), n)
  {
    AllDueGrows(rows, businesses, now, i);
    var part := AllDue(rows, businesses[..i], now);
    assert Take(part, n) == part[..n];
    assert AllDue(rows, businesses, now)[..n] == AllDue(rows, businesses, now)[..|part|][..n];
  }

  /** If everything before `i` was settled, the drain stops at `i` exactly when that one throws. */
  lemma {:induction false} SettledSplits(due: seq<Row>, deliver: Row -> Outcome, i: nat)
    requires i < |due| && Settled(due[..i], deliver) == due[..i]
    ensures deliver(due[i]).Throws() ==> Settled(due, deliver) == due[..i]
    ensures !deliver(due[i]).Throws() ==> Settled(due[..i + 1], deliver) == due[..i + 1]
    decreases i
  {
    if i == 0 {
      assert due[..1][1..] == [];
    } else {
      assert due[..i][0] == due[0] && due[..i][1..] == due[1..][..i - 1];
      assert due[..i + 1][1..] == due[1..][..i];
      assert Settled(due[1..][..i - 1], deliver) == due[1..][..i - 1];
      SettledSplits(due[1..], deliver, i - 1);
    }
  }
}

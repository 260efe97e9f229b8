/**
 * What each operation of the queue does, row by row and column by column: for any table, any
 * booking, any channels and any limit.
 */
module NotifyEffects {
  import opened Common
  import opened NotifyQueue
  import opened NotifyTable
  import opened NotifyDrain

  ghost predicate HasKey(rows: seq<Row>, key: Key) {
    exists r :: r in rows && r.key == key
  }

  lemma FindExactly(rows: seq<Row>, key: Key)
    ensures Find(rows, key).Some? <==> HasKey(rows, key)
    ensures Find(rows, key).Some? ==> Find(rows, key).value in rows && Find(rows, key).value.key == key
  {
    FindFinds(rows, key);
    if r :| r in rows && r.key == key {
      assert KeyOf(r) == key;
    }
  }

  /** A limit is used as it is between 1 and 500, and otherwise moved to the nearer end. */
  lemma LimitExactly(n: int, default: int)
    requires 1 <= default <= 500
    ensures Clamp(None, default) == default
    ensures Clamp(Some(n), default) == if n < 1 then 1 else if n > 500 then 500 else n
  {
  }

  /** One row more, queued and unattempted, unless the key is on the table. */
  lemma EnqueueExactly(t: Table, business: BusinessId, key: Key, sendAfter: Instant)
    ensures HasKey(t.rows, key) ==> EnqueueFn(t, business, key, sendAfter) == t
    ensures !HasKey(t.rows, key) ==>
      EnqueueFn(t, business, key, sendAfter)
      == Table(t.rows + [Row(t.nextId, business, key, Queued, sendAfter, 0)], t.nextId + 1)
  {
    FindExactly(t.rows, key);
  }

  /** The tenant's row with this id gets the status, and an attempt more unless it was skipped; no other row changes. */
  lemma MarkExactly(rows: seq<Row>, business: BusinessId, id: NotificationId, status: Status, i: nat)
    requires i < |rows|
    ensures |MarkFn(rows, business, id, status)| == |rows|
    ensures MarkFn(rows, business, id, status)[i]
         == if rows[i].id == id && rows[i].business == business then
              rows[i].(status := status, attempts := rows[i].attempts + if status == Skipped then 0 else 1)
            else rows[i]
  {
    MarkAt(rows, business, id, status);
  }

  /** The booking's queued rows go, the others stay in their order. */
  lemma DropExactly(t: Table, business: BusinessId, booking: BookingId)
    requires Tidy(t)
    ensures forall r :: r in DropFn(t.rows, business, booking) <==>
      r in t.rows && !(r.business == business && r.key.booking == booking && r.status == Queued)
    ensures Rises(DropFn(t.rows, business, booking))
  {
    DroppedRows(t.rows, business, booking);
    DropRises(t.rows, business, booking);
  }

  // ---------------------------------------------------------------------------
  // Scheduling
  // ---------------------------------------------------------------------------

  /** A row put on the table for this booking: queued, unattempted, on one of the channels, under a key it had not. */
  ghost predicate Added(t: Table, business: BusinessId, booking: BookingId, kind: Kind, channels: seq<Channel>,
                        sendAfter: Instant, r: Row)
  {
    && r.business == business && r.key.booking == booking && r.key.kind == kind && r.key.channel in channels
    && r.status == Queued && r.sendAfter == sendAfter && r.attempts == 0 && t.nextId <= r.id
    && !HasKey(t.rows, r.key)
  }

  /** Everything that was there stays in place, what is new is as `Added` says, and no channel is left out. */
  ghost predicate Extends(t: Table, after: Table) {
    |t.rows| <= |after.rows| && after.rows[..|t.rows|] == t.rows && t.nextId <= after.nextId
  }

  lemma ExtendsChains(a: Table, b: Table, c: Table)
    requires Extends(a, b) && Extends(b, c)
    ensures Extends(a, c)
  {
    assert c.rows[..|a.rows|] == c.rows[..|b.rows|][..|a.rows|];
  }

  lemma ExtendsKeeps(t: Table, after: Table)
    requires Extends(t, after)
    ensures forall r :: r in t.rows ==> r in after.rows
    ensures forall key :: HasKey(t.rows, key) ==> HasKey(after.rows, key)
  {
    forall r | r in t.rows ensures r in after.rows {
      assert r in after.rows[..|t.rows|];
    }
  }

  lemma {:induction false} EnqueueAllExactly(t: Table, business: BusinessId, booking: BookingId, kind: Kind,
                                             channels: seq<Channel>, sendAfter: Instant)
    ensures var after := EnqueueAll(t, business, booking, kind, channels, sendAfter);
      && Extends(t, after)
      && (forall r :: r in after.rows && r !in t.rows ==> Added(t, business, booking, kind, channels, sendAfter, r))
      && (forall c :: c in channels ==> HasKey(after.rows, Key(booking, kind, c)))
  {
    if channels != [] {
      var n := |channels| - 1;
      var front, key := channels[..n], Key(booking, kind, channels[n]);
      var sofar := EnqueueAll(t, business, booking, kind, front, sendAfter);
      EnqueueAllExactly(t, business, booking, kind, front, sendAfter);
      assert channels == front + [channels[n]];
      OneMoreEnqueued(t, sofar, business, booking, kind, front, channels[n], sendAfter);
    }
  }

  lemma OneMoreEnqueued(t: Table, sofar: Table, business: BusinessId, booking: BookingId, kind: Kind,
                        front: seq<Channel>, channel: Channel, sendAfter: Instant)
    requires Extends(t, sofar)
    requires forall r :: r in sofar.rows && r !in t.rows ==> Added(t, business, booking, kind, front, sendAfter, r)
    requires forall c :: c in front ==> HasKey(sofar.rows, Key(booking, kind, c))
    ensures var after := EnqueueFn(sofar, business, Key(booking, kind, channel), sendAfter);
      && Extends(t, after)
      && (forall r :: r in after.rows && r !in t.rows ==>
            Added(t, business, booking, kind, front + [channel], sendAfter, r))
      && (forall c :: c in front + [channel] ==> HasKey(after.rows, Key(booking, kind, c)))
  {
    var key := Key(booking, kind, channel);
    var after := EnqueueFn(sofar, business, key, sendAfter);
    EnqueueExactly(sofar, business, key, sendAfter);
    ExtendsKeeps(t, sofar);
    assert Extends(sofar, after);
    ExtendsKeeps(sofar, after);
    ExtendsChains(t, sofar, after);
    if !HasKey(sofar.rows, key) {
      var r := Row(sofar.nextId, business, key, Queued, sendAfter, 0);
      assert r in after.rows && r.key == key;
    }
  }

  /** When the business wants a reminder and its moment is still to come. */
  predicate ReminderWanted(a: Appointment, now: Instant) {
    a.reminderLeadMin.Some? && a.startsAt - a.reminderLeadMin.value * 60_000 > now
  }

  /**
   * The table's rows stay in place; for the event and each channel there is a confirmation or
   * a notice, due at once, and for a new or moved booking a reminder, due its lead before the
   * start; each was added only where its key was free, and nothing else was.
   */
  ghost predicate Scheduled(t: Table, after: Table, booking: BookingId, a: Appointment, event: Event,
                            channels: seq<Channel>, now: Instant)
  {
    var told := if event == Created then BookingConfirmed else BookingCancelled;
    var reminded := event == Created && ReminderWanted(a, now);
    && Extends(t, after)
    && (forall r :: r in after.rows && r !in t.rows ==>
          || Added(t, a.business, booking, told, channels, now, r)
          || (reminded
              && Added(t, a.business, booking, Reminder, channels, a.startsAt - a.reminderLeadMin.value * 60_000, r)))
    && (forall c :: c in channels ==>
          HasKey(after.rows, Key(booking, told, c)) && (reminded ==> HasKey(after.rows, Key(booking, Reminder, c))))
  }

  lemma ToldOnly(t: Table, booking: BookingId, a: Appointment, event: Event, channels: seq<Channel>, now: Instant)
    requires !(event == Created && ReminderWanted(a, now))
    ensures var told := if event == Created then BookingConfirmed else BookingCancelled;
            Scheduled(t, EnqueueAll(t, a.business, booking, told, channels, now), booking, a, event, channels, now)
  {
    var told := if event == Created then BookingConfirmed else BookingCancelled;
    EnqueueAllExactly(t, a.business, booking, told, channels, now);
  }

  lemma AddedLater(t: Table, first: Table, business: BusinessId, booking: BookingId, kind: Kind, channels: seq<Channel>,
                   sendAfter: Instant, r: Row)
    requires Extends(t, first) && Added(first, business, booking, kind, channels, sendAfter, r)
    ensures Added(t, business, booking, kind, channels, sendAfter, r)
  {
    ExtendsKeeps(t, first);
  }

  lemma TwoRounds(t: Table, first: Table, after: Table, booking: BookingId, a: Appointment, channels: seq<Channel>,
                  now: Instant, remindAt: Instant)
    requires ReminderWanted(a, now) && remindAt == a.startsAt - a.reminderLeadMin.value * 60_000
    requires Extends(t, first) && Extends(first, after)
    requires forall r :: r in first.rows && r !in t.rows ==>
               Added(t, a.business, booking, BookingConfirmed, channels, now, r)
    requires forall r :: r in after.rows && r !in first.rows ==>
               Added(first, a.business, booking, Reminder, channels, remindAt, r)
    requires forall c :: c in channels ==> HasKey(first.rows, Key(booking, BookingConfirmed, c))
    requires forall c :: c in channels ==> HasKey(after.rows, Key(booking, Reminder, c))
    ensures Scheduled(t, after, booking, a, Created, channels, now)
  {
    ExtendsChains(t, first, after);
    ExtendsKeeps(first, after);
    forall r | r in after.rows && r !in t.rows
      ensures || Added(t, a.business, booking, BookingConfirmed, channels, now, r)
              || Added(t, a.business, booking, Reminder, channels, remindAt, r)
    {
      if r !in first.rows {
        AddedLater(t, first, a.business, booking, Reminder, channels, remindAt, r);
      }
    }
  }

  lemma ToldAndReminded(t: Table, first: Table, after: Table, booking: BookingId, a: Appointment,
                        channels: seq<Channel>, now: Instant, remindAt: Instant)
    requires ReminderWanted(a, now) && remindAt == a.startsAt - a.reminderLeadMin.value * 60_000
    requires first == EnqueueAll(t, a.business, booking, BookingConfirmed, channels, now)
    requires after == EnqueueAll(first, a.business, booking, Reminder, channels, remindAt)
    ensures Scheduled(t, after, booking, a, Created, channels, now)
  {
    EnqueueAllExactly(t, a.business, booking, BookingConfirmed, channels, now);
    EnqueueAllExactly(first, a.business, booking, Reminder, channels, remindAt);
    TwoRounds(t, first, after, booking, a, channels, now, remindAt);
  }

  /** What scheduling adds; a booking that is not there, or no channel at all, adds nothing. */
  lemma ScheduleExactly(t: Table, booking: BookingId, a: Appointment, event: Event, channels: seq<Channel>, now: Instant)
    ensures ScheduleFn(t, booking, None, event, channels, now) == t == ScheduleFn(t, booking, Some(a), event, [], now)
    ensures Scheduled(t, ScheduleFn(t, booking, Some(a), event, channels, now), booking, a, event, channels, now)
  {
    var told := if event == Created then BookingConfirmed else BookingCancelled;
    var first := EnqueueAll(t, a.business, booking, told, channels, now);
    ScheduleIs(t, booking, a, event, channels, now, first);
    if event == Created && ReminderWanted(a, now) {
      var remindAt := a.startsAt - a.reminderLeadMin.value * 60_000;
      ToldAndReminded(t, first, EnqueueAll(first, a.business, booking, Reminder, channels, remindAt), booking, a,
                      channels, now, remindAt);
    } else {
      ToldOnly(t, booking, a, event, channels, now);
    }
  }

  /**
   * The three hooks: a new booking is scheduled as it is; a cancelled or a moved one first
   * loses what was waiting for it.
   */
  lemma HooksExactly(t: Table, tenant: BusinessId, booking: BookingId, a: Appointment, channels: seq<Channel>, now: Instant)
    ensures Scheduled(t, CreatedFn(t, booking, Some(a), channels, now), booking, a, Created, channels, now)
    ensures var left := Table(DropFn(t.rows, tenant, booking), t.nextId);
      && Scheduled(left, CancelledFn(t, tenant, booking, Some(a), channels, now), booking, a,
                   Event.Cancelled, channels, now)
      && Scheduled(left, RescheduledFn(t, tenant, booking, Some(a), channels, now), booking, a, Created, channels, now)
  {
    var left := Table(DropFn(t.rows, tenant, booking), t.nextId);
    ScheduleExactly(t, booking, a, Created, channels, now);
    ScheduleExactly(left, booking, a, Event.Cancelled, channels, now);
    ScheduleExactly(left, booking, a, Created, channels, now);
  }

  // ---------------------------------------------------------------------------
  // Listing
  // ---------------------------------------------------------------------------

  lemma {:induction false} OldestFirstMeans(s: seq<Row>, i: nat, j: nat)
    requires OldestFirst(s) && i < j < |s|
    ensures s[i].sendAfter < s[j].sendAfter || (s[i].sendAfter == s[j].sendAfter && s[i].id < s[j].id)
  {
    if i == 0 {
      assert s[j] == s[1..][j - 1];
      assert s[j] in s[1..];
    } else {
      OldestFirstMeans(s[1..], i - 1, j - 1);
    }
  }

  /** A tenant's listing: every row of its own that is queued and due, once, by send time and then by creation. */
  lemma ListingExactly(t: Table, business: BusinessId, now: Instant)
    requires Tidy(t)
    ensures var due := DueOf(t.rows, business, now);
      && (forall r :: r in due <==> r in t.rows && r.business == business && r.status == Queued && r.sendAfter <= now)
      && (forall i, j :: 0 <= i < j < |due| ==>
            due[i].sendAfter < due[j].sendAfter || (due[i].sendAfter == due[j].sendAfter && due[i].id < due[j].id))
  {
    var due := DueOf(t.rows, business, now);
    DueIsOldestFirst(t, business, now);
    forall i, j | 0 <= i < j < |due|
      ensures due[i].sendAfter < due[j].sendAfter || (due[i].sendAfter == due[j].sendAfter && due[i].id < due[j].id)
    {
      OldestFirstMeans(due, i, j);
    }
  }

  /** Over all tenants: every due row of each, and each tenant's listing after those before it. */
  lemma ListingOverTenants(rows: seq<Row>, businesses: seq<BusinessId>, now: Instant, i: nat)
    requires i < |businesses|
    ensures forall r :: r in AllDue(rows, businesses, now) <==>
      r in rows && r.business in businesses && r.status == Queued && r.sendAfter <= now
    ensures AllDue(rows, businesses[..i + 1], now)
         == AllDue(rows, businesses[..i], now) + DueOf(rows, businesses[i], now)
  {
    AllDueAre(rows, businesses, now);
    OneMoreBusiness(rows, businesses, now, i);
  }

  // ---------------------------------------------------------------------------
  // Draining
  // ---------------------------------------------------------------------------

  predicate Threw(o: Outcome) {
    o in {RenderThrew, SendThrew, MarkThrew}
  }

  /** The drain gets past this place of its list: neither it nor anything before it throws. */
  ghost predicate Passes(due: seq<Row>, deliver: Row -> Outcome, k: nat) {
    k < |due| && forall j :: 0 <= j <= k ==> !Threw(deliver(due[j]))
  }

  lemma {:induction false} SettledExactly(due: seq<Row>, deliver: Row -> Outcome)
    ensures |Settled(due, deliver)| <= |due| && Settled(due, deliver) == due[..|Settled(due, deliver)|]
    ensures forall k: nat :: k < |Settled(due, deliver)| <==> Passes(due, deliver, k)
  {
    if due != [] {
      SettledExactly(due[1..], deliver);
      if !Threw(deliver(due[0])) {
        assert Settled(due, deliver) == [due[0]] + Settled(due[1..], deliver);
        forall k: nat ensures k < |Settled(due, deliver)| <==> Passes(due, deliver, k) {
          PassesStep(due, deliver, k);
        }
      }
    }
  }

  lemma PassesStep(due: seq<Row>, deliver: Row -> Outcome, k: nat)
    requires due != [] && !Threw(deliver(due[0]))
    ensures Passes(due, deliver, k) <==> k == 0 || Passes(due[1..], deliver, k - 1)
  {
    if k > 0 {
      assert forall j :: 0 <= j < |due[1..]| ==> due[1..][j] == due[j + 1];
      assert forall j :: 1 <= j < |due| ==> due[j] == due[1..][j - 1];
    }
  }

  /**
   * A drain, outcome by outcome: a row it gets past is sent if the transport delivered it,
   * failed if the transport refused it, each with one attempt more, and skipped if there was
   * nothing to say or the transport could not send it. Every other row stays as it was.
   */
  lemma DrainExactly(t: Table, businesses: seq<BusinessId>, now: Instant, limit: Option<int>, deliver: Row -> Outcome,
                     due: seq<Row>, i: nat)
    requires Tidy(t) && i < |t.rows|
    requires forall j, k :: 0 <= j < k < |businesses| ==> businesses[j] != businesses[k]
    requires due == Take(AllDue(t.rows, businesses, now), Clamp(limit, 100))
    ensures |DrainFn(t.rows, due, deliver)| == |t.rows|
    ensures DrainFn(t.rows, due, deliver)[i]
         == if exists k: nat :: Passes(due, deliver, k) && due[k] == t.rows[i]
            then (match deliver(t.rows[i])
                  case Delivered => t.rows[i].(status := Sent, attempts := t.rows[i].attempts + 1)
                  case Refused => t.rows[i].(status := Failed, attempts := t.rows[i].attempts + 1)
                  case _ => t.rows[i].(status := Skipped))
            else t.rows[i]
  {
    var settled := Settled(due, deliver);
    DistinctIdsMean(businesses);
    DrainChangesExactlyTheSettled(t, businesses, now, limit, deliver, due, i);
    SettledExactly(due, deliver);
    SettledDoNotThrow(due, deliver);
    if k: nat :| Passes(due, deliver, k) && due[k] == t.rows[i] {
      assert settled[k] == due[k];
    }
    if t.rows[i] in settled {
      var k :| 0 <= k < |settled| && settled[k] == t.rows[i];
      assert Passes(due, deliver, k) && due[k] == t.rows[i];
    }
  }
}

/**
 * The queue over whole runs, with each booking write and its hook taken as one step: what
 * a queued row promises about its booking, and that nobody is told the same thing twice.
 */
module NotifyTheorems {
  import opened Common
  import opened NotifyQueue
  import opened NotifyTable

  // ---------------------------------------------------------------------------
  // Runs
  // ---------------------------------------------------------------------------

  datatype Booking = Booking(business: BusinessId, startsAt: Instant, cancelled: bool)

  /** One message given to the transport, and what came of it. */
  datatype HandOver = HandOver(key: Key, outcome: Outcome)
  {
    /** The transport threw, or it answered and the answer was never recorded. */
    predicate Unrecorded() {
      outcome.SendThrew? || outcome.MarkThrew?
    }
  }

  datatype World = World(bookings: map<BookingId, Booking>, table: Table, handed: seq<HandOver>)

  /** Reminder leads and the list of businesses, fixed for the run. */
  datatype Setup = Setup(lead: BusinessId -> Option<int>, businesses: seq<BusinessId>)

  datatype Step =
    | Book(id: BookingId, business: BusinessId, startsAt: Instant, channels: seq<Channel>, now: Instant)
    | Move(id: BookingId, startsAt: Instant, channels: seq<Channel>, now: Instant)
    | CallOff(id: BookingId, channels: seq<Channel>, now: Instant)
    | Report(business: BusinessId, notification: NotificationId, status: Status)
    | Drain(now: Instant, limit: Option<int>, deliver: Row -> Outcome)

  const NOTHING: World := World(map[], Table([], 0), [])

  function FoundFor(setup: Setup, b: Booking): Option<Appointment> {
    Some(Appointment(b.business, b.startsAt, setup.lead(b.business)))
  }

  /** The messages a drain hands over, up to the row that throws and including it if it got that far. */
  function HandOvers(due: seq<Row>, deliver: Row -> Outcome): seq<HandOver> {
    if due == [] then []
    else
      match deliver(due[0])
      case RenderThrew => []
      case SendThrew => [HandOver(due[0].key, SendThrew)]
      case MarkThrew => [HandOver(due[0].key, MarkThrew)]
      case Gone => HandOvers(due[1..], deliver)
      case _ => [HandOver(due[0].key, deliver(due[0]))] + HandOvers(due[1..], deliver)
  }

  predicate Possible(w: World, s: Step) {
    match s
    case Book(id, _, _, _, _) => id !in w.bookings
    case Move(id, _, _, _) => id in w.bookings
    case CallOff(id, _, _) => id in w.bookings
    case Report(_, _, status) => !status.Queued?
    case Drain(_, _, _) => true
  }

  function DueNow(setup: Setup, w: World, now: Instant, limit: Option<int>): seq<Row> {
    Take(AllDue(w.table.rows, setup.businesses, now), Clamp(limit, 100))
  }

  function BookStep(setup: Setup, w: World, id: BookingId, b: Booking, channels: seq<Channel>, now: Instant): World {
    World(w.bookings[id := b], CreatedFn(w.table, id, FoundFor(setup, b), channels, now), w.handed)
  }

  function MoveStep(setup: Setup, w: World, id: BookingId, b: Booking, channels: seq<Channel>, now: Instant): World {
    World(w.bookings[id := b], RescheduledFn(w.table, b.business, id, FoundFor(setup, b), channels, now), w.handed)
  }

  function CallOffStep(setup: Setup, w: World, id: BookingId, b: Booking, channels: seq<Channel>, now: Instant): World {
    World(w.bookings[id := b], CancelledFn(w.table, b.business, id, FoundFor(setup, b), channels, now), w.handed)
  }

  function DrainStep(setup: Setup, w: World, due: seq<Row>, deliver: Row -> Outcome): World {
    w.(table := w.table.(rows := DrainFn(w.table.rows, due, deliver)), handed := w.handed + HandOvers(due, deliver))
  }

  function Next(setup: Setup, w: World, s: Step): World
    requires Possible(w, s)
  {
    match s
    case Book(id, business, startsAt, channels, now) =>
      BookStep(setup, w, id, Booking(business, startsAt, false), channels, now)
    case Move(id, startsAt, channels, now) =>
      MoveStep(setup, w, id, w.bookings[id].(startsAt := startsAt), channels, now)
    case CallOff(id, channels, now) =>
      CallOffStep(setup, w, id, w.bookings[id].(cancelled := true), channels, now)
    case Report(business, id, status) =>
      w.(table := w.table.(rows := MarkFn(w.table.rows, business, id, status)))
    case Drain(now, limit, deliver) =>
      DrainStep(setup, w, DueNow(setup, w, now, limit), deliver)
  }

  ghost predicate Runs(setup: Setup, w: World, run: seq<Step>)
    decreases |run|
  {
    run == [] || (Possible(w, run[0]) && Runs(setup, Next(setup, w, run[0]), run[1..]))
  }

  ghost function Final(setup: Setup, w: World, run: seq<Step>): World
    requires Runs(setup, w, run)
    decreases |run|
  {
    if run == [] then w else Final(setup, Next(setup, w, run[0]), run[1..])
  }

  // ---------------------------------------------------------------------------
  // What a queued row promises
  // ---------------------------------------------------------------------------

  /** What may be waiting for this booking: nothing but a notice once cancelled, and reminders for its own start. */
  predicate Promise(setup: Setup, b: Booking, r: Row) {
    && (b.cancelled ==> r.key.kind.BookingCancelled?)
    && (r.key.kind.Reminder? ==>
          setup.lead(b.business).Some? && r.sendAfter == b.startsAt - setup.lead(b.business).value * 60_000)
  }

  predicate RowKept(setup: Setup, bookings: map<BookingId, Booking>, r: Row) {
    && r.key.booking in bookings
    && r.business == bookings[r.key.booking].business
    && (r.status.Queued? ==> Promise(setup, bookings[r.key.booking], r))
  }

  ghost predicate AllKept(setup: Setup, bookings: map<BookingId, Booking>, rows: seq<Row>) {
    forall r :: r in rows ==> RowKept(setup, bookings, r)
  }

  lemma EnqueueKeeps(setup: Setup, bookings: map<BookingId, Booking>, t: Table, business: BusinessId, key: Key,
                     sendAfter: Instant)
    requires AllKept(setup, bookings, t.rows)
    requires RowKept(setup, bookings, Row(t.nextId, business, key, Queued, sendAfter, 0))
    ensures AllKept(setup, bookings, EnqueueFn(t, business, key, sendAfter).rows)
  {
  }

  lemma {:induction false} EnqueueAllKeeps(setup: Setup, bookings: map<BookingId, Booking>, t: Table,
                                          booking: BookingId, kind: Kind, channels: seq<Channel>, sendAfter: Instant)
    requires AllKept(setup, bookings, t.rows) && booking in bookings
    requires kind.Reminder? ==>
      var b := bookings[booking];
      setup.lead(b.business).Some? && sendAfter == b.startsAt - setup.lead(b.business).value * 60_000
    requires bookings[booking].cancelled ==> kind.BookingCancelled?
    ensures AllKept(setup, bookings, EnqueueAll(t, bookings[booking].business, booking, kind, channels, sendAfter).rows)
  {
    if channels != [] {
      var n := |channels| - 1;
      var business := bookings[booking].business;
      var sofar := EnqueueAll(t, business, booking, kind, channels[..n], sendAfter);
      EnqueueAllKeeps(setup, bookings, t, booking, kind, channels[..n], sendAfter);
      assert RowKept(setup, bookings, Row(sofar.nextId, business, Key(booking, kind, channels[n]), Queued, sendAfter, 0));
      EnqueueKeeps(setup, bookings, sofar, business, Key(booking, kind, channels[n]), sendAfter);
    }
  }

  lemma ScheduleKeeps(setup: Setup, bookings: map<BookingId, Booking>, t: Table, booking: BookingId, event: Event,
                      channels: seq<Channel>, now: Instant)
    requires AllKept(setup, bookings, t.rows) && booking in bookings
    requires bookings[booking].cancelled <==> event.Cancelled?
    ensures AllKept(setup, bookings, ScheduleFn(t, booking, FoundFor(setup, bookings[booking]), event, channels, now).rows)
  {
    var b := bookings[booking];
    var a := FoundFor(setup, b).value;
    EnqueueAllKeeps(setup, bookings, t, booking, ImmediateKind(event), channels, now);
    if event.Created? && a.RemindAt().Some? && a.RemindAt().value > now {
      EnqueueAllKeeps(setup, bookings, EnqueueAll(t, b.business, booking, ImmediateKind(event), channels, now),
                      booking, Reminder, channels, a.RemindAt().value);
    }
  }

  /** With the queued rows of a booking dropped, the rest suits whatever the booking becomes. */
  lemma DropSuits(setup: Setup, bookings: map<BookingId, Booking>, rows: seq<Row>, booking: BookingId, b: Booking)
    requires AllKept(setup, bookings, rows) && booking in bookings && b.business == bookings[booking].business
    ensures AllKept(setup, bookings[booking := b], DropFn(rows, b.business, booking))
  {
    DroppedRows(rows, b.business, booking);
    forall r | r in DropFn(rows, b.business, booking) ensures RowKept(setup, bookings[booking := b], r) {
      assert RowKept(setup, bookings, r);
    }
  }

  lemma NewBookingSuits(setup: Setup, bookings: map<BookingId, Booking>, rows: seq<Row>, booking: BookingId, b: Booking)
    requires AllKept(setup, bookings, rows) && booking !in bookings
    ensures AllKept(setup, bookings[booking := b], rows)
  {
    forall r | r in rows ensures RowKept(setup, bookings[booking := b], r) {
      assert RowKept(setup, bookings, r);
    }
  }

  lemma MarkKeeps(setup: Setup, bookings: map<BookingId, Booking>, rows: seq<Row>,
                                    business: BusinessId, id: NotificationId, status: Status)
    requires AllKept(setup, bookings, rows) && !status.Queued?
    ensures AllKept(setup, bookings, MarkFn(rows, business, id, status))
  {
    var after := MarkFn(rows, business, id, status);
    MarkAt(rows, business, id, status);
    forall r | r in after ensures RowKept(setup, bookings, r) {
      var i :| 0 <= i < |after| && after[i] == r;
      assert RowKept(setup, bookings, rows[i]);
    }
  }

  lemma {:induction false} MarkAllKeeps(setup: Setup, bookings: map<BookingId, Booking>, rows: seq<Row>,
                                       due: seq<Row>, deliver: Row -> Outcome)
    requires AllKept(setup, bookings, rows) && forall r :: r in due ==> !deliver(r).Throws()
    ensures AllKept(setup, bookings, MarkAll(rows, due, deliver))
    decreases |due|
  {
    if due != [] {
      var front, last := due[..|due| - 1], due[|due| - 1];
      assert last in due;
      MarkAllKeeps(setup, bookings, rows, front, deliver);
      MarkKeeps(setup, bookings, MarkAll(rows, front, deliver), last.business, last.id, StatusAfter(deliver(last)));
    }
  }

  predicate MovesLive(w: World, s: Step) {
    s.Move? && s.id in w.bookings ==> !w.bookings[s.id].cancelled
  }

  lemma StepKeepsPromises(setup: Setup, w: World, s: Step)
    requires AllKept(setup, w.bookings, w.table.rows) && Possible(w, s) && MovesLive(w, s)
    ensures AllKept(setup, Next(setup, w, s).bookings, Next(setup, w, s).table.rows)
  {
    match s
    case Book(id, business, startsAt, channels, now) =>
      var b := Booking(business, startsAt, false);
      NewBookingSuits(setup, w.bookings, w.table.rows, id, b);
      ScheduleKeeps(setup, w.bookings[id := b], w.table, id, Created, channels, now);
    case Move(id, startsAt, channels, now) =>
      var b := w.bookings[id].(startsAt := startsAt);
      DropSuits(setup, w.bookings, w.table.rows, id, b);
      ScheduleKeeps(setup, w.bookings[id := b], DropPending(w.table, b.business, id), id, Created, channels, now);
    case CallOff(id, channels, now) =>
      var b := w.bookings[id].(cancelled := true);
      DropSuits(setup, w.bookings, w.table.rows, id, b);
      ScheduleKeeps(setup, w.bookings[id := b], DropPending(w.table, b.business, id), id, Cancelled, channels, now);
    case Report(business, id, status) =>
      MarkKeeps(setup, w.bookings, w.table.rows, business, id, status);
    case Drain(now, limit, deliver) =>
      var due := DueNow(setup, w, now, limit);
      SettledDoNotThrow(due, deliver);
      MarkAllKeeps(setup, w.bookings, w.table.rows, Settled(due, deliver), deliver);
  }

  ghost predicate MovesOnlyLive(setup: Setup, w: World, run: seq<Step>)
    requires Runs(setup, w, run)
    decreases |run|
  {
    run == [] || (MovesLive(w, run[0]) && MovesOnlyLive(setup, Next(setup, w, run[0]), run[1..]))
  }

  lemma {:induction false} RunKeepsPromises(setup: Setup, w: World, run: seq<Step>)
    requires AllKept(setup, w.bookings, w.table.rows) && Runs(setup, w, run) && MovesOnlyLive(setup, w, run)
    ensures AllKept(setup, Final(setup, w, run).bookings, Final(setup, w, run).table.rows)
    decreases |run|
  {
    if run != [] {
      StepKeepsPromises(setup, w, run[0]);
      RunKeepsPromises(setup, Next(setup, w, run[0]), run[1..]);
    }
  }

  lemma {:induction false} MovesOnlyLiveByPrefix(setup: Setup, w: World, run: seq<Step>)
    requires Runs(setup, w, run)
    requires forall k :: 0 <= k < |run| && run[k].Move? && Runs(setup, w, run[..k]) ==>
               var bookings := Final(setup, w, run[..k]).bookings;
               run[k].id in bookings ==> !bookings[run[k].id].cancelled
    ensures MovesOnlyLive(setup, w, run)
    decreases |run|
  {
    if run != [] {
      var next, rest := Next(setup, w, run[0]), run[1..];
      assert run[..0] == [];
      forall k | 0 <= k < |rest| && rest[k].Move? && Runs(setup, next, rest[..k])
        ensures var bookings := Final(setup, next, rest[..k]).bookings;
                rest[k].id in bookings ==> !bookings[rest[k].id].cancelled
      {
        var longer := run[..k + 1];
        assert longer[1..] == rest[..k] && rest[k] == run[k + 1] && longer[0] == run[0];
        assert Runs(setup, w, longer) && Final(setup, w, longer) == Final(setup, next, rest[..k]);
      }
      MovesOnlyLiveByPrefix(setup, next, rest);
    }
  }

  /**
   * In every state a run reaches, if only live bookings are moved: a queued reminder is due at
   * its booking's current start less the lead, and a cancelled booking has no confirmation or
   * reminder waiting.
   */
  lemma QueuedRowsFollowTheirBookings(setup: Setup, run: seq<Step>, r: Row)
    requires Runs(setup, NOTHING, run)
    requires forall k :: 0 <= k < |run| && run[k].Move? && Runs(setup, NOTHING, run[..k]) ==>
               var bookings := Final(setup, NOTHING, run[..k]).bookings;
               run[k].id in bookings ==> !bookings[run[k].id].cancelled
    requires r in Final(setup, NOTHING, run).table.rows && r.status.Queued?
    ensures var bookings := Final(setup, NOTHING, run).bookings;
            && r.key.booking in bookings
            && var b := bookings[r.key.booking];
               && (r.key.kind.Reminder? ==>
                     setup.lead(b.business).Some? && r.sendAfter == b.startsAt - setup.lead(b.business).value * 60_000)
               && (b.cancelled ==> r.key.kind.BookingCancelled?)
  {
    MovesOnlyLiveByPrefix(setup, NOTHING, run);
    RunKeepsPromises(setup, NOTHING, run);
    assert RowKept(setup, Final(setup, NOTHING, run).bookings, r);
  }

  // ---------------------------------------------------------------------------
  // Moving a cancelled booking
  // ---------------------------------------------------------------------------

  lemma {:induction false} EnqueuedOrDone(t: Table, business: BusinessId, booking: BookingId, kind: Kind,
                                         channels: seq<Channel>, sendAfter: Instant, key: Key)
    ensures var after := EnqueueAll(t, business, booking, kind, channels, sendAfter);
            Find(after.rows, key).Some? <==>
              Find(t.rows, key).Some? || (key.booking == booking && key.kind == kind && key.channel in channels)
    ensures var after := EnqueueAll(t, business, booking, kind, channels, sendAfter);
            Find(t.rows, key).Some? ==> Find(after.rows, key) == Find(t.rows, key)
    ensures var after := EnqueueAll(t, business, booking, kind, channels, sendAfter);
            Find(t.rows, key).None? && Find(after.rows, key).Some? ==>
              Find(after.rows, key).value.status.Queued? && Find(after.rows, key).value.sendAfter == sendAfter
  {
    if channels != [] {
      var n := |channels| - 1;
      var sofar := EnqueueAll(t, business, booking, kind, channels[..n], sendAfter);
      var added := Key(booking, kind, channels[n]);
      EnqueuedOrDone(t, business, booking, kind, channels[..n], sendAfter, key);
      assert channels == channels[..n] + [channels[n]];
      if Find(sofar.rows, added).None? {
        FindAppends(sofar.rows, Row(sofar.nextId, business, added, Queued, sendAfter, 0), key);
      }
    }
  }

  /** A row is waiting under this key. */
  predicate Waiting(rows: seq<Row>, key: Key) {
    Find(rows, key).Some? && Find(rows, key).value.status.Queued?
  }

  lemma DropEmpties(rows: seq<Row>, business: BusinessId, key: Key)
    requires forall r :: r in rows && r.key.booking == key.booking ==> r.business == business
    ensures !Waiting(DropFn(rows, business, key.booking), key)
    ensures Unique(KeyOf, rows) ==> (Find(DropFn(rows, business, key.booking), key).Some? <==> Done(rows, key))
  {
    DroppedRows(rows, business, key.booking);
    FindFinds(DropFn(rows, business, key.booking), key);
    FindFinds(rows, key);
    if Unique(KeyOf, rows) && Done(rows, key) {
      DropKeepsDone(rows, business, key.booking, key);
    }
    if Unique(KeyOf, rows) && Find(DropFn(rows, business, key.booking), key).Some? {
      FindIsTheRow(rows, Find(DropFn(rows, business, key.booking), key).value);
    }
  }

  /** The reminder lead is set and the moment has not passed. */
  predicate RemindsAt(a: Appointment, now: Instant) {
    a.reminderLeadMin.Some? && a.startsAt - a.reminderLeadMin.value * 60_000 > now
  }

  /**
   * After a move, a reminder waits on a channel exactly when the business wants one, its
   * moment is still to come, and none left the queue for this booking and channel before.
   */
  lemma ReminderAfterMove(setup: Setup, w: World, id: BookingId, startsAt: Instant, channels: seq<Channel>, now: Instant,
                          channel: Channel)
    requires id in w.bookings && Tidy(w.table) && channel in channels
    requires forall r :: r in w.table.rows && r.key.booking == id ==> r.business == w.bookings[id].business
    ensures var b := w.bookings[id].(startsAt := startsAt);
            var after := MoveStep(setup, w, id, b, channels, now).table.rows;
            Waiting(after, Key(id, Reminder, channel)) <==>
              RemindsAt(FoundFor(setup, b).value, now) && !Done(w.table.rows, Key(id, Reminder, channel))
  {
    var b := w.bookings[id].(startsAt := startsAt);
    var a := FoundFor(setup, b).value;
    var key := Key(id, Reminder, channel);
    var dropped := DropPending(w.table, b.business, id);
    DropEmpties(w.table.rows, b.business, key);
    var told := EnqueueAll(dropped, b.business, id, BookingConfirmed, channels, now);
    EnqueuedOrDone(dropped, b.business, id, BookingConfirmed, channels, now, key);
    if RemindsAt(a, now) {
      EnqueuedOrDone(told, b.business, id, Reminder, channels, a.RemindAt().value, key);
    }
  }

  /** And a confirmation waits exactly when none left the queue before. */
  lemma ConfirmationAfterMove(setup: Setup, w: World, id: BookingId, startsAt: Instant, channels: seq<Channel>,
                              now: Instant, channel: Channel)
    requires id in w.bookings && Tidy(w.table) && channel in channels
    requires forall r :: r in w.table.rows && r.key.booking == id ==> r.business == w.bookings[id].business
    ensures var b := w.bookings[id].(startsAt := startsAt);
            var after := MoveStep(setup, w, id, b, channels, now).table.rows;
            Waiting(after, Key(id, BookingConfirmed, channel)) <==> !Done(w.table.rows, Key(id, BookingConfirmed, channel))
  {
    var b := w.bookings[id].(startsAt := startsAt);
    var a := FoundFor(setup, b).value;
    var key := Key(id, BookingConfirmed, channel);
    var dropped := DropPending(w.table, b.business, id);
    DropEmpties(w.table.rows, b.business, key);
    var told := EnqueueAll(dropped, b.business, id, BookingConfirmed, channels, now);
    EnqueuedOrDone(dropped, b.business, id, BookingConfirmed, channels, now, key);
    if RemindsAt(a, now) {
      EnqueuedOrDone(told, b.business, id, Reminder, channels, a.RemindAt().value, key);
    }
  }

  /**
   * After a cancellation a notice waits on a channel exactly when none left the queue before,
   * and nothing else waits for the booking.
   */
  lemma NoticeAfterCallOff(setup: Setup, w: World, id: BookingId, channels: seq<Channel>, now: Instant, key: Key)
    requires id in w.bookings && Tidy(w.table) && key.booking == id
    requires forall r :: r in w.table.rows && r.key.booking == id ==> r.business == w.bookings[id].business
    ensures var after := Next(setup, w, CallOff(id, channels, now));
      && after.bookings == w.bookings[id := w.bookings[id].(cancelled := true)]
      && (Waiting(after.table.rows, key) <==>
            key.kind == BookingCancelled && key.channel in channels && !Done(w.table.rows, key))
  {
    var b := w.bookings[id].(cancelled := true);
    var dropped := DropPending(w.table, b.business, id);
    DropEmpties(w.table.rows, b.business, key);
    EnqueuedOrDone(dropped, b.business, id, BookingCancelled, channels, now, key);
  }

  /**
   * After a new booking, for which the table had nothing, a confirmation waits on each channel,
   * and a reminder exactly when the business wants one and its moment is still to come.
   */
  lemma WaitingAfterBook(setup: Setup, w: World, id: BookingId, business: BusinessId, startsAt: Instant,
                         channels: seq<Channel>, now: Instant, key: Key)
    requires id !in w.bookings && key.booking == id
    requires forall r :: r in w.table.rows ==> r.key.booking != id
    ensures var after := Next(setup, w, Book(id, business, startsAt, channels, now));
      && after.bookings == w.bookings[id := Booking(business, startsAt, false)]
      && (Waiting(after.table.rows, key) <==>
            && key.channel in channels
            && (key.kind == BookingConfirmed
                || (key.kind == Reminder && setup.lead(business).Some?
                    && startsAt - setup.lead(business).value * 60_000 > now)))
  {
    var b := Booking(business, startsAt, false);
    var a := FoundFor(setup, b).value;
    FindFinds(w.table.rows, key);
    var told := EnqueueAll(w.table, business, id, BookingConfirmed, channels, now);
    EnqueuedOrDone(w.table, business, id, BookingConfirmed, channels, now, key);
    if RemindsAt(a, now) {
      EnqueuedOrDone(told, business, id, Reminder, channels, a.RemindAt().value, key);
    }
  }

  /** Everything this move would queue has already left the queue once. */
  predicate NothingNew(setup: Setup, w: World, id: BookingId, b: Booking, channels: seq<Channel>, now: Instant) {
    forall c :: c in channels ==>
      && Done(w.table.rows, Key(id, BookingConfirmed, c))
      && (RemindsAt(FoundFor(setup, b).value, now) ==> Done(w.table.rows, Key(id, Reminder, c)))
  }

  lemma {:induction false} EnqueueNothing(t: Table, business: BusinessId, booking: BookingId, kind: Kind,
                                         channels: seq<Channel>, sendAfter: Instant)
    requires forall c :: c in channels ==> Find(t.rows, Key(booking, kind, c)).Some?
    ensures EnqueueAll(t, business, booking, kind, channels, sendAfter) == t
  {
    if channels != [] {
      var n := |channels| - 1;
      EnqueueNothing(t, business, booking, kind, channels[..n], sendAfter);
      assert channels[n] in channels;
    }
  }

  lemma NothingNewQueuesNothing(setup: Setup, w: World, id: BookingId, b: Booking, channels: seq<Channel>, now: Instant)
    requires NothingNew(setup, w, id, b, channels, now)
    ensures MoveStep(setup, w, id, b, channels, now).table == DropPending(w.table, b.business, id)
  {
    var dropped := DropPending(w.table, b.business, id);
    var a := FoundFor(setup, b).value;
    forall c | c in channels ensures Find(dropped.rows, Key(id, BookingConfirmed, c)).Some? {
      DropKeepsDone(w.table.rows, b.business, id, Key(id, BookingConfirmed, c));
    }
    EnqueueNothing(dropped, b.business, id, BookingConfirmed, channels, now);
    if RemindsAt(a, now) {
      forall c | c in channels ensures Find(dropped.rows, Key(id, Reminder, c)).Some? {
        DropKeepsDone(w.table.rows, b.business, id, Key(id, Reminder, c));
      }
      EnqueueNothing(dropped, b.business, id, Reminder, channels, a.RemindAt().value);
    }
  }

  lemma KeptRowsShareTheBusiness(setup: Setup, w: World, id: BookingId)
    requires AllKept(setup, w.bookings, w.table.rows) && id in w.bookings
    ensures forall r :: r in w.table.rows && r.key.booking == id ==> r.business == w.bookings[id].business
  {
    forall r | r in w.table.rows && r.key.booking == id ensures r.business == w.bookings[id].business {
      assert RowKept(setup, w.bookings, r);
    }
  }

  lemma WaitingIsNotKept(setup: Setup, bookings: map<BookingId, Booking>, rows: seq<Row>, key: Key)
    requires Waiting(rows, key) && key.booking in bookings && bookings[key.booking].cancelled
    requires !key.kind.BookingCancelled?
    ensures !AllKept(setup, bookings, rows)
  {
    FindFinds(rows, key);
    assert !RowKept(setup, bookings, Find(rows, key).value);
  }

  /**
   * Nothing stops the admin from moving a cancelled booking, and then the queue promises a
   * confirmation or a reminder for it, unless everything the move would queue went out before.
   */
  lemma MoveKeepsPromisesExactly(setup: Setup, w: World, id: BookingId, startsAt: Instant, channels: seq<Channel>,
                                 now: Instant)
    requires AllKept(setup, w.bookings, w.table.rows) && Tidy(w.table) && id in w.bookings
    ensures var b := w.bookings[id].(startsAt := startsAt);
            var after := MoveStep(setup, w, id, b, channels, now);
            AllKept(setup, after.bookings, after.table.rows) <==>
              !b.cancelled || NothingNew(setup, w, id, b, channels, now)
  {
    var b := w.bookings[id].(startsAt := startsAt);
    var after := MoveStep(setup, w, id, b, channels, now);
    KeptRowsShareTheBusiness(setup, w, id);
    if !b.cancelled {
      StepKeepsPromises(setup, w, Move(id, startsAt, channels, now));
    } else if NothingNew(setup, w, id, b, channels, now) {
      NothingNewQueuesNothing(setup, w, id, b, channels, now);
      DropSuits(setup, w.bookings, w.table.rows, id, b);
    } else {
      var c :| c in channels
               && !(Done(w.table.rows, Key(id, BookingConfirmed, c))
                    && (RemindsAt(FoundFor(setup, b).value, now) ==> Done(w.table.rows, Key(id, Reminder, c))));
      ConfirmationAfterMove(setup, w, id, startsAt, channels, now, c);
      ReminderAfterMove(setup, w, id, startsAt, channels, now, c);
      if !Done(w.table.rows, Key(id, BookingConfirmed, c)) {
        WaitingIsNotKept(setup, after.bookings, after.table.rows, Key(id, BookingConfirmed, c));
      } else {
        WaitingIsNotKept(setup, after.bookings, after.table.rows, Key(id, Reminder, c));
      }
    }
  }

  /** Book, cancel, move: the cancelled booking now has a confirmation waiting. */
  lemma MovedAfterCancelling(setup: Setup, run: seq<Step>)
    requires run == [Book(0, 1, 0, [], 0), CallOff(0, [], 0), Move(0, 60_000, [Email], 0)]
    ensures Runs(setup, NOTHING, run)
    ensures 0 in Final(setup, NOTHING, run).bookings && Final(setup, NOTHING, run).bookings[0].cancelled
    ensures Waiting(Final(setup, NOTHING, run).table.rows, Key(0, BookingConfirmed, Email))
  {
    var one := Next(setup, NOTHING, run[0]);
    assert one.table == Table([], 0) && one.bookings == map[0 := Booking(1, 0, false)];
    var two := Next(setup, one, run[1]);
    assert run[1..][1..] == run[2..] && run[2..][1..] == [];
    assert two.table == Table([], 0) && two.bookings == map[0 := Booking(1, 0, true)];
    ConfirmationAfterMove(setup, two, 0, 60_000, [Email], 0, Email);
    assert Runs(setup, two, run[2..]) && Final(setup, two, run[2..]) == Next(setup, two, run[2]);
    assert Runs(setup, one, run[1..]) && Final(setup, one, run[1..]) == Final(setup, two, run[2..]);
  }
}

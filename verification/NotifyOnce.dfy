/** Nobody is told the same thing twice, unless the transport or the mark threw in between. */
module NotifyOnce {
  import opened Common
  import opened NotifyQueue
  import opened NotifyTable
  import opened NotifyDrain
  import opened NotifyTheorems

  /** What the transport answered for, and the answer was recorded, has left the queue for good. */
  ghost predicate AllDone(rows: seq<Row>, handed: seq<HandOver>) {
    forall h :: h in handed && !h.Unrecorded() ==> Done(rows, h.key)
  }

  /** Of two hand-overs with one key, the earlier was not recorded. */
  ghost predicate NoRepeats(handed: seq<HandOver>) {
    handed == []
    || (NoneTook(handed[..|handed| - 1], handed[|handed| - 1].key) && NoRepeats(handed[..|handed| - 1]))
  }

  ghost predicate NoneTook(handed: seq<HandOver>, key: Key) {
    forall h :: h in handed && h.key == key ==> h.Unrecorded()
  }

  ghost predicate Once(w: World) {
    Tidy(w.table) && AllDone(w.table.rows, w.handed) && NoRepeats(w.handed)
  }

  lemma NoRepeatsAppends(handed: seq<HandOver>, h: HandOver)
    requires NoRepeats(handed) && NoneTook(handed, h.key)
    ensures NoRepeats(handed + [h])
  {
    assert (handed + [h])[..|handed + [h]| - 1] == handed;
  }

  /** The queue part of a step that is not a drain keeps every row that has left the queue. */
  lemma StepKeepsDone(setup: Setup, w: World, s: Step, key: Key)
    requires Possible(w, s) && !s.Drain? && Done(w.table.rows, key)
    ensures Done(Next(setup, w, s).table.rows, key)
  {
    match s
    case Book(id, business, startsAt, channels, now) =>
      ScheduleKeepsDone(w.table, id, FoundFor(setup, Booking(business, startsAt, false)), Created, channels, now, key);
    case Move(id, startsAt, channels, now) =>
      var b := w.bookings[id].(startsAt := startsAt);
      DropKeepsDone(w.table.rows, b.business, id, key);
      ScheduleKeepsDone(DropPending(w.table, b.business, id), id, FoundFor(setup, b), Created, channels, now, key);
    case CallOff(id, channels, now) =>
      var b := w.bookings[id].(cancelled := true);
      DropKeepsDone(w.table.rows, b.business, id, key);
      ScheduleKeepsDone(DropPending(w.table, b.business, id), id, FoundFor(setup, b), Cancelled, channels, now, key);
    case Report(business, id, status) =>
      MarkKeepsDone(w.table.rows, business, id, status, key);
  }

  lemma StepKeepsTidy(setup: Setup, w: World, s: Step)
    requires Possible(w, s) && Tidy(w.table)
    ensures Tidy(Next(setup, w, s).table)
  {
    match s
    case Book(id, business, startsAt, channels, now) =>
      ScheduleKeepsTidy(w.table, id, FoundFor(setup, Booking(business, startsAt, false)), Created, channels, now);
    case Move(id, startsAt, channels, now) =>
      var b := w.bookings[id].(startsAt := startsAt);
      DropKeepsTidy(w.table, b.business, id);
      ScheduleKeepsTidy(DropPending(w.table, b.business, id), id, FoundFor(setup, b), Created, channels, now);
    case CallOff(id, channels, now) =>
      var b := w.bookings[id].(cancelled := true);
      DropKeepsTidy(w.table, b.business, id);
      ScheduleKeepsTidy(DropPending(w.table, b.business, id), id, FoundFor(setup, b), Cancelled, channels, now);
    case Report(business, id, status) =>
      var after := MarkFn(w.table.rows, business, id, status);
      MarkAt(w.table.rows, business, id, status);
      SameRowsTidy(w.table, after);
    case Drain(now, limit, deliver) =>
      var due := DueNow(setup, w, now, limit);
      MarkAllSame(w.table.rows, Settled(due, deliver), deliver);
      SameRowsTidy(w.table, DrainFn(w.table.rows, due, deliver));
  }

  lemma {:induction false} MarkAllKeepsDone(rows: seq<Row>, due: seq<Row>, deliver: Row -> Outcome, key: Key)
    requires Done(rows, key) && forall r :: r in due ==> !deliver(r).Throws()
    ensures Done(MarkAll(rows, due, deliver), key)
    decreases |due|
  {
    if due != [] {
      var front, last := due[..|due| - 1], due[|due| - 1];
      assert last in due;
      MarkAllKeepsDone(rows, front, deliver, key);
      MarkKeepsDone(MarkAll(rows, front, deliver), last.business, last.id, StatusAfter(deliver(last)), key);
    }
  }

  /** What a drain takes: rows of the table, waiting, no two with the same id or key. */
  ghost predicate Takes(rows: seq<Row>, due: seq<Row>) {
    && Unique(IdOf, due) && Unique(KeyOf, due)
    && forall r :: r in due ==> r in rows && r.status.Queued?
  }

  lemma DueIsTaken(setup: Setup, w: World, now: Instant, limit: Option<int>)
    requires Tidy(w.table) && DistinctIds(setup.businesses)
    ensures Takes(w.table.rows, DueNow(setup, w, now, limit))
  {
    var all, n := AllDue(w.table.rows, setup.businesses, now), Clamp(limit, 100);
    AllDueAre(w.table.rows, setup.businesses, now);
    AllDueUnique(IdOf, w.table.rows, setup.businesses, now);
    AllDueUnique(KeyOf, w.table.rows, setup.businesses, now);
    if n < |all| {
      UniquePrefix(IdOf, all, n);
      UniquePrefix(KeyOf, all, n);
    }
  }

  lemma NoHandOvers(handed: seq<HandOver>, deliver: Row -> Outcome)
    ensures handed + HandOvers([], deliver) == handed
  {
  }

  lemma RegroupHanded(a: seq<HandOver>, b: seq<HandOver>, c: seq<HandOver>)
    ensures a + (b + c) == (a + b) + c
  {
  }

  lemma HandedOneMore(handed: seq<HandOver>, due: seq<Row>, deliver: Row -> Outcome, h: HandOver)
    requires due != [] && !deliver(due[0]).Throws() && !deliver(due[0]).Gone? && h == HandOver(due[0].key, deliver(due[0]))
    ensures handed + HandOvers(due, deliver) == (handed + [h]) + HandOvers(due[1..], deliver)
  {
    RegroupHanded(handed, [h], HandOvers(due[1..], deliver));
  }

  lemma StillNoneTook(handed: seq<HandOver>, due: seq<Row>, h: HandOver)
    requires due != [] && Unique(KeyOf, due) && h.key == due[0].key
    requires forall r :: r in due ==> NoneTook(handed, r.key)
    ensures forall r :: r in due[1..] ==> NoneTook(handed + [h], r.key)
    ensures Unique(KeyOf, due[1..]) && NoneTook(handed, due[0].key)
  {
    UniqueTail(KeyOf, due);
    assert due[0] in due;
    forall r | r in due[1..] ensures NoneTook(handed + [h], r.key) {
      assert KeyOf(r) != KeyOf(due[0]);
    }
  }

  lemma {:induction false} HandOversDoNotRepeat(handed: seq<HandOver>, due: seq<Row>, deliver: Row -> Outcome)
    requires NoRepeats(handed) && Unique(KeyOf, due)
    requires forall r :: r in due ==> NoneTook(handed, r.key)
    ensures NoRepeats(handed + HandOvers(due, deliver))
    decreases |due|
  {
    if due == [] {
      NoHandOvers(handed, deliver);
    } else {
      var h := HandOver(due[0].key, deliver(due[0]));
      StillNoneTook(handed, due, h);
      if deliver(due[0]).RenderThrew? {
        assert handed + HandOvers(due, deliver) == handed;
      } else if h.Unrecorded() {
        NoRepeatsAppends(handed, h);
      } else if deliver(due[0]).Gone? {
        HandOversDoNotRepeat(handed, due[1..], deliver);
      } else {
        NoRepeatsAppends(handed, h);
        HandedOneMore(handed, due, deliver, h);
        HandOversDoNotRepeat(handed + [h], due[1..], deliver);
      }
    }
  }

  lemma {:induction false} TookWhatItSettled(due: seq<Row>, deliver: Row -> Outcome, h: HandOver)
    requires h in HandOvers(due, deliver) && !h.Unrecorded()
    ensures exists r :: r in Settled(due, deliver) && r.key == h.key
  {
    var rest := HandOvers(due[1..], deliver);
    if !deliver(due[0]).Gone? && h == HandOver(due[0].key, deliver(due[0])) {
      assert due[0] in Settled(due, deliver);
    } else {
      TookWhatItSettled(due[1..], deliver, h);
      var r :| r in Settled(due[1..], deliver) && r.key == h.key;
      assert r in Settled(due, deliver);
    }
  }

  lemma DoneAt(rows: seq<Row>, i: nat)
    requires Unique(KeyOf, rows) && i < |rows| && !rows[i].status.Queued?
    ensures Done(rows, rows[i].key)
  {
    assert rows[i] in rows;
    FindIsTheRow(rows, rows[i]);
  }

  lemma DrainKeepsKeysUnique(t: Table, due: seq<Row>, deliver: Row -> Outcome)
    requires Tidy(t)
    ensures Unique(KeyOf, DrainFn(t.rows, due, deliver))
  {
    MarkAllSame(t.rows, Settled(due, deliver), deliver);
    SameRowsTidy(t, DrainFn(t.rows, due, deliver));
  }

  lemma SettledIsMarked(rows: seq<Row>, due: seq<Row>, deliver: Row -> Outcome, i: nat)
    requires Unique(IdOf, due) && i < |rows| && rows[i] in Settled(due, deliver)
    ensures |DrainFn(rows, due, deliver)| == |rows|
    ensures DrainFn(rows, due, deliver)[i].key == rows[i].key && !DrainFn(rows, due, deliver)[i].status.Queued?
  {
    SettledIsUnique(IdOf, due, deliver);
    SettledDoNotThrow(due, deliver);
    TakenIsMarked(rows, Settled(due, deliver), deliver, i);
  }

  lemma SettledIsDone(t: Table, due: seq<Row>, deliver: Row -> Outcome, r: Row)
    requires Tidy(t) && Takes(t.rows, due) && r in Settled(due, deliver)
    ensures Done(DrainFn(t.rows, due, deliver), r.key)
  {
    SettledDoNotThrow(due, deliver);
    assert r in t.rows;
    var i :| 0 <= i < |t.rows| && t.rows[i] == r;
    SettledIsMarked(t.rows, due, deliver, i);
    DrainKeepsKeysUnique(t, due, deliver);
    DoneAt(DrainFn(t.rows, due, deliver), i);
  }

  lemma DrainKeepsDone(t: Table, due: seq<Row>, deliver: Row -> Outcome, key: Key)
    requires Done(t.rows, key)
    ensures Done(DrainFn(t.rows, due, deliver), key)
  {
    SettledDoNotThrow(due, deliver);
    MarkAllKeepsDone(t.rows, Settled(due, deliver), deliver, key);
  }

  lemma DrainKeepsOnce(setup: Setup, w: World, due: seq<Row>, deliver: Row -> Outcome)
    requires Once(w) && Takes(w.table.rows, due)
    ensures AllDone(DrainFn(w.table.rows, due, deliver), w.handed + HandOvers(due, deliver))
    ensures NoRepeats(w.handed + HandOvers(due, deliver))
  {
    forall r | r in due ensures NoneTook(w.handed, r.key) {
      FindIsTheRow(w.table.rows, r);
    }
    HandOversDoNotRepeat(w.handed, due, deliver);
    forall h | h in w.handed + HandOvers(due, deliver) && !h.Unrecorded()
      ensures Done(DrainFn(w.table.rows, due, deliver), h.key)
    {
      if h in w.handed {
        DrainKeepsDone(w.table, due, deliver, h.key);
      } else {
        TookWhatItSettled(due, deliver, h);
        var r :| r in Settled(due, deliver) && r.key == h.key;
        SettledIsDone(w.table, due, deliver, r);
      }
    }
  }

  lemma StepKeepsOnce(setup: Setup, w: World, s: Step)
    requires Once(w) && Possible(w, s) && DistinctIds(setup.businesses)
    ensures Once(Next(setup, w, s))
  {
    StepKeepsTidy(setup, w, s);
    if s.Drain? {
      DueIsTaken(setup, w, s.now, s.limit);
      DrainKeepsOnce(setup, w, DueNow(setup, w, s.now, s.limit), s.deliver);
    } else {
      forall h | h in w.handed && !h.Unrecorded() ensures Done(Next(setup, w, s).table.rows, h.key) {
        StepKeepsDone(setup, w, s, h.key);
      }
    }
  }

  lemma {:induction false} RunKeepsOnce(setup: Setup, w: World, run: seq<Step>)
    requires Once(w) && Runs(setup, w, run) && DistinctIds(setup.businesses)
    ensures Once(Final(setup, w, run))
    decreases |run|
  {
    if run != [] {
      StepKeepsOnce(setup, w, run[0]);
      RunKeepsOnce(setup, Next(setup, w, run[0]), run[1..]);
    }
  }

  lemma {:induction false} NoRepeatsMeans(handed: seq<HandOver>, i: nat, j: nat)
    requires NoRepeats(handed) && i < j < |handed| && handed[i].key == handed[j].key
    ensures handed[i].Unrecorded()
    decreases |handed|
  {
    var front := handed[..|handed| - 1];
    if j == |handed| - 1 {
      assert front[i] in front;
    } else {
      NoRepeatsMeans(front, i, j);
    }
  }

  /**
   * Over any run of booking events, outcome reports and drains, a notification is handed to
   * the transport a second time only if the time before the transport threw, or answered and
   * the answer could not be recorded.
   */
  lemma HandedAtMostOnce(setup: Setup, run: seq<Step>, i: nat, j: nat)
    requires Runs(setup, NOTHING, run) && DistinctIds(setup.businesses)
    requires i < j < |Final(setup, NOTHING, run).handed|
    requires Final(setup, NOTHING, run).handed[i].key == Final(setup, NOTHING, run).handed[j].key
    ensures Final(setup, NOTHING, run).handed[i].Unrecorded()
  {
    RunKeepsOnce(setup, NOTHING, run);
    NoRepeatsMeans(Final(setup, NOTHING, run).handed, i, j);
  }

  /** A row that has left the queue is never dropped, queued again or replaced, whatever happens to its booking. */
  lemma {:induction false} OnceDoneAlwaysDone(setup: Setup, w: World, run: seq<Step>, key: Key)
    requires Runs(setup, w, run) && Done(w.table.rows, key)
    ensures Done(Final(setup, w, run).table.rows, key)
    decreases |run|
  {
    if run != [] {
      if run[0].Drain? {
        DrainKeepsDone(w.table, DueNow(setup, w, run[0].now, run[0].limit), run[0].deliver, key);
      } else {
        StepKeepsDone(setup, w, run[0], key);
      }
      OnceDoneAlwaysDone(setup, Next(setup, w, run[0]), run[1..], key);
    }
  }

  // ---------------------------------------------------------------------------
  // A row whose turn throws
  // ---------------------------------------------------------------------------

  lemma {:induction false} UnsettledHead(all: seq<Row>, n: nat, deliver: Row -> Outcome)
    requires Settled(Take(all, n), deliver) != Take(all, n)
    ensures |Settled(Take(all, n), deliver)| < |Take(all, n)|
    ensures Unsettled(all, n, deliver) != [] && deliver(Unsettled(all, n, deliver)[0]).Throws()
    ensures Take(all, n)[|Settled(Take(all, n), deliver)|] == Unsettled(all, n, deliver)[0]
    decreases |all|
  {
    TakeTail(all, n);
    if !deliver(all[0]).Throws() {
      assert Take(all, n) == [all[0]] + Take(all[1..], n - 1);
      UnsettledHead(all[1..], n - 1, deliver);
    }
  }

  lemma {:induction false} TheThrowerIsLast(due: seq<Row>, deliver: Row -> Outcome)
    requires Settled(due, deliver) != due
    ensures |Settled(due, deliver)| < |due|
    ensures var thrower := due[|Settled(due, deliver)|];
            deliver(thrower).Throws() && (deliver(thrower).HandedOver() ==>
              HandOvers(due, deliver) != []
              && HandOvers(due, deliver)[|HandOvers(due, deliver)| - 1] == HandOver(thrower.key, deliver(thrower)))
  {
    if !deliver(due[0]).Throws() {
      assert due == [due[0]] + due[1..];
      TheThrowerIsLast(due[1..], deliver);
    }
  }

  lemma HandedFirst(next: seq<Row>, retry: Row -> Outcome)
    requires next != [] && retry(next[0]).HandedOver()
    ensures HandOvers(next, retry) != [] && HandOvers(next, retry)[0] == HandOver(next[0].key, retry(next[0]))
  {
  }

  /** What a drain of any limit lists of a queue that starts with this row. */
  lemma TakenFirst(all: seq<Row>, limit: Option<int>)
    requires all != []
    ensures Take(all, Clamp(limit, 100)) != [] && Take(all, Clamp(limit, 100))[0] == all[0]
  {
    TakeTail(all, Clamp(limit, 100));
  }

  lemma TheThrowerIsNext(t: Table, businesses: seq<BusinessId>, now: Instant, n: nat, deliver: Row -> Outcome, due: seq<Row>)
    requires Tidy(t) && DistinctIds(businesses) && due == Take(AllDue(t.rows, businesses, now), n)
    requires Settled(due, deliver) != due && |Settled(due, deliver)| < |due|
    ensures var rest := AllDue(DrainFn(t.rows, due, deliver), businesses, now);
            rest != [] && rest[0] == due[|Settled(due, deliver)|]
  {
    var all := AllDue(t.rows, businesses, now);
    UnsettledHead(all, n, deliver);
    SettledAndUnsettled(all, n, deliver);
    DrainLeavesTheRest(t, businesses, now, n, deliver, due, Unsettled(all, n, deliver));
  }

  /**
   * Wherever in the listing a row's turn throws, nothing is handed over after it, and the
   * next drain at that moment, of whatever limit and through whatever transport, lists that
   * row first and hands it over, again if it got that far before, unless rendering it fails
   * or finds nothing to say.
   */
  lemma TheThrowerGoesFirst(t: Table, businesses: seq<BusinessId>, now: Instant, limit: Option<int>,
                            deliver: Row -> Outcome, due: seq<Row>, thrower: Row,
                            nextLimit: Option<int>, retry: Row -> Outcome, next: seq<Row>)
    requires Tidy(t) && DistinctIds(businesses) && due == Take(AllDue(t.rows, businesses, now), Clamp(limit, 100))
    requires Settled(due, deliver) != due && |Settled(due, deliver)| < |due|
    requires thrower == due[|Settled(due, deliver)|]
    requires next == Take(AllDue(DrainFn(t.rows, due, deliver), businesses, now), Clamp(nextLimit, 100))
    ensures deliver(thrower).HandedOver() ==>
      HandOvers(due, deliver) != []
      && HandOvers(due, deliver)[|HandOvers(due, deliver)| - 1] == HandOver(thrower.key, deliver(thrower))
    ensures next != [] && next[0] == thrower
    ensures retry(thrower).HandedOver() ==>
      HandOvers(next, retry) != [] && HandOvers(next, retry)[0] == HandOver(thrower.key, retry(thrower))
  {
    TheThrowerIsLast(due, deliver);
    TheThrowerIsNext(t, businesses, now, Clamp(limit, 100), deliver, due);
    TakenFirst(AllDue(DrainFn(t.rows, due, deliver), businesses, now), nextLimit);
    if retry(thrower).HandedOver() {
      HandedFirst(next, retry);
    }
  }

  /** A turn that ends like this for booking 0, and with a delivery for everything else. */
  function Choke(end: Outcome): Row -> Outcome {
    (r: Row) => if r.key.booking == 0 then end else Delivered
  }

  function Drains(end: Outcome, k: nat): seq<Step> {
    if k == 0 then [] else [Drain(0, None, Choke(end))] + Drains(end, k - 1)
  }

  function Confirmation(id: NotificationId): Row {
    Row(id, 1, Key(id, BookingConfirmed, Email), Queued, 0, 0)
  }

  function Stuck(): Table {
    Table([Confirmation(0), Confirmation(1)], 2)
  }

  lemma StuckListing(setup: Setup, w: World)
    requires w.table == Stuck() && setup.businesses == [1]
    ensures var due := DueNow(setup, w, 0, None); due != [] && due[0] == Confirmation(0)
  {
    var rows := w.table.rows;
    assert rows[1..] == [Confirmation(1)] && rows[1..][1..] == [];
    assert DueRows(rows[1..], 1, 0) == [Confirmation(1)];
    assert DueRows(rows, 1, 0) == [Confirmation(0)] + [Confirmation(1)];
    DueOfAre(rows, 1, 0);
    var two := DueRows(rows, 1, 0);
    assert two[1..] == [Confirmation(1)] && two[1..][1..] == [];
    assert Sort(BySendAfter, two[1..]) == [Confirmation(1)];
    assert setup.businesses[..0] == [];
    assert AllDue(rows, setup.businesses, 0) == AllDue(rows, [], 0) + DueOf(rows, 1, 0);
  }

  lemma {:induction false} DrainsStick(setup: Setup, w: World, end: Outcome, k: nat)
    requires w.table == Stuck() && setup.businesses == [1] && end.Throws() && end.HandedOver()
    ensures Runs(setup, w, Drains(end, k)) && Final(setup, w, Drains(end, k)).table == Stuck()
    ensures |Final(setup, w, Drains(end, k)).handed| == |w.handed| + k
    ensures forall i :: |w.handed| <= i < |w.handed| + k ==>
      Final(setup, w, Drains(end, k)).handed[i] == HandOver(Confirmation(0).key, end)
    ensures forall i :: 0 <= i < |w.handed| ==> Final(setup, w, Drains(end, k)).handed[i] == w.handed[i]
    decreases k
  {
    if k > 0 {
      StuckListing(setup, w);
      var next := Next(setup, w, Drain(0, None, Choke(end)));
      assert next.table == Stuck() && next.handed == w.handed + [HandOver(Confirmation(0).key, end)];
      DrainsStick(setup, next, end, k - 1);
      assert Drains(end, k)[0] == Drain(0, None, Choke(end)) && Drains(end, k)[1..] == Drains(end, k - 1);
    }
  }

  lemma BookOne(setup: Setup, w: World, id: BookingId)
    requires id !in w.bookings && setup.lead(1) == None && w.table.nextId == id
    requires Find(w.table.rows, Key(id, BookingConfirmed, Email)).None?
    ensures Possible(w, Book(id, 1, 0, [Email], 0))
    ensures var after := Next(setup, w, Book(id, 1, 0, [Email], 0));
            && after.table == Table(w.table.rows + [Confirmation(id)], id + 1) && after.handed == w.handed
            && after.bookings == w.bookings[id := Booking(1, 0, false)]
  {
    var key := Key(id, BookingConfirmed, Email);
    assert [Email][..0] == [];
    assert EnqueueAll(w.table, 1, id, BookingConfirmed, [Email][..0], 0) == w.table;
    assert EnqueueAll(w.table, 1, id, BookingConfirmed, [Email], 0) == EnqueueFn(w.table, 1, key, 0);
  }

  /**
   * Two bookings are made, and for the first one the transport throws every time, or delivers
   * every time and the mark throws. However often the drainer comes by, both confirmations stay
   * queued, and the first is handed over each time: hand-overs `i` and `j` have one key for any
   * `i < j < k`.
   */
  lemma APoisonedRun(setup: Setup, run: seq<Step>, end: Outcome, k: nat)
    requires end == SendThrew || end == MarkThrew
    requires setup.businesses == [1] && setup.lead(1) == None
    requires run == [Book(0, 1, 0, [Email], 0), Book(1, 1, 0, [Email], 0)] + Drains(end, k)
    ensures Runs(setup, NOTHING, run) && Final(setup, NOTHING, run).table == Stuck()
    ensures |Final(setup, NOTHING, run).handed| == k
    ensures forall i :: 0 <= i < k ==> Final(setup, NOTHING, run).handed[i] == HandOver(Key(0, BookingConfirmed, Email), end)
  {
    BookOne(setup, NOTHING, 0);
    var one := Next(setup, NOTHING, run[0]);
    BookOne(setup, one, 1);
    var two := Next(setup, one, run[1]);
    assert run[1..][0] == run[1] && run[1..][1..] == run[2..] == Drains(end, k);
    assert two.table == Stuck() && two.handed == [];
    DrainsStick(setup, two, end, k);
    assert Runs(setup, one, run[1..]) && Final(setup, one, run[1..]) == Final(setup, two, run[2..]);
  }
}

/** Facts about the notification table: uniqueness, and what each statement leaves alone. */
module NotifyTable {
  import opened Common
  import opened NotifyQueue

  // ---------------------------------------------------------------------------
  // Uniqueness by a column
  // ---------------------------------------------------------------------------

  function IdOf(r: Row): NotificationId {
    r.id
  }

  function KeyOf(r: Row): Key {
    r.key
  }

  /** No row has this value. */
  ghost predicate Absent<T(!new)>(f: Row -> T, s: seq<Row>, v: T) {
    forall r :: r in s ==> f(r) != v
  }

  ghost predicate Unique<T(!new)>(f: Row -> T, s: seq<Row>) {
    s == [] || (Absent(f, s[..|s| - 1], f(s[|s| - 1])) && Unique(f, s[..|s| - 1]))
  }

  lemma UniqueAppends<T(!new)>(f: Row -> T, s: seq<Row>, r: Row)
    requires Unique(f, s) && Absent(f, s, f(r))
    ensures Unique(f, s + [r])
  {
    assert (s + [r])[..|s + [r]| - 1] == s;
  }

  lemma {:induction false} UniqueConcat<T(!new)>(f: Row -> T, a: seq<Row>, b: seq<Row>)
    requires Unique(f, a) && Unique(f, b)
    requires forall r :: r in b ==> Absent(f, a, f(r))
    ensures Unique(f, a + b)
  {
    if b == [] {
      assert a + b == a;
    } else {
      var front, last := b[..|b| - 1], b[|b| - 1];
      assert last in b;
      UniqueConcat(f, a, front);
      assert a + b == (a + front) + [last];
      UniqueAppends(f, a + front, last);
    }
  }

  lemma {:induction false} UniqueDiffers<T(!new)>(f: Row -> T, s: seq<Row>, i: nat, j: nat)
    requires Unique(f, s) && i < j < |s|
    ensures f(s[i]) != f(s[j])
  {
    var front := s[..|s| - 1];
    assert front[i] in front;
    if j < |s| - 1 {
      UniqueDiffers(f, front, i, j);
    }
  }

  lemma {:induction false} UniqueTail<T(!new)>(f: Row -> T, s: seq<Row>)
    requires s != [] && Unique(f, s)
    ensures Absent(f, s[1..], f(s[0])) && Unique(f, s[1..])
  {
    if |s| > 1 {
      var front, last := s[..|s| - 1], s[|s| - 1];
      UniqueTail(f, front);
      assert s[1..] == front[1..] + [last];
      assert front[0] in front;
      UniqueAppends(f, front[1..], last);
    }
  }

  lemma UniqueHead<T(!new)>(f: Row -> T, r: Row, s: seq<Row>)
    requires Unique(f, s) && Absent(f, s, f(r))
    ensures Unique(f, [r] + s)
  {
    assert [r][..0] == [];
    UniqueAppends(f, [], r);
    assert [] + [r] == [r];
    UniqueConcat(f, [r], s);
  }

  // ---------------------------------------------------------------------------
  // Sorting keeps the rows and their uniqueness
  // ---------------------------------------------------------------------------

  lemma {:induction false} InsertedRows(r: Row, s: seq<Row>)
    ensures forall x :: x in Insert(BySendAfter, r, s) <==> x == r || x in s
  {
    if s != [] && s[0].sendAfter < r.sendAfter {
      InsertedRows(r, s[1..]);
    }
  }

  lemma {:induction false} InsertKeepsUnique<T(!new)>(f: Row -> T, r: Row, s: seq<Row>)
    requires Unique(f, s) && Absent(f, s, f(r))
    ensures Unique(f, Insert(BySendAfter, r, s))
  {
    if s == [] || r.sendAfter <= s[0].sendAfter {
      UniqueHead(f, r, s);
    } else {
      UniqueTail(f, s);
      InsertKeepsUnique(f, r, s[1..]);
      InsertedRows(r, s[1..]);
      UniqueHead(f, s[0], Insert(BySendAfter, r, s[1..]));
    }
  }

  lemma {:induction false} SortedRows(s: seq<Row>)
    ensures forall x :: x in Sort(BySendAfter, s) <==> x in s
  {
    if s != [] {
      SortedRows(s[1..]);
      InsertedRows(s[0], Sort(BySendAfter, s[1..]));
    }
  }

  lemma {:induction false} SortKeepsUnique<T(!new)>(f: Row -> T, s: seq<Row>)
    requires Unique(f, s)
    ensures Unique(f, Sort(BySendAfter, s))
  {
    if s != [] {
      UniqueTail(f, s);
      SortKeepsUnique(f, s[1..]);
      SortedRows(s[1..]);
      InsertKeepsUnique(f, s[0], Sort(BySendAfter, s[1..]));
    }
  }

  lemma {:induction false} DueRowsAre(rows: seq<Row>, business: BusinessId, now: Instant)
    ensures forall r :: r in DueRows(rows, business, now) <==> r in rows && IsDue(r, business, now)
  {
    if rows != [] {
      DueRowsAre(rows[1..], business, now);
    }
  }

  lemma {:induction false} DueRowsUnique<T(!new)>(f: Row -> T, rows: seq<Row>, business: BusinessId, now: Instant)
    requires Unique(f, rows)
    ensures Unique(f, DueRows(rows, business, now))
  {
    if rows != [] {
      UniqueTail(f, rows);
      DueRowsUnique(f, rows[1..], business, now);
      DueRowsAre(rows[1..], business, now);
      if IsDue(rows[0], business, now) {
        UniqueHead(f, rows[0], DueRows(rows[1..], business, now));
      }
    }
  }

  lemma DueOfAre(rows: seq<Row>, business: BusinessId, now: Instant)
    ensures forall r :: r in DueOf(rows, business, now) <==> r in rows && IsDue(r, business, now)
  {
    DueRowsAre(rows, business, now);
    SortedRows(DueRows(rows, business, now));
  }

  predicate DistinctIds(businesses: seq<BusinessId>) {
    businesses == []
    || (businesses[|businesses| - 1] !in businesses[..|businesses| - 1] && DistinctIds(businesses[..|businesses| - 1]))
  }

  lemma {:induction false} DistinctIdsMean(businesses: seq<BusinessId>)
    ensures DistinctIds(businesses) <==> forall i, j :: 0 <= i < j < |businesses| ==> businesses[i] != businesses[j]
  {
    if businesses != [] {
      var last := |businesses| - 1;
      DistinctIdsMean(businesses[..last]);
      if i :| 0 <= i < last && businesses[..last][i] == businesses[last] {
        assert businesses[i] == businesses[last];
      }
    }
  }

  lemma {:induction false} AllDueAre(rows: seq<Row>, businesses: seq<BusinessId>, now: Instant)
    ensures forall r :: r in AllDue(rows, businesses, now) <==>
                          r in rows && r.business in businesses && IsDue(r, r.business, now)
  {
    if businesses != [] {
      var front, last := businesses[..|businesses| - 1], businesses[|businesses| - 1];
      AllDueAre(rows, front, now);
      DueOfAre(rows, last, now);
      assert businesses == front + [last];
    }
  }

  lemma {:induction false} AllDueUnique<T(!new)>(f: Row -> T, rows: seq<Row>, businesses: seq<BusinessId>, now: Instant)
    requires Unique(f, rows) && DistinctIds(businesses)
    ensures Unique(f, AllDue(rows, businesses, now))
  {
    if businesses != [] {
      var front, last := businesses[..|businesses| - 1], businesses[|businesses| - 1];
      var a, b := AllDue(rows, front, now), DueOf(rows, last, now);
      AllDueUnique(f, rows, front, now);
      DueRowsUnique(f, rows, last, now);
      SortKeepsUnique(f, DueRows(rows, last, now));
      AllDueAre(rows, front, now);
      DueOfAre(rows, last, now);
      forall r, q | r in b && q in a ensures f(q) != f(r) {
        DifferentRowsDiffer(f, rows, q, r);
      }
      UniqueConcat(f, a, b);
    }
  }

  lemma DifferentRowsDiffer<T(!new)>(f: Row -> T, rows: seq<Row>, q: Row, r: Row)
    requires Unique(f, rows) && q in rows && r in rows && q != r
    ensures f(q) != f(r)
  {
    var i :| 0 <= i < |rows| && rows[i] == q;
    var j :| 0 <= j < |rows| && rows[j] == r;
    if i < j {
      UniqueDiffers(f, rows, i, j);
    } else {
      UniqueDiffers(f, rows, j, i);
    }
  }

  // ---------------------------------------------------------------------------
  // Finding by key
  // ---------------------------------------------------------------------------

  lemma {:induction false} FindFinds(rows: seq<Row>, key: Key)
    ensures Find(rows, key).None? <==> Absent(KeyOf, rows, key)
    ensures Find(rows, key).Some? ==> Find(rows, key).value in rows && Find(rows, key).value.key == key
  {
    if rows != [] {
      FindFinds(rows[1..], key);
      assert rows[0] in rows && KeyOf(rows[0]) == rows[0].key;
    }
  }

  lemma FindIsTheRow(rows: seq<Row>, r: Row)
    requires Unique(KeyOf, rows) && r in rows
    ensures Find(rows, r.key) == Some(r)
  {
    FindFinds(rows, r.key);
    if Find(rows, r.key).value != r {
      DifferentRowsDiffer(KeyOf, rows, Find(rows, r.key).value, r);
    }
  }

  lemma {:induction false} FindAppends(rows: seq<Row>, r: Row, key: Key)
    ensures Find(rows + [r], key)
         == if Find(rows, key).Some? then Find(rows, key) else if r.key == key then Some(r) else None
  {
    if rows == [] {
      assert [] + [r] == [r];
    } else {
      assert (rows + [r])[1..] == rows[1..] + [r];
      FindAppends(rows[1..], r, key);
    }
  }

  /** A row that has left the queue is on the table under this key. */
  predicate Done(rows: seq<Row>, key: Key) {
    Find(rows, key).Some? && !Find(rows, key).value.status.Queued?
  }

  lemma {:induction false} DropKeepsDone(rows: seq<Row>, business: BusinessId, booking: BookingId, key: Key)
    requires Done(rows, key)
    ensures Find(DropFn(rows, business, booking), key) == Find(rows, key)
  {
    if rows[0].key != key {
      DropKeepsDone(rows[1..], business, booking, key);
    }
  }

  lemma {:induction false} MarkKeepsDone(rows: seq<Row>, business: BusinessId, id: NotificationId, status: Status, key: Key)
    requires !status.Queued? && Done(rows, key)
    ensures Done(MarkFn(rows, business, id, status), key)
    ensures Find(MarkFn(rows, business, id, status), key).value.id == Find(rows, key).value.id
  {
    if rows[0].key != key {
      MarkKeepsDone(rows[1..], business, id, status, key);
    }
  }

  lemma EnqueueKeepsDone(t: Table, business: BusinessId, added: Key, sendAfter: Instant, key: Key)
    requires Done(t.rows, key)
    ensures Find(EnqueueFn(t, business, added, sendAfter).rows, key) == Find(t.rows, key)
  {
    if Find(t.rows, added).None? {
      FindAppends(t.rows, Row(t.nextId, business, added, Queued, sendAfter, 0), key);
    }
  }

  lemma {:induction false} EnqueueAllKeepsDone(t: Table, business: BusinessId, booking: BookingId, kind: Kind,
                                              channels: seq<Channel>, sendAfter: Instant, key: Key)
    requires Done(t.rows, key)
    ensures Find(EnqueueAll(t, business, booking, kind, channels, sendAfter).rows, key) == Find(t.rows, key)
  {
    if channels != [] {
      var n := |channels| - 1;
      EnqueueAllKeepsDone(t, business, booking, kind, channels[..n], sendAfter, key);
      EnqueueKeepsDone(EnqueueAll(t, business, booking, kind, channels[..n], sendAfter), business,
                       Key(booking, kind, channels[n]), sendAfter, key);
    }
  }

  lemma ScheduleKeepsDone(t: Table, booking: BookingId, found: Option<Appointment>, event: Event,
                          channels: seq<Channel>, now: Instant, key: Key)
    requires Done(t.rows, key)
    ensures Find(ScheduleFn(t, booking, found, event, channels, now).rows, key) == Find(t.rows, key)
  {
    if found.Some? {
      var a := found.value;
      var told := EnqueueAll(t, a.business, booking, ImmediateKind(event), channels, now);
      EnqueueAllKeepsDone(t, a.business, booking, ImmediateKind(event), channels, now, key);
      if event.Created? && a.RemindAt().Some? && a.RemindAt().value > now {
        EnqueueAllKeepsDone(told, a.business, booking, Reminder, channels, a.RemindAt().value, key);
      }
    }
  }

  // ---------------------------------------------------------------------------
  // Creation order and the order of sending
  // ---------------------------------------------------------------------------

  /** Later rows have larger ids, so the table is in the order of creation. */
  ghost predicate Rises(s: seq<Row>) {
    s == [] || ((forall q :: q in s[1..] ==> s[0].id < q.id) && Rises(s[1..]))
  }

  lemma {:induction false} RisesAppends(s: seq<Row>, r: Row)
    requires Rises(s) && forall q :: q in s ==> q.id < r.id
    ensures Rises(s + [r])
  {
    if s == [] {
      assert [] + [r] == [r];
    } else {
      assert (s + [r])[1..] == s[1..] + [r];
      RisesAppends(s[1..], r);
    }
  }

  lemma {:induction false} DropRises(rows: seq<Row>, business: BusinessId, booking: BookingId)
    requires Rises(rows)
    ensures Rises(DropFn(rows, business, booking))
  {
    if rows != [] {
      var rest := DropFn(rows[1..], business, booking);
      DropRises(rows[1..], business, booking);
      DroppedRows(rows[1..], business, booking);
      assert ([rows[0]] + rest)[1..] == rest;
    }
  }

  lemma {:induction false} SameRowsRise(a: seq<Row>, b: seq<Row>)
    requires SameRows(a, b) && Rises(a)
    ensures Rises(b)
  {
    if a != [] {
      SameRowsRise(a[1..], b[1..]);
      forall q | q in b[1..] ensures b[0].id < q.id {
        var i :| 0 <= i < |b[1..]| && b[1..][i] == q;
        assert a[1..][i] in a[1..];
      }
    }
  }

  lemma {:induction false} DueRise(rows: seq<Row>, business: BusinessId, now: Instant)
    requires Rises(rows)
    ensures Rises(DueRows(rows, business, now))
  {
    if rows != [] {
      var rest := DueRows(rows[1..], business, now);
      DueRise(rows[1..], business, now);
      DueRowsAre(rows[1..], business, now);
      assert ([rows[0]] + rest)[1..] == rest;
    }
  }

  /** Due earlier, or due together and created earlier. */
  predicate Before(r: Row, q: Row) {
    r.sendAfter < q.sendAfter || (r.sendAfter == q.sendAfter && r.id < q.id)
  }

  ghost predicate OldestFirst(s: seq<Row>) {
    s == [] || ((forall q :: q in s[1..] ==> Before(s[0], q)) && OldestFirst(s[1..]))
  }

  lemma {:induction false} InsertKeepsOrder(r: Row, s: seq<Row>)
    requires OldestFirst(s) && forall q :: q in s ==> r.id < q.id
    ensures OldestFirst(Insert(BySendAfter, r, s))
  {
    if s == [] || r.sendAfter <= s[0].sendAfter {
      assert ([r] + s)[1..] == s;
      forall q | q in s ensures Before(r, q) {
        assert q == s[0] || q in s[1..];
      }
    } else {
      var rest := Insert(BySendAfter, r, s[1..]);
      InsertKeepsOrder(r, s[1..]);
      InsertedRows(r, s[1..]);
      assert ([s[0]] + rest)[1..] == rest;
    }
  }

  lemma {:induction false} SortIsOldestFirst(s: seq<Row>)
    requires Rises(s)
    ensures OldestFirst(Sort(BySendAfter, s))
  {
    if s != [] {
      SortIsOldestFirst(s[1..]);
      SortedRows(s[1..]);
      InsertKeepsOrder(s[0], Sort(BySendAfter, s[1..]));
    }
  }

  /** A tenant's listing holds exactly what is queued and due, oldest first. */
  lemma DueIsOldestFirst(t: Table, business: BusinessId, now: Instant)
    requires Tidy(t)
    ensures OldestFirst(DueOf(t.rows, business, now))
    ensures forall r :: r in DueOf(t.rows, business, now) <==> r in t.rows && IsDue(r, business, now)
  {
    DueRise(t.rows, business, now);
    SortIsOldestFirst(DueRows(t.rows, business, now));
    DueOfAre(t.rows, business, now);
  }

  // ---------------------------------------------------------------------------
  // The table stays tidy: unique ids in creation order, unique keys, ids never reused
  // ---------------------------------------------------------------------------

  ghost predicate Tidy(t: Table) {
    && Unique(IdOf, t.rows) && Unique(KeyOf, t.rows) && Rises(t.rows)
    && forall r :: r in t.rows ==> r.id < t.nextId
  }

  lemma EnqueueKeepsTidy(t: Table, business: BusinessId, key: Key, sendAfter: Instant)
    requires Tidy(t)
    ensures Tidy(EnqueueFn(t, business, key, sendAfter))
  {
    FindFinds(t.rows, key);
    if Find(t.rows, key).None? {
      var r := Row(t.nextId, business, key, Queued, sendAfter, 0);
      UniqueAppends(IdOf, t.rows, r);
      UniqueAppends(KeyOf, t.rows, r);
      RisesAppends(t.rows, r);
    }
  }

  lemma {:induction false} EnqueueAllKeepsTidy(t: Table, business: BusinessId, booking: BookingId, kind: Kind,
                                              channels: seq<Channel>, sendAfter: Instant)
    requires Tidy(t)
    ensures Tidy(EnqueueAll(t, business, booking, kind, channels, sendAfter))
  {
    if channels != [] {
      var n := |channels| - 1;
      EnqueueAllKeepsTidy(t, business, booking, kind, channels[..n], sendAfter);
      EnqueueKeepsTidy(EnqueueAll(t, business, booking, kind, channels[..n], sendAfter), business,
                       Key(booking, kind, channels[n]), sendAfter);
    }
  }

  /** The table after scheduling is what one or two rounds of enqueueing leave. */
  lemma ScheduleIs(t: Table, booking: BookingId, a: Appointment, event: Event, channels: seq<Channel>, now: Instant,
                   told: Table)
    requires told == EnqueueAll(t, a.business, booking, ImmediateKind(event), channels, now)
    ensures ScheduleFn(t, booking, Some(a), event, channels, now)
         == if event.Created? && a.RemindAt().Some? && a.RemindAt().value > now
            then EnqueueAll(told, a.business, booking, Reminder, channels, a.RemindAt().value) else told
  {
  }

  lemma ScheduleKeepsTidy(t: Table, booking: BookingId, found: Option<Appointment>, event: Event,
                          channels: seq<Channel>, now: Instant)
    requires Tidy(t)
    ensures Tidy(ScheduleFn(t, booking, found, event, channels, now))
  {
    if found.Some? {
      var a := found.value;
      var told := EnqueueAll(t, a.business, booking, ImmediateKind(event), channels, now);
      EnqueueAllKeepsTidy(t, a.business, booking, ImmediateKind(event), channels, now);
      ScheduleIs(t, booking, a, event, channels, now, told);
      if event.Created? && a.RemindAt().Some? && a.RemindAt().value > now {
        EnqueueAllKeepsTidy(told, a.business, booking, Reminder, channels, a.RemindAt().value);
      }
    }
  }

  lemma {:induction false} DroppedRows(rows: seq<Row>, business: BusinessId, booking: BookingId)
    ensures forall r :: r in DropFn(rows, business, booking) <==> r in rows && !Pending(r, business, booking)
  {
    if rows != [] {
      DroppedRows(rows[1..], business, booking);
    }
  }

  lemma {:induction false} DropKeepsUnique<T(!new)>(f: Row -> T, rows: seq<Row>, business: BusinessId, booking: BookingId)
    requires Unique(f, rows)
    ensures Unique(f, DropFn(rows, business, booking))
  {
    if rows != [] {
      var rest := DropFn(rows[1..], business, booking);
      UniqueTail(f, rows);
      DropKeepsUnique(f, rows[1..], business, booking);
      DroppedRows(rows[1..], business, booking);
      if !Pending(rows[0], business, booking) {
        UniqueHead(f, rows[0], rest);
      }
    }
  }

  lemma DropKeepsTidy(t: Table, business: BusinessId, booking: BookingId)
    requires Tidy(t)
    ensures Tidy(DropPending(t, business, booking))
  {
    DropKeepsUnique(IdOf, t.rows, business, booking);
    DropKeepsUnique(KeyOf, t.rows, business, booking);
    DropRises(t.rows, business, booking);
    DroppedRows(t.rows, business, booking);
  }

  lemma {:induction false} MarkAt(rows: seq<Row>, business: BusinessId, id: NotificationId, status: Status)
    ensures |MarkFn(rows, business, id, status)| == |rows|
    ensures forall i :: 0 <= i < |rows| ==>
      MarkFn(rows, business, id, status)[i]
        == if rows[i].id == id && rows[i].business == business then MarkedRow(rows[i], status) else rows[i]
  {
    if rows != [] {
      MarkAt(rows[1..], business, id, status);
    }
  }

  /** Same rows in the same places, apart from status and attempts. */
  ghost predicate SameRows(a: seq<Row>, b: seq<Row>) {
    |a| == |b| && forall i :: 0 <= i < |a| ==> b[i] == a[i].(status := b[i].status, attempts := b[i].attempts)
  }

  lemma {:induction false} SameRowsUnique<T(!new)>(f: Row -> T, a: seq<Row>, b: seq<Row>)
    requires SameRows(a, b) && Unique(f, a)
    requires forall r: Row, s: Status, n: nat :: f(r.(status := s, attempts := n)) == f(r)
    ensures Unique(f, b)
  {
    if a != [] {
      var n := |a| - 1;
      SameRowsUnique(f, a[..n], b[..n]);
      assert f(b[n]) == f(a[n]);
      forall r | r in b[..n] ensures f(r) != f(b[n]) {
        var i :| 0 <= i < n && b[i] == r;
        assert f(b[i]) == f(a[i]) && a[i] in a[..n];
      }
    }
  }

  lemma SameRowsTidy(t: Table, rows: seq<Row>)
    requires Tidy(t) && SameRows(t.rows, rows)
    ensures Tidy(t.(rows := rows))
  {
    SameRowsUnique(IdOf, t.rows, rows);
    SameRowsUnique(KeyOf, t.rows, rows);
    SameRowsRise(t.rows, rows);
    forall r | r in rows ensures r.id < t.nextId {
      var i :| 0 <= i < |rows| && rows[i] == r;
      assert t.rows[i] in t.rows;
    }
  }

  lemma {:induction false} MarkAllSame(rows: seq<Row>, due: seq<Row>, deliver: Row -> Outcome)
    ensures SameRows(rows, MarkAll(rows, due, deliver))
    decreases |due|
  {
    if due != [] {
      var last := due[|due| - 1];
      MarkAllSame(rows, due[..|due| - 1], deliver);
      MarkAt(MarkAll(rows, due[..|due| - 1], deliver), last.business, last.id, StatusAfter(deliver(last)));
    }
  }

  // ---------------------------------------------------------------------------
  // The notifications a drain gets to
  // ---------------------------------------------------------------------------

  lemma {:induction false} SettledDoNotThrow(due: seq<Row>, deliver: Row -> Outcome)
    ensures forall r :: r in Settled(due, deliver) ==> !deliver(r).Throws() && r in due
  {
    if due != [] && !deliver(due[0]).Throws() {
      SettledDoNotThrow(due[1..], deliver);
    }
  }

  lemma {:induction false} SettledIsPrefix(due: seq<Row>, deliver: Row -> Outcome)
    ensures |Settled(due, deliver)| <= |due| && Settled(due, deliver) == due[..|Settled(due, deliver)|]
  {
    if due != [] && !deliver(due[0]).Throws() {
      SettledIsPrefix(due[1..], deliver);
      assert due == [due[0]] + due[1..];
    }
  }
}

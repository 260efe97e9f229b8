/** Concrete runs that show where the booking writes' guarantees stop. */
module BookingWitnesses {
  import opened Common
  import opened BookingRows
  import opened BookingProtocol
  import opened BookingTheorems
  import opened BookingHistory

  /** What a customer asks for: a service at a moment, approved at once or not. */
  datatype Request = Request(business: BusinessId, service: Service, startsAt: Instant, status: Status)
  {
    /** Requests that the schema, the service and the lifecycle let through. */
    predicate Bookable() {
      service.InSchema() && service.active && status in {Pending, Confirmed}
    }

    function Size(): Shape {
      Shape(Minutes(service.durationMin), service.bufferBefore, service.bufferAfter)
    }

    function Asked(): Program {
      Create(startsAt, Customer, status, false)
    }
  }

  const HOUR_LONG: Service := Service(60, 0, 0, 0, true)

  function HourAt(startsAt: Instant): Request {
    Request(0, HOUR_LONG, startsAt, Confirmed)
  }

  function Booked(began: Instant, r: Request): Row {
    Row(r.business, r.startsAt, r.startsAt + Minutes(r.service.durationMin), r.service.bufferBefore,
        r.service.bufferAfter, r.status, r.service.price, 0, Some(began), None)
  }

  function Creating(began: Instant, r: Request, stage: Stage): Tx {
    Tx(r.business, began, r.Asked(), stage)
  }

  function Inserting(began: Instant, r: Request, id: BookingId): Tx {
    Creating(began, r, Wrote(id, Booked(began, r), Placed(Customer, false, false)))
  }

  function Unopposed(r: Request): Stage {
    Checked(r.Size(), r.service.price, false)
  }

  function With(s: State, t: TxId, tx: Tx): State {
    s.(txns := s.txns[t := tx])
  }

  lemma Restaged(s: State, t: TxId, a: Tx, b: Tx)
    ensures With(With(s, t, a), t, b) == With(s, t, b)
  {
    assert s.txns[t := a][t := b] == s.txns[t := b];
  }

  lemma BeginAndLock(env: Env, s: State, t: TxId, r: Request, key: int)
    requires Reachable(env, s) && t !in s.txns && r.Bookable()
    requires key == LockOf(env, r.business, r.startsAt) && key !in s.dayLocks
    ensures Reachable(env, With(s.(dayLocks := s.dayLocks[key := t]), t, Creating(s.clock, r, Locked)))
  {
    var begin := Begin(r.business, r.Asked(), s.clock);
    Extend(env, s, t, begin);
    var s1 := Apply(env, s, t, begin);
    assert s1 == With(s, t, Creating(s.clock, r, Started));
    Extend(env, s1, t, LockDay);
    assert Apply(env, s1, t, LockDay).txns == s.txns[t := Creating(s.clock, r, Locked)];
  }

  lemma SizeAndCheck(env: Env, s: State, t: TxId, began: Instant, r: Request)
    requires Reachable(env, s) && s.rows == map[] && r.Bookable()
    requires t in s.txns && s.txns[t] == Creating(began, r, Locked)
    ensures Reachable(env, With(s, t, Creating(began, r, Unopposed(r))))
  {
    var read := ReadService(Some(r.service));
    Extend(env, s, t, read);
    var s1 := Apply(env, s, t, read);
    assert s1 == With(s, t, Creating(began, r, Sized(r.Size(), r.service.price)));
    Extend(env, s1, t, FindConflict(None));
    assert Apply(env, s1, t, FindConflict(None)).txns == s.txns[t := Creating(began, r, Unopposed(r))];
  }

  lemma InsertNow(env: Env, s: State, t: TxId, began: Instant, r: Request, id: BookingId)
    requires Reachable(env, s) && id !in s.rows && RowFree(s, t, id)
    requires t in s.txns && s.txns[t] == Creating(began, r, Unopposed(r))
    ensures Reachable(env, With(s, t, Inserting(began, r, id)))
  {
    Extend(env, s, t, Write(id));
    assert Apply(env, s, t, Write(id)).txns == s.txns[t := Inserting(began, r, id)];
  }

  /** A customer's create up to its conflict check, while the committed table is empty. */
  lemma LockAndCheck(env: Env, s: State, t: TxId, r: Request, key: int) returns (s': State)
    requires Reachable(env, s) && s.rows == map[] && t !in s.txns && r.Bookable()
    requires key == LockOf(env, r.business, r.startsAt) && key !in s.dayLocks
    ensures Reachable(env, s')
    ensures s' == With(s.(dayLocks := s.dayLocks[key := t]), t, Creating(s.clock, r, Unopposed(r)))
  {
    BeginAndLock(env, s, t, r, key);
    var locked := s.(dayLocks := s.dayLocks[key := t]);
    var s1 := With(locked, t, Creating(s.clock, r, Locked));
    SizeAndCheck(env, s1, t, s.clock, r);
    s' := With(locked, t, Creating(s.clock, r, Unopposed(r)));
    Restaged(locked, t, s1.txns[t], s'.txns[t]);
  }

  /** Runs a customer's create up to its INSERT while the committed table is empty. */
  lemma InsertIntoEmpty(env: Env, s: State, t: TxId, r: Request, id: BookingId, key: int) returns (s': State)
    requires Reachable(env, s) && s.rows == map[] && t !in s.txns && RowFree(s, t, id) && r.Bookable()
    requires key == LockOf(env, r.business, r.startsAt) && key !in s.dayLocks
    ensures Reachable(env, s')
    ensures s' == With(s.(dayLocks := s.dayLocks[key := t]), t, Inserting(s.clock, r, id))
  {
    var checked := LockAndCheck(env, s, t, r, key);
    InsertNow(env, checked, t, s.clock, r, id);
    Restaged(s.(dayLocks := s.dayLocks[key := t]), t, checked.txns[t], Inserting(s.clock, r, id));
    s' := With(checked, t, Inserting(s.clock, r, id));
  }

  lemma CommitPending(env: Env, s: State, t: TxId) returns (s': State)
    requires Reachable(env, s) && t in s.txns && s.txns[t].stage.Wrote?
    ensures Reachable(env, s')
    ensures var tx := s.txns[t];
            && s'.rows == s.rows[tx.stage.id := tx.stage.row]
            && s'.log == s.log + [Event(tx.stage.id, tx.began, tx.stage.effect)]
            && s'.txns == s.txns - {t} && s'.clock == s.clock
  {
    Extend(env, s, t, Commit);
    s' := Apply(env, s, t, Commit);
  }

  // ---------------------------------------------------------------------------
  // Which overlaps the lock lets through
  // ---------------------------------------------------------------------------

  /** Two customers' creates under different lock keys, both past their check. */
  lemma TwoInserted(env: Env, x: Request, y: Request) returns (s: State)
    requires x.Bookable() && y.Bookable()
    requires LockOf(env, x.business, x.startsAt) != LockOf(env, y.business, y.startsAt)
    ensures Reachable(env, s) && s.rows == map[] && s.log == []
    ensures s.txns == map[0 := Inserting(0, x, 0), 1 := Inserting(0, y, 1)]
  {
    assert Possible(env, EMPTY, []);
    var s1 := InsertIntoEmpty(env, EMPTY, 0, x, 0, LockOf(env, x.business, x.startsAt));
    s := InsertIntoEmpty(env, s1, 1, y, 1, LockOf(env, y.business, y.startsAt));
  }

  lemma TwoUnreported(log: seq<Event>)
    requires |log| == 2 && log[0].id == 0 && log[1].id == 1
    requires forall k :: 0 <= k < 2 ==> log[k].effect == Placed(Customer, false, false)
    ensures !Reported(log, 0) && !Reported(log, 1)
  {
    LastPlacementIsLogged(log, 0);
    LastPlacementIsLogged(log, 1);
  }

  predicate Fulfils(row: Row, r: Request) {
    row.business == r.business && row.startsAt == r.startsAt && row.Size() == r.Size() && row.status == r.status
  }

  /** These two bookings stand in the committed table and neither placement said it overlapped. */
  predicate BothStand(s: State, i: BookingId, x: Request, j: BookingId, y: Request) {
    && i != j && i in s.rows && j in s.rows
    && Fulfils(s.rows[i], x) && Fulfils(s.rows[j], y)
    && !Reported(s.log, i) && !Reported(s.log, j)
  }

  /** Some interleaving ends with both requests granted as if the other were not there. */
  ghost predicate CanBothBeGranted(env: Env, x: Request, y: Request) {
    exists s, i, j :: Reachable(env, s) && BothStand(s, i, x, j, y)
  }

  predicate Competing(x: Request, y: Request) {
    x.business == y.business
    && x.Size().From(x.startsAt) < y.Size().Until(y.startsAt)
    && x.Size().Until(x.startsAt) > y.Size().From(y.startsAt)
  }

  lemma GrantBoth(env: Env, x: Request, y: Request) returns (s: State)
    requires x.Bookable() && y.Bookable()
    requires LockOf(env, x.business, x.startsAt) != LockOf(env, y.business, y.startsAt)
    ensures Reachable(env, s) && BothStand(s, 0, x, 1, y)
  {
    var s1 := TwoInserted(env, x, y);
    var s2 := CommitPending(env, s1, 0);
    s := CommitPending(env, s2, 1);
    TwoUnreported(s.log);
  }

  /**
   * Exactly which competing requests can both be granted: those whose starts do not share a
   * lock key. It holds for any two services, any lock function and any timezone.
   */
  lemma OverlapExactlyAcrossKeys(env: Env, x: Request, y: Request)
    requires x.Bookable() && y.Bookable() && Competing(x, y)
    ensures CanBothBeGranted(env, x, y)
       <==> LockOf(env, x.business, x.startsAt) != LockOf(env, y.business, y.startsAt)
  {
    if LockOf(env, x.business, x.startsAt) != LockOf(env, y.business, y.startsAt) {
      var s := GrantBoth(env, x, y);
    } else if CanBothBeGranted(env, x, y) {
      var s, i, j :| Reachable(env, s) && BothStand(s, i, x, j, y);
      assert Overlap(s.rows[i], s.rows[j]);
      NoUnreportedOverlapUnderOneKey(env, s, i, j);
    }
  }

  /** In particular a booking from 23:30 to 00:30 and one from 00:00 to 01:00, when the dates' keys differ. */
  lemma MidnightIsNotExcluded(env: Env) returns (s: State)
    requires LockOf(env, 0, Minutes(23 * 60 + 30)) != LockOf(env, 0, Minutes(24 * 60))
    ensures Reachable(env, s)
    ensures 0 in s.rows && 1 in s.rows && s.rows[0].Live() && s.rows[1].Live()
    ensures s.rows[0].business == s.rows[1].business && Overlap(s.rows[0], s.rows[1])
    ensures !Reported(s.log, 0) && !Reported(s.log, 1)
  {
    s := GrantBoth(env, HourAt(Minutes(23 * 60 + 30)), HourAt(Minutes(24 * 60)));
  }

  // ---------------------------------------------------------------------------
  // An approval that keeps the SEQUENCE
  // ---------------------------------------------------------------------------

  /** A pending booking and the owner's approval of it: another STATUS under the same SEQUENCE. */
  lemma ApprovalKeepsTheSequence(env: Env) returns (s: State, run: Run)
    ensures Reachable(env, s) && Possible(env, s, run) && 0 in s.rows && 0 in After(env, s, run).rows
    ensures s.rows[0].status == Pending && After(env, s, run).rows[0].status == Confirmed
    ensures s.rows[0].revision == After(env, s, run).rows[0].revision
  {
    assert Possible(env, EMPTY, []);
    var request := Request(0, HOUR_LONG, 0, Pending);
    var s1 := InsertIntoEmpty(env, EMPTY, 0, request, 0, LockOf(env, 0, 0));
    s := CommitPending(env, s1, 0);
    var begin, write := Begin(0, Confirm(0), s.clock), Write(0);
    OneStep(env, s, 1, begin);
    var begun := Apply(env, s, 1, begin);
    OneStep(env, begun, 1, write);
    var written := Apply(env, begun, 1, write);
    OneStep(env, written, 1, Commit);
    RunsCompose(env, begun, [(1, write)], [(1, Commit)]);
    RunsCompose(env, s, [(1, begin)], [(1, write)] + [(1, Commit)]);
    run := [(1, begin)] + ([(1, write)] + [(1, Commit)]);
  }

  // ---------------------------------------------------------------------------
  // A change the owner never sees
  // ---------------------------------------------------------------------------

  lemma Start(env: Env, s: State, t: TxId, program: Program, now: Instant) returns (s': State)
    requires Reachable(env, s) && t !in s.txns && s.clock <= now && !program.Create?
    ensures Reachable(env, s')
    ensures s'.rows == s.rows && s'.log == s.log && s'.clock == now
    ensures s'.txns == s.txns[t := Tx(0, now, program, Started)]
  {
    Extend(env, s, t, Begin(0, program, now));
    s' := Apply(env, s, t, Begin(0, program, now));
  }

  /** A customer's cancellation of booking 0, past its notice check. */
  lemma StartCancel(env: Env, s: State, t: TxId, now: Instant) returns (s': State)
    requires Reachable(env, s) && t !in s.txns && s.clock <= now
    requires env.cancellationWindowMin(0) == 0
    requires Visible(s.rows, 0, 0) && s.rows[0].startsAt >= 0
    ensures Reachable(env, s')
    ensures s'.rows == s.rows && s'.log == s.log && s'.clock == now
    ensures s'.txns == s.txns[t := Tx(0, now, Cancel(0, Customer, 0), Cleared)]
  {
    var s1 := Start(env, s, t, Cancel(0, Customer, 0), now);
    Extend(env, s1, t, ReadBooking);
    s' := Apply(env, s1, t, ReadBooking);
    assert s'.txns == s.txns[t := Tx(0, now, Cancel(0, Customer, 0), Cleared)];
  }

  /** From a program's UPDATE to its commit. */
  lemma UpdateAndCommit(env: Env, s: State, t: TxId) returns (s': State)
    requires Reachable(env, s) && t in s.txns
    requires ReadyToWrite(s.txns[t]) && !s.txns[t].program.Places()
    requires Matches(s.rows, s.txns[t]) && RowFree(s, t, s.txns[t].program.id)
    ensures Reachable(env, s')
    ensures var tx := s.txns[t];
            && s'.rows == s.rows[tx.program.id := Updated(tx, s.rows[tx.program.id], 0)]
            && s'.log == s.log + [Event(tx.program.id, tx.began, EffectOf(tx))]
            && s'.txns == s.txns - {t} && s'.clock == s.clock
  {
    var tx := s.txns[t];
    var id := tx.program.id;
    Extend(env, s, t, Write(id));
    var s1 := Apply(env, s, t, Write(id));
    assert s1.txns[t].stage == Wrote(id, Updated(tx, s.rows[id], 0), EffectOf(tx));
    s' := CommitPending(env, s1, t);
    assert s'.txns == s.txns - {t};
  }

  /** Booking 0 exists; one customer change began at 5, a mark-seen at 6, another change at 7. */
  lemma ThreeInFlight(env: Env) returns (s: State)
    requires env.cancellationWindowMin(0) == 0
    ensures Reachable(env, s)
    ensures s.rows == map[0 := Booked(0, HourAt(Minutes(60)))] && s.log == [Event(0, 0, Placed(Customer, false, false))]
    ensures s.txns == map[1 := Tx(0, 5, Cancel(0, Customer, 0), Cleared), 2 := Tx(0, 6, MarkSeen(0), Started),
                          3 := Tx(0, 7, Cancel(0, Customer, 0), Cleared)]
  {
    assert Possible(env, EMPTY, []);
    var s1 := InsertIntoEmpty(env, EMPTY, 0, HourAt(Minutes(60)), 0, LockOf(env, 0, Minutes(60)));
    var s2 := CommitPending(env, s1, 0);
    assert s2.txns == map[];
    var s3 := StartCancel(env, s2, 1, 5);
    var s4 := Start(env, s3, 2, MarkSeen(0), 6);
    s := StartCancel(env, s4, 3, 7);
  }

  lemma CommitLaterChange(env: Env) returns (s: State)
    requires env.cancellationWindowMin(0) == 0
    ensures Reachable(env, s) && s.rows.Keys == {0} && s.rows[0].business == 0
    ensures s.log == [Event(0, 0, Placed(Customer, false, false)), Event(0, 7, CalledOff(Customer))]
    ensures s.txns == map[1 := Tx(0, 5, Cancel(0, Customer, 0), Cleared), 2 := Tx(0, 6, MarkSeen(0), Started)]
  {
    var s1 := ThreeInFlight(env);
    s := UpdateAndCommit(env, s1, 3);
  }

  lemma CommitBothChanges(env: Env) returns (s: State)
    requires env.cancellationWindowMin(0) == 0
    ensures Reachable(env, s) && s.rows.Keys == {0} && s.rows[0].business == 0
    ensures s.log == [Event(0, 0, Placed(Customer, false, false)), Event(0, 7, CalledOff(Customer)),
                      Event(0, 5, CalledOff(Customer))]
    ensures s.rows[0].lastCustomerChange == Some(5)
    ensures s.txns == map[2 := Tx(0, 6, MarkSeen(0), Started)]
  {
    var s1 := CommitLaterChange(env);
    s := UpdateAndCommit(env, s1, 1);
  }

  lemma CommitInOrder(env: Env) returns (s: State)
    requires env.cancellationWindowMin(0) == 0
    ensures Reachable(env, s) && 0 in s.rows
    ensures s.log == [Event(0, 0, Placed(Customer, false, false)), Event(0, 7, CalledOff(Customer)),
                      Event(0, 5, CalledOff(Customer)), Event(0, 6, SeenByOwner)]
    ensures s.rows[0].lastCustomerChange == Some(5) && s.rows[0].ownerSeen == Some(6)
  {
    var s1 := CommitBothChanges(env);
    s := UpdateAndCommit(env, s1, 2);
  }

  /**
   * Committed in the order 7, 5, 6 the badge ends up off, although the owner's mark-seen of
   * 6 began before the change of 7: the change of 5 wrote an earlier stamp over it.
   */
  lemma OvertakenChangeIsHidden(env: Env) returns (s: State, b: nat)
    requires env.cancellationWindowMin(0) == 0
    ensures Reachable(env, s) && 0 in s.rows
    ensures Unseen(s.log, 0, b) && s.log[b].began == 7
    ensures !s.rows[0].NeedsAttention()
  {
    s := CommitInOrder(env);
    b := 1;
  }
}

/**
 * The booking writes as a caller sees them: each method runs one transaction statement by
 * statement against the database, with nothing else in flight. Every method is a serial run
 * of the protocol, so the protocol's theorems hold of the table between any two calls.
 */
module BookingEngine {
  import opened Common
  import opened BookingRows
  import opened BookingProtocol
  import opened BookingTheorems

  /** What `toBooking` tells the caller about a write. */
  datatype Saved = Saved(id: BookingId, overlapped: bool)

  const T: TxId := 0

  class Database {
    const env: Env
    var rows: Table
    var txns: map<TxId, Tx>
    var dayLocks: map<int, TxId>
    var clock: Instant
    ghost var log: seq<Event>

    ghost function View(): State
      reads this
    {
      State(rows, txns, dayLocks, clock, log)
    }

    /** Between calls: some serial run led here and no transaction is in flight. */
    ghost predicate Valid()
      reads this
    {
      ReachableSerially(env, View()) && txns == map[]
    }

    constructor (env: Env)
      ensures Valid() && this.env == env && rows == map[] && clock == 0 && log == []
    {
      this.env := env;
      rows, txns, dayLocks, clock, log := map[], map[], map[], 0, [];
      new;
      assert Possible(env, EMPTY, []) && Serial(env, EMPTY, []) && After(env, EMPTY, []) == View();
    }

    /** The database executes one statement. */
    method Execute(m: Move)
      requires ReachableSerially(env, View()) && Enabled(env, View(), T, m)
      requires m.Begin? ==> txns == map[]
      modifies this
      ensures View() == Apply(env, old(View()), T, m)
      ensures ReachableSerially(env, View())
    {
      ExtendSerially(env, View(), T, m);
      match m
      case Begin(business, program, now) =>
        clock := now;
        txns := txns[T := Tx(business, now, program, Started)];
      case LockDay =>
        var tx := txns[T];
        dayLocks := dayLocks[Key(env, tx) := T];
        txns := txns[T := tx.(stage := if tx.program.Create? then Locked else Sized(tx.stage.shape, 0))];
      case ReadBooking => txns := txns[T := txns[T].(stage := AfterRead(env, rows, txns[T]))];
      case ReadService(service) => txns := txns[T := txns[T].(stage := AfterService(service))];
      case FindConflict(hit) => txns := txns[T := txns[T].(stage := AfterCheck(txns[T], hit))];
      case Write(id) => txns := txns[T := txns[T].(stage := AfterWrite(rows, txns[T], id))];
      case Commit =>
        if txns[T].stage.Wrote? {
          var tx := txns[T];
          rows := rows[tx.stage.id := tx.stage.row];
          log := log + [Event(tx.stage.id, tx.began, tx.stage.effect)];
        }
        ReleaseAll();
      case Rollback => ReleaseAll();
      case Abort => ReleaseAll();
    }

    method ReleaseAll()
      modifies this`txns, this`dayLocks
      ensures View() == End(old(View()), T)
    {
      txns := txns - {T};
      dayLocks := map k | k in dayLocks && dayLocks[k] != T :: dayLocks[k];
    }

    /** The conflict query: any one clashing booking, or none when there is none. */
    method SelectConflict(from: Instant, until: Instant) returns (hit: Option<BookingId>)
      requires T in txns && txns[T].program.Places()
      ensures var found := Conflicts(rows, txns[T].business, from, until, txns[T].program.Exclude());
              if hit.Some? then hit.value in found else found == {}
    {
      var found := Conflicts(rows, txns[T].business, from, until, txns[T].program.Exclude());
      if found == {} {
        hit := None;
      } else {
        var id :| id in found;
        hit := Some(id);
      }
    }

    /** COMMIT on the way out, ROLLBACK when the program threw. */
    method Finish() returns (r: Result<Option<Saved>, Error>)
      requires ReachableSerially(env, View()) && txns.Keys == {T}
      requires txns[T].stage.Wrote? || txns[T].stage.NoRows? || txns[T].stage.Failed?
      modifies this
      ensures Valid() && clock == old(clock)
      ensures match old(txns[T]).stage
              case Wrote(id, row, effect) =>
                && r == Ok(Some(Saved(id, effect.Placed? && effect.overlapped)))
                && rows == old(rows)[id := row]
                && log == old(log) + [Event(id, old(txns[T]).began, effect)]
              case Failed(error) => r == Err(error) && rows == old(rows) && log == old(log)
              case _ => r == Ok(None) && rows == old(rows) && log == old(log)
    {
      var stage := txns[T].stage;
      if stage.Failed? {
        Execute(Rollback);
        r := Err(stage.error);
      } else {
        Execute(Commit);
        r := if stage.Wrote? then Ok(Some(Saved(stage.id, stage.effect.Placed? && stage.effect.overlapped)))
             else Ok(None);
      }
      assert txns == map[];
    }

    /** BEGIN and, for a placement that needs no earlier read, the day lock. */
    method Open(business: BusinessId, program: Program, now: Instant)
      requires Valid() && clock <= now
      requires program.Create? ==> program.status in {Pending, Confirmed}
      modifies this
      ensures ReachableSerially(env, View()) && clock == now && dayLocks == map[]
      ensures rows == old(rows) && log == old(log)
      ensures txns == map[T := Tx(business, now, program, Started)]
    {
      SeriallyReachableInv(env, View());
      assert forall k :: k !in View().dayLocks;
      Execute(Begin(business, program, now));
    }

    /** A create's lock and its read of the service. */
    method LockAndSize(service: Option<Service>)
      requires ReachableSerially(env, View()) && txns.Keys == {T} && dayLocks == map[]
      requires txns[T].program.Create? && txns[T].stage.Started? && (service.Some? ==> service.value.InSchema())
      modifies this
      ensures ReachableSerially(env, View()) && clock == old(clock) && rows == old(rows) && log == old(log)
      ensures txns == map[T := old(txns[T]).(stage := AfterService(service))]
    {
      Execute(LockDay);
      Execute(ReadService(service));
    }

    /** A reschedule's read of its booking and, when that found it, its lock. */
    method FindAndLock()
      requires ReachableSerially(env, View()) && txns.Keys == {T} && dayLocks == map[]
      requires txns[T].program.Reschedule? && txns[T].stage.Started?
      modifies this
      ensures ReachableSerially(env, View()) && clock == old(clock) && rows == old(rows) && log == old(log)
      ensures var tx := old(txns[T]);
              txns == map[T := tx.(stage := if Visible(rows, tx.business, tx.program.id)
                                            then Sized(rows[tx.program.id].Size(), 0) else Failed(NotFound))]
    {
      Execute(ReadBooking);
      if txns[T].stage.Found? {
        Execute(LockDay);
      }
    }

    /** From a known size to the conflict check's verdict and the write. */
    method CheckAndWrite(id: BookingId)
      requires ReachableSerially(env, View()) && txns.Keys == {T}
      requires txns[T].program.Places() && txns[T].stage.Sized?
      requires if txns[T].program.Create? then id !in rows
               else id == txns[T].program.id && Visible(rows, txns[T].business, id)
      modifies this
      ensures ReachableSerially(env, View()) && txns.Keys == {T} && clock == old(clock)
      ensures rows == old(rows) && log == old(log)
      ensures var tx := old(txns[T]);
              var found := Conflicts(rows, tx.business, tx.stage.shape.From(tx.program.startsAt),
                                     tx.stage.shape.Until(tx.program.startsAt), tx.program.Exclude());
              if found != {} && !tx.program.allowOverlap then
                txns[T].stage.Failed? && txns[T].stage.error.Conflict? && txns[T].stage.error.id in found
              else
                var checked := tx.(stage := Checked(tx.stage.shape, tx.stage.price, found != {}));
                txns[T] == tx.(stage := AfterWrite(rows, checked, id))
    {
      var tx := txns[T];
      var hit := SelectConflict(tx.stage.shape.From(tx.program.startsAt), tx.stage.shape.Until(tx.program.startsAt));
      Execute(FindConflict(hit));
      if txns[T].stage.Checked? {
        Execute(Write(id));
      }
    }

    /** A create up to its conflict check. */
    method OpenCreate(business: BusinessId, program: Program, service: Option<Service>, now: Instant)
      requires Valid() && clock <= now && program.Create? && program.status in {Pending, Confirmed}
      requires service.Some? ==> service.value.InSchema()
      modifies this
      ensures ReachableSerially(env, View()) && clock == now && rows == old(rows) && log == old(log)
      ensures txns == map[T := Tx(business, now, program, AfterService(service))]
    {
      Open(business, program, now);
      LockAndSize(service);
    }

    /** The statements of a create, one after another. */
    method RunCreate(business: BusinessId, service: Option<Service>, startsAt: Instant, actor: Actor,
                     status: Status, allowOverlap: bool, newId: BookingId, now: Instant)
      returns (r: Result<Option<Saved>, Error>)
      requires Valid() && clock <= now && newId !in rows
      requires status in {Pending, Confirmed} && (service.Some? ==> service.value.InSchema())
      modifies this
      ensures Valid() && clock == now
      ensures service.None? ==> r == Err(UnknownService)
      ensures service.Some? && !service.value.active ==> r == Err(NotBookable)
      ensures service.Some? && service.value.active ==>
        var sv := service.value;
        var endsAt := startsAt + Minutes(sv.durationMin);
        var found := Conflicts(old(rows), business, startsAt - Minutes(sv.bufferBefore),
                               endsAt + Minutes(sv.bufferAfter), None);
        if found != {} && !allowOverlap then r.Err? && r.error.Conflict? && r.error.id in found
        else
          && r == Ok(Some(Saved(newId, found != {})))
          && rows == old(rows)[newId := Row(business, startsAt, endsAt, sv.bufferBefore, sv.bufferAfter, status,
                                            sv.price, 0, if actor.Customer? then Some(now) else None, None)]
      ensures r.Err? ==> rows == old(rows)
      ensures log == if r.Ok? && r.value.Some?
                     then old(log) + [Event(newId, now, Placed(actor, allowOverlap, r.value.value.overlapped))]
                     else old(log)
    {
      OpenCreate(business, Create(startsAt, actor, status, allowOverlap), service, now);
      if txns[T].stage.Sized? {
        CheckAndWrite(newId);
      }
      r := Finish();
    }

    /** `createBooking`: `service` is the row its SELECT returns, `newId` the new row's id. */
    method CreateBooking(business: BusinessId, service: Option<Service>, startsAt: Instant, actor: Actor,
                         status: Status, allowOverlap: bool, newId: BookingId, now: Instant)
      returns (r: Result<Option<Saved>, Error>)
      requires Valid() && clock <= now && newId !in rows
      requires status in {Pending, Confirmed} && (service.Some? ==> service.value.InSchema())
      modifies this
      ensures Valid() && clock == now
      ensures service.None? ==> r == Err(UnknownService)
      ensures service.Some? && !service.value.active ==> r == Err(NotBookable)
      ensures service.Some? && service.value.active ==>
        var sv, was := service.value, old(rows);
        var endsAt := startsAt + sv.durationMin * 60_000;
        var taken := set j | j in was && was[j].business == business
                             && (was[j].status == Pending || was[j].status == Confirmed)
                             && was[j].startsAt - was[j].bufferBefore * 60_000 < endsAt + sv.bufferAfter * 60_000
                             && was[j].endsAt + was[j].bufferAfter * 60_000 > startsAt - sv.bufferBefore * 60_000;
        if taken != {} && !allowOverlap then r.Err? && r.error.Conflict? && r.error.id in taken
        else
          && r == Ok(Some(Saved(newId, taken != {})))
          && rows == was[newId := Row(business, startsAt, endsAt, sv.bufferBefore, sv.bufferAfter, status,
                                      sv.price, 0, if actor == Customer then Some(now) else None, None)]
      ensures r.Err? ==> rows == old(rows)
      ensures log == if r.Ok? && r.value.Some?
                     then old(log) + [Event(newId, now, Placed(actor, allowOverlap, r.value.value.overlapped))]
                     else old(log)
    {
      if service.Some? {
        ConflictsExactly(rows, business, startsAt - Minutes(service.value.bufferBefore),
                         startsAt + Minutes(service.value.durationMin) + Minutes(service.value.bufferAfter), None);
      }
      r := RunCreate(business, service, startsAt, actor, status, allowOverlap, newId, now);
    }

    /** A reschedule up to its conflict check. */
    method OpenReschedule(business: BusinessId, program: Program, now: Instant)
      requires Valid() && clock <= now && program.Reschedule?
      modifies this
      ensures ReachableSerially(env, View()) && clock == now && rows == old(rows) && log == old(log)
      ensures txns == map[T := Tx(business, now, program,
                                  if Visible(rows, business, program.id)
                                  then Sized(rows[program.id].Size(), 0) else Failed(NotFound))]
    {
      Open(business, program, now);
      FindAndLock();
    }

    /** The statements of a reschedule, one after another. */
    method RunReschedule(business: BusinessId, id: BookingId, startsAt: Instant, actor: Actor,
                         allowOverlap: bool, now: Instant)
      returns (r: Result<Option<Saved>, Error>)
      requires Valid() && clock <= now
      modifies this
      ensures Valid() && clock == now
      ensures !Visible(old(rows), business, id) ==> r == Err(NotFound)
      ensures Visible(old(rows), business, id) ==>
        var row := old(rows)[id];
        var found := Conflicts(old(rows), business, row.Size().From(startsAt), row.Size().Until(startsAt), Some(id));
        if found != {} && !allowOverlap then r.Err? && r.error.Conflict? && r.error.id in found
        else
          && r == Ok(Some(Saved(id, found != {})))
          && rows == old(rows)[id := row.(
               startsAt := startsAt, endsAt := startsAt + (row.endsAt - row.startsAt), revision := row.revision + 1,
               lastCustomerChange := if actor.Customer? then Some(now) else row.lastCustomerChange,
               ownerSeen := if actor.Customer? then None else row.ownerSeen)]
      ensures r.Err? ==> rows == old(rows)
      ensures log == if r.Ok? && r.value.Some?
                     then old(log) + [Event(id, now, Placed(actor, allowOverlap, r.value.value.overlapped))]
                     else old(log)
    {
      OpenReschedule(business, Reschedule(id, startsAt, actor, allowOverlap), now);
      if txns[T].stage.Sized? {
        CheckAndWrite(id);
      }
      r := Finish();
    }

    /** `rescheduleBooking` */
    method RescheduleBooking(business: BusinessId, id: BookingId, startsAt: Instant, actor: Actor,
                             allowOverlap: bool, now: Instant)
      returns (r: Result<Option<Saved>, Error>)
      requires Valid() && clock <= now
      modifies this
      ensures Valid() && clock == now
      ensures !(id in old(rows) && old(rows)[id].business == business) ==> r == Err(NotFound)
      ensures id in old(rows) && old(rows)[id].business == business ==>
        var row, was := old(rows)[id], old(rows);
        var endsAt := startsAt + (row.endsAt - row.startsAt);
        var taken := set j | j in was && was[j].business == business && j != id
                             && (was[j].status == Pending || was[j].status == Confirmed)
                             && was[j].startsAt - was[j].bufferBefore * 60_000 < endsAt + row.bufferAfter * 60_000
                             && was[j].endsAt + was[j].bufferAfter * 60_000 > startsAt - row.bufferBefore * 60_000;
        if taken != {} && !allowOverlap then r.Err? && r.error.Conflict? && r.error.id in taken
        else
          && r == Ok(Some(Saved(id, taken != {})))
          && rows == was[id := row.(
               startsAt := startsAt, endsAt := endsAt, revision := row.revision + 1,
               lastCustomerChange := if actor == Customer then Some(now) else row.lastCustomerChange,
               ownerSeen := if actor == Customer then None else row.ownerSeen)]
      ensures r.Err? ==> rows == old(rows)
      ensures log == if r.Ok? && r.value.Some?
                     then old(log) + [Event(id, now, Placed(actor, allowOverlap, r.value.value.overlapped))]
                     else old(log)
    {
      if Visible(rows, business, id) {
        ConflictsExactly(rows, business, rows[id].Size().From(startsAt), rows[id].Size().Until(startsAt), Some(id));
      }
      r := RunReschedule(business, id, startsAt, actor, allowOverlap, now);
    }

    /** `cancelBooking`: the notice window binds customers, never the owner. */
    method CancelBooking(business: BusinessId, id: BookingId, actor: Actor, callerNow: Instant, now: Instant)
      returns (r: Result<Option<Saved>, Error>)
      requires Valid() && clock <= now
      modifies this
      ensures Valid() && clock == now
      ensures !(id in old(rows) && old(rows)[id].business == business) ==> r == Err(NotFound)
      ensures id in old(rows) && old(rows)[id].business == business ==>
        var row := old(rows)[id];
        if actor.Customer? && row.startsAt - callerNow < env.cancellationWindowMin(business) * 60_000
        then r == Err(TooLate)
        else
          && r == Ok(Some(Saved(id, false)))
          && rows == old(rows)[id := row.(
               status := Cancelled, revision := row.revision + 1,
               lastCustomerChange := if actor.Customer? then Some(now) else row.lastCustomerChange,
               ownerSeen := if actor.Customer? then None else row.ownerSeen)]
      ensures r.Err? ==> rows == old(rows)
      ensures log == if r.Ok? then old(log) + [Event(id, now, CalledOff(actor))] else old(log)
    {
      Open(business, Cancel(id, actor, callerNow), now);
      if actor.Customer? {
        Execute(ReadBooking);
      }
      if !txns[T].stage.Failed? {
        Execute(Write(id));
      }
      r := Finish();
    }

    /** `markNoShow`: refused until the appointment has finished. */
    method MarkNoShowBooking(business: BusinessId, id: BookingId, callerNow: Instant, now: Instant)
      returns (r: Result<Option<Saved>, Error>)
      requires Valid() && clock <= now
      modifies this
      ensures Valid() && clock == now
      ensures !(id in old(rows) && old(rows)[id].business == business) ==> r == Err(NotFound)
      ensures id in old(rows) && old(rows)[id].business == business ==>
        var row := old(rows)[id];
        if row.endsAt > callerNow then r == Err(NotFinished)
        else r == Ok(Some(Saved(id, false)))
             && rows == old(rows)[id := row.(status := NoShow, revision := row.revision + 1)]
      ensures r.Err? ==> rows == old(rows)
      ensures log == if r.Ok? then old(log) + [Event(id, now, Missed)] else old(log)
    {
      Open(business, MarkNoShow(id, callerNow), now);
      Execute(ReadBooking);
      if !txns[T].stage.Failed? {
        Execute(Write(id));
      }
      r := Finish();
    }

    /** `confirmBooking`: true exactly when a pending booking was there to approve. */
    method ConfirmBooking(business: BusinessId, id: BookingId, now: Instant) returns (changed: bool)
      requires Valid() && clock <= now
      modifies this
      ensures Valid() && clock == now
      ensures changed <==> id in old(rows) && old(rows)[id].business == business && old(rows)[id].status == Pending
      ensures rows == if changed then old(rows)[id := old(rows)[id].(status := Confirmed)] else old(rows)
      ensures log == if changed then old(log) + [Event(id, now, Approved)] else old(log)
    {
      Open(business, Confirm(id), now);
      Execute(Write(id));
      var r := Finish();
      changed := r.value.Some?;
    }

    /** `markBookingSeen` */
    method MarkBookingSeen(business: BusinessId, id: BookingId, now: Instant)
      requires Valid() && clock <= now
      modifies this
      ensures Valid() && clock == now
      ensures rows == if id in old(rows) && old(rows)[id].business == business
                      then old(rows)[id := old(rows)[id].(ownerSeen := Some(now))] else old(rows)
      ensures log == if id in old(rows) && old(rows)[id].business == business
                     then old(log) + [Event(id, now, SeenByOwner)] else old(log)
    {
      Open(business, MarkSeen(id), now);
      Execute(Write(id));
      var r := Finish();
      assert r.Ok?; // a booking that is not there is no error
    }
  }
}

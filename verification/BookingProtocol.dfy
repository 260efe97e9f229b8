/**
 * The booking writes as transaction programs that interleave one SQL statement at a time.
 *
 * Every transaction reads the rows committed at the moment of each statement (READ
 * COMMITTED), holds at most one advisory lock and at most one row lock, and releases both
 * when it ends. Its `now()` is the moment it began.
 */
module BookingProtocol {
  import opened Common
  import opened BookingRows

  type TxId = nat

  /**
   * What the run does not change. `dayOf` is the local day of an instant in the business's
   * timezone and `lockKey` the hash of (business, day); both are arbitrary functions, so
   * nothing below relies on the hash being injective or on any timezone rule.
   */
  datatype Env = Env(
    dayOf: (BusinessId, Instant) -> int,
    lockKey: (BusinessId, int) -> int,
    cancellationWindowMin: BusinessId -> int)

  datatype Service = Service(durationMin: nat, price: nat, bufferBefore: nat, bufferAfter: nat, active: bool)
  {
    /** The CHECK constraints of the services table. */
    predicate InSchema() {
      1 <= durationMin <= 1440 && bufferBefore <= 240 && bufferAfter <= 240
    }
  }

  datatype Program =
    | Create(startsAt: Instant, actor: Actor, status: Status, allowOverlap: bool)
    | Reschedule(id: BookingId, startsAt: Instant, actor: Actor, allowOverlap: bool)
    | Cancel(id: BookingId, actor: Actor, callerNow: Instant)
    | MarkNoShow(id: BookingId, callerNow: Instant)
    | Confirm(id: BookingId)
    | MarkSeen(id: BookingId)
  {
    /** The two programs that put a booking somewhere and so take the day lock. */
    predicate Places() {
      Create? || Reschedule?
    }

    /** A booking never blocks its own move. */
    function Exclude(): Option<BookingId> {
      if Reschedule? then Some(id) else None
    }
  }

  datatype Error =
    | NotFound
    | UnknownService
    | NotBookable
    | Conflict(id: BookingId)
    | TooLate
    | NotFinished

  /** What a committed write did, for the commit log. */
  datatype Effect =
    | Placed(actor: Actor, allowOverlap: bool, overlapped: bool)
    | CalledOff(actor: Actor)
    | Missed
    | Approved
    | SeenByOwner

  datatype Event = Event(id: BookingId, began: Instant, effect: Effect)
  {
    predicate CustomerChange() {
      (effect.Placed? || effect.CalledOff?) && effect.actor.Customer?
    }
  }

  /** Where a transaction is in its program. */
  datatype Stage =
    | Started
    | Found(shape: Shape)                       // reschedule has read its booking
    | Locked                                    // create holds the day lock
    | Sized(shape: Shape, price: nat)           // the lock is held and the length known
    | Checked(shape: Shape, price: nat, overlapped: bool)
    | Cleared                                   // cancel and no-show passed their guard
    | Wrote(id: BookingId, row: Row, effect: Effect)
    | NoRows                                    // an UPDATE matched nothing and that is fine
    | Failed(error: Error)

  datatype Tx = Tx(business: BusinessId, began: Instant, program: Program, stage: Stage)

  /** `log` is the history of commits; no program reads it. */
  datatype State = State(
    rows: Table,
    txns: map<TxId, Tx>,
    dayLocks: map<int, TxId>,
    clock: Instant,
    log: seq<Event>)

  /** One statement of one transaction, with what the database was free to choose. */
  datatype Move =
    | Begin(business: BusinessId, program: Program, now: Instant)
    | ReadBooking
    | LockDay
    | ReadService(service: Option<Service>)
    | FindConflict(hit: Option<BookingId>)
    | Write(id: BookingId)
    | Commit
    | Rollback
    | Abort                                     // the connection is lost

  const EMPTY: State := State(map[], map[], map[], 0, [])

  /** The advisory lock that guards a business's bookings starting at this moment. */
  function LockOf(env: Env, business: BusinessId, startsAt: Instant): int {
    env.lockKey(business, env.dayOf(business, startsAt))
  }

  function Key(env: Env, tx: Tx): int
    requires tx.program.Places()
  {
    LockOf(env, tx.business, tx.program.startsAt)
  }

  /** No other transaction holds an uncommitted write of this row. */
  predicate RowFree(s: State, t: TxId, id: BookingId) {
    forall u :: u in s.txns && u != t && s.txns[u].stage.Wrote? ==> s.txns[u].stage.id != id
  }

  /** The WHERE clause of the program's UPDATE. */
  predicate Matches(rows: Table, tx: Tx)
    requires !tx.program.Create?
  {
    Visible(rows, tx.business, tx.program.id)
    && (tx.program.Confirm? ==> rows[tx.program.id].status.Pending?)
  }

  /** The stage from which the program issues its INSERT or UPDATE. */
  predicate ReadyToWrite(tx: Tx) {
    match tx.program
    case Create(_, _, _, _) => tx.stage.Checked?
    case Reschedule(_, _, _, _) => tx.stage.Checked?
    case Cancel(_, actor, _) => if actor.Customer? then tx.stage.Cleared? else tx.stage.Started?
    case MarkNoShow(_, _) => tx.stage.Cleared?
    case Confirm(_) => tx.stage.Started?
    case MarkSeen(_) => tx.stage.Started?
  }

  /** Programs that look their booking up before anything else. */
  predicate ReadsFirst(program: Program) {
    program.Reschedule? || program.MarkNoShow? || (program.Cancel? && program.actor.Customer?)
  }

  predicate Enabled(env: Env, s: State, t: TxId, m: Move) {
    if m.Begin? then
      t !in s.txns && s.clock <= m.now && (m.program.Create? ==> m.program.status in {Pending, Confirmed})
    else
      t in s.txns &&
      var tx := s.txns[t];
      match m
      case ReadBooking => tx.stage.Started? && ReadsFirst(tx.program)
      case LockDay =>
        && tx.program.Places()
        && (if tx.program.Create? then tx.stage.Started? else tx.stage.Found?)
        && Key(env, tx) !in s.dayLocks
      case ReadService(service) =>
        tx.program.Create? && tx.stage.Locked? && (service.Some? ==> service.value.InSchema())
      case FindConflict(hit) =>
        && tx.program.Places() && tx.stage.Sized?
        && var found := Conflicts(s.rows, tx.business, tx.stage.shape.From(tx.program.startsAt),
                                  tx.stage.shape.Until(tx.program.startsAt), tx.program.Exclude());
           if hit.Some? then hit.value in found else found == {}
      case Write(id) =>
        && ReadyToWrite(tx)
        && (if tx.program.Create? then id !in s.rows && RowFree(s, t, id)
            else id == tx.program.id && (Matches(s.rows, tx) ==> RowFree(s, t, id)))
      case Commit => tx.stage.Wrote? || tx.stage.NoRows?
      case Rollback => tx.stage.Failed?
      case Abort => true
  }

  /** What the SELECT before the lock or the update finds, and the guard on it. */
  function AfterRead(env: Env, rows: Table, tx: Tx): Stage
    requires ReadsFirst(tx.program)
  {
    var id := tx.program.id;
    if !Visible(rows, tx.business, id) then Failed(NotFound)
    else if tx.program.Reschedule? then Found(rows[id].Size())
    else if tx.program.Cancel? then
      if rows[id].startsAt - tx.program.callerNow < Minutes(env.cancellationWindowMin(tx.business))
      then Failed(TooLate) else Cleared
    else if rows[id].endsAt > tx.program.callerNow then Failed(NotFinished)
    else Cleared
  }

  function AfterService(service: Option<Service>): Stage {
    match service
    case None => Failed(UnknownService)
    case Some(sv) =>
      if !sv.active then Failed(NotBookable)
      else Sized(Shape(Minutes(sv.durationMin), sv.bufferBefore, sv.bufferAfter), sv.price)
  }

  function AfterCheck(tx: Tx, hit: Option<BookingId>): Stage
    requires tx.program.Places() && tx.stage.Sized?
  {
    if hit.Some? && !tx.program.allowOverlap then Failed(Conflict(hit.value))
    else Checked(tx.stage.shape, tx.stage.price, hit.Some?)
  }

  function Stamp(actor: Actor, began: Instant, otherwise: Option<Instant>): Option<Instant> {
    if actor.Customer? then Some(began) else otherwise
  }

  function Inserted(tx: Tx): Row
    requires tx.program.Create? && tx.stage.Checked?
  {
    var shape := tx.stage.shape;
    Row(tx.business, tx.program.startsAt, tx.program.startsAt + shape.duration,
        shape.bufferBefore, shape.bufferAfter, tx.program.status, tx.stage.price, 0,
        Stamp(tx.program.actor, tx.began, None), None)
  }

  /** The SET clause; `duration` is what reschedule computed from the row it read earlier. */
  function Updated(tx: Tx, row: Row, duration: int): Row
    requires !tx.program.Create?
  {
    match tx.program
    case Reschedule(_, startsAt, actor, _) =>
      row.(startsAt := startsAt, endsAt := startsAt + duration, revision := row.revision + 1,
           lastCustomerChange := Stamp(actor, tx.began, row.lastCustomerChange),
           ownerSeen := if actor.Customer? then None else row.ownerSeen)
    case Cancel(_, actor, _) =>
      row.(status := Cancelled, revision := row.revision + 1,
           lastCustomerChange := Stamp(actor, tx.began, row.lastCustomerChange),
           ownerSeen := if actor.Customer? then None else row.ownerSeen)
    case MarkNoShow(_, _) => row.(status := NoShow, revision := row.revision + 1)
    case Confirm(_) => row.(status := Confirmed)
    case MarkSeen(_) => row.(ownerSeen := Some(tx.began))
  }

  function EffectOf(tx: Tx): Effect
    requires ReadyToWrite(tx)
  {
    match tx.program
    case Create(_, actor, _, allowOverlap) => Placed(actor, allowOverlap, tx.stage.overlapped)
    case Reschedule(_, _, actor, allowOverlap) => Placed(actor, allowOverlap, tx.stage.overlapped)
    case Cancel(_, actor, _) => CalledOff(actor)
    case MarkNoShow(_, _) => Missed
    case Confirm(_) => Approved
    case MarkSeen(_) => SeenByOwner
  }

  function AfterWrite(rows: Table, tx: Tx, id: BookingId): Stage
    requires ReadyToWrite(tx)
  {
    if tx.program.Create? then Wrote(id, Inserted(tx), EffectOf(tx))
    else if Matches(rows, tx) then
      var duration := if tx.program.Reschedule? then tx.stage.shape.duration else 0;
      Wrote(tx.program.id, Updated(tx, rows[tx.program.id], duration), EffectOf(tx))
    else if tx.program.Confirm? || tx.program.MarkSeen? then NoRows
    else Failed(NotFound)
  }

  /** A statement that changes nothing but its own transaction. */
  function NextStage(env: Env, s: State, t: TxId, m: Move): Stage
    requires Enabled(env, s, t, m) && (m.ReadBooking? || m.ReadService? || m.FindConflict? || m.Write?)
  {
    var tx := s.txns[t];
    match m
    case ReadBooking => AfterRead(env, s.rows, tx)
    case ReadService(service) => AfterService(service)
    case FindConflict(hit) => AfterCheck(tx, hit)
    case Write(id) => AfterWrite(s.rows, tx, id)
  }

  function SetStage(s: State, t: TxId, stage: Stage): State
    requires t in s.txns
  {
    s.(txns := s.txns[t := s.txns[t].(stage := stage)])
  }

  /** The transaction ends and every lock it held goes with it. */
  function End(s: State, t: TxId): State {
    s.(txns := s.txns - {t}, dayLocks := map k | k in s.dayLocks && s.dayLocks[k] != t :: s.dayLocks[k])
  }

  /** A commit makes the write visible and records it; locks go only afterwards. */
  function Publish(s: State, t: TxId): State
    requires t in s.txns
  {
    var tx := s.txns[t];
    if tx.stage.Wrote? then
      s.(rows := s.rows[tx.stage.id := tx.stage.row],
         log := s.log + [Event(tx.stage.id, tx.began, tx.stage.effect)])
    else s
  }

  function Apply(env: Env, s: State, t: TxId, m: Move): State
    requires Enabled(env, s, t, m)
  {
    match m
    case Begin(business, program, now) =>
      s.(clock := now, txns := s.txns[t := Tx(business, now, program, Started)])
    case LockDay =>
      var tx := s.txns[t];
      SetStage(s.(dayLocks := s.dayLocks[Key(env, tx) := t]), t,
               if tx.program.Create? then Locked else Sized(tx.stage.shape, 0))
    case Commit => End(Publish(s, t), t)
    case Rollback => End(s, t)
    case Abort => End(s, t)
    case _ => SetStage(s, t, NextStage(env, s, t, m))
  }

  // ---------------------------------------------------------------------------
  // Runs: any interleaving of any number of transactions
  // ---------------------------------------------------------------------------

  type Run = seq<(TxId, Move)>

  ghost predicate Possible(env: Env, s: State, run: Run)
    decreases |run|
  {
    run == [] ||
    (Enabled(env, s, run[0].0, run[0].1) && Possible(env, Apply(env, s, run[0].0, run[0].1), run[1..]))
  }

  ghost function After(env: Env, s: State, run: Run): State
    requires Possible(env, s, run)
    decreases |run|
  {
    if run == [] then s else After(env, Apply(env, s, run[0].0, run[0].1), run[1..])
  }

  /** One transaction at a time: a program starts only when no other is in flight. */
  ghost predicate Serial(env: Env, s: State, run: Run)
    requires Possible(env, s, run)
    decreases |run|
  {
    run == [] ||
    ((run[0].1.Begin? ==> s.txns == map[]) && Serial(env, Apply(env, s, run[0].0, run[0].1), run[1..]))
  }

  // ---------------------------------------------------------------------------
  // Reading the commit log
  // ---------------------------------------------------------------------------

  /** The last committed write that chose where this booking goes. */
  function LastPlacement(log: seq<Event>, id: BookingId): (p: Option<Effect>)
    ensures p.Some? ==> p.value.Placed?
  {
    if log == [] then None
    else
      var e := log[|log| - 1];
      if e.id == id && e.effect.Placed? then Some(e.effect) else LastPlacement(log[..|log| - 1], id)
  }

  /** The write that last placed this booking was allowed to overlap and said that it did. */
  predicate Reported(log: seq<Event>, id: BookingId) {
    var p := LastPlacement(log, id);
    p.Some? && p.value.allowOverlap && p.value.overlapped
  }
}

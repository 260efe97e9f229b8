/**
 * The inductive invariant behind every theorem about the booking writes: who holds which
 * lock, what each transaction knows about the committed table, and which overlaps exist.
 *
 * `wide` selects between two readings of the overlap clauses. When it is false they speak
 * of bookings whose starts share a lock key, which is what the day lock protects under any
 * interleaving. When it is true they speak of all days, and the invariant then also
 * says that at most one transaction is in flight.
 */
module BookingInvariant {
  import opened Common
  import opened BookingRows
  import opened BookingProtocol

  predicate HoldsDayLock(tx: Tx) {
    tx.program.Places() && (tx.stage.Locked? || tx.stage.Sized? || tx.stage.Checked? || tx.stage.Wrote?)
  }

  predicate PastDayLock(tx: Tx) {
    tx.program.Places() && !tx.stage.Started? && !tx.stage.Found?
  }

  ghost predicate LocksOk(env: Env, s: State) {
    && (forall t :: t in s.txns && HoldsDayLock(s.txns[t]) ==>
          Key(env, s.txns[t]) in s.dayLocks && s.dayLocks[Key(env, s.txns[t])] == t)
    && (forall k :: k in s.dayLocks ==>
          s.dayLocks[k] in s.txns && PastDayLock(s.txns[s.dayLocks[k]]))
  }

  /** A reschedule's early read of its booking stays true of the row, whatever commits. */
  predicate KnowsSize(rows: Table, tx: Tx, shape: Shape) {
    shape.duration > 0 &&
    (tx.program.Reschedule? ==>
       Visible(rows, tx.business, tx.program.id) && rows[tx.program.id].Size() == shape)
  }

  /** The commit log will say what the program asked for and what the check found. */
  predicate EffectFits(program: Program, effect: Effect) {
    match program
    case Create(_, actor, _, allow) => effect.Placed? && effect.actor == actor && PlacedHonestly(effect, allow)
    case Reschedule(_, _, actor, allow) => effect.Placed? && effect.actor == actor && PlacedHonestly(effect, allow)
    case Cancel(_, actor, _) => effect == CalledOff(actor)
    case MarkNoShow(_, _) => effect == Missed
    case Confirm(_) => effect == Approved
    case MarkSeen(_) => effect == SeenByOwner
  }

  predicate PlacedHonestly(effect: Effect, allow: bool)
    requires effect.Placed?
  {
    effect.allowOverlap == allow && (effect.overlapped ==> allow)
  }

  /** A pending write: what will be committed, relative to the row it replaces. */
  predicate WriteOk(rows: Table, tx: Tx)
    requires tx.stage.Wrote?
  {
    var id, row := tx.stage.id, tx.stage.row;
    && row.business == tx.business
    && row.endsAt > row.startsAt
    && EffectFits(tx.program, tx.stage.effect)
    && (tx.program.Places() ==> row.startsAt == tx.program.startsAt)
    && (if tx.program.Create? then
          id !in rows && row.ownerSeen == None
          && row.lastCustomerChange == Stamp(tx.program.actor, tx.began, None)
        else id == tx.program.id && Visible(rows, tx.business, id)
             && row == Updated(tx, rows[id], rows[id].endsAt - rows[id].startsAt)
             && (tx.program.Confirm? ==> rows[id].status.Pending?))
  }

  predicate TxOk(rows: Table, tx: Tx) {
    match tx.stage
    case Found(shape) => tx.program.Reschedule? && KnowsSize(rows, tx, shape)
    case Locked => tx.program.Create?
    case Sized(shape, _) => tx.program.Places() && KnowsSize(rows, tx, shape)
    case Checked(shape, _, overlapped) =>
      tx.program.Places() && KnowsSize(rows, tx, shape) && (overlapped ==> tx.program.allowOverlap)
    case Cleared => ReadsFirst(tx.program) && !tx.program.Reschedule? && Visible(rows, tx.business, tx.program.id)
    case Wrote(_, _, _) => WriteOk(rows, tx)
    case _ => true
  }

  ghost predicate TxnsOk(s: State) {
    forall t :: t in s.txns ==> TxOk(s.rows, s.txns[t])
  }

  /** Two transactions never hold uncommitted writes of the same row. */
  ghost predicate RowLocksOk(s: State) {
    forall t, u :: t in s.txns && u in s.txns && t != u && s.txns[t].stage.Wrote? && s.txns[u].stage.Wrote?
      ==> s.txns[t].stage.id != s.txns[u].stage.id
  }

  ghost predicate RowsOk(s: State) {
    forall id :: id in s.rows ==> s.rows[id].endsAt > s.rows[id].startsAt
  }

  predicate Near(env: Env, wide: bool, row: Row, business: BusinessId, key: int) {
    row.business == business && (wide || LockOf(env, business, row.startsAt) == key)
  }

  /** No live booking in scope, other than the excluded one, occupies any of [from, until). */
  ghost predicate Free(env: Env, wide: bool, rows: Table, business: BusinessId, key: int,
                       from: Instant, until: Instant, exclude: Option<BookingId>)
  {
    forall j :: j in rows && rows[j].Live() && Near(env, wide, rows[j], business, key) && exclude != Some(j)
      ==> !Clash(rows[j], from, until)
  }

  /** A placement that found no conflict still has none, up to the moment it commits. */
  ghost predicate StillFree(env: Env, wide: bool, rows: Table, tx: Tx) {
    match tx.stage
    case Checked(shape, _, overlapped) =>
      tx.program.Places() && !overlapped ==>
        Free(env, wide, rows, tx.business, LockOf(env, tx.business, tx.program.startsAt),
             shape.From(tx.program.startsAt), shape.Until(tx.program.startsAt), tx.program.Exclude())
    case Wrote(id, row, effect) =>
      effect.Placed? && !effect.overlapped ==>
        Free(env, wide, rows, tx.business, LockOf(env, tx.business, row.startsAt),
             row.BlocksFrom(), row.BlocksUntil(), Some(id))
    case _ => true
  }

  ghost predicate ChecksOk(env: Env, wide: bool, s: State) {
    forall t :: t in s.txns ==> StillFree(env, wide, s.rows, s.txns[t])
  }

  /** Two live bookings in scope of each other that occupy a common moment. */
  predicate Collide(env: Env, wide: bool, a: Row, b: Row) {
    && a.Live() && b.Live()
    && Near(env, wide, a, b.business, LockOf(env, b.business, b.startsAt))
    && Overlap(a, b)
  }

  /** Every collision in the committed table was reported by one of the two placements. */
  ghost predicate PairsOk(env: Env, wide: bool, s: State) {
    forall i, j :: i in s.rows && j in s.rows && i != j && Collide(env, wide, s.rows[i], s.rows[j])
      ==> Reported(s.log, i) || Reported(s.log, j)
  }

  ghost predicate Alone(s: State) {
    forall t, u :: t in s.txns && u in s.txns ==> t == u
  }

  ghost predicate Inv(env: Env, wide: bool, s: State) {
    && LocksOk(env, s)
    && TxnsOk(s)
    && RowLocksOk(s)
    && RowsOk(s)
    && ChecksOk(env, wide, s)
    && PairsOk(env, wide, s)
    && (wide ==> Alone(s))
  }

  // ---------------------------------------------------------------------------
  // Steps that leave the committed table alone
  // ---------------------------------------------------------------------------

  predicate Local(m: Move) {
    m.ReadBooking? || m.ReadService? || m.FindConflict? || m.Write?
  }

  lemma AfterWriteIsOk(env: Env, wide: bool, s: State, t: TxId, m: Move)
    requires Inv(env, wide, s) && m.Write? && Enabled(env, s, t, m)
    ensures var tx := s.txns[t].(stage := NextStage(env, s, t, m));
            TxOk(s.rows, tx) && StillFree(env, wide, s.rows, tx)
  {
    var tx := s.txns[t];
    assert TxOk(s.rows, tx) && StillFree(env, wide, s.rows, tx);
    if tx.program.Create? {
    } else if Matches(s.rows, tx) {
      var row := s.rows[tx.program.id];
      assert row.endsAt > row.startsAt;
    }
  }

  lemma LocalStageIsOk(env: Env, wide: bool, s: State, t: TxId, m: Move)
    requires Inv(env, wide, s) && Local(m) && Enabled(env, s, t, m)
    ensures var tx := s.txns[t].(stage := NextStage(env, s, t, m));
            TxOk(s.rows, tx) && StillFree(env, wide, s.rows, tx)
  {
    var tx := s.txns[t];
    assert TxOk(s.rows, tx);
    if m.Write? {
      AfterWriteIsOk(env, wide, s, t, m);
    } else if m.FindConflict? && m.hit.None? {
      var from := tx.stage.shape.From(tx.program.startsAt);
      var until := tx.stage.shape.Until(tx.program.startsAt);
      forall j | j in s.rows && s.rows[j].Live() && s.rows[j].business == tx.business
                 && tx.program.Exclude() != Some(j)
        ensures !Clash(s.rows[j], from, until)
      {
        assert j !in Conflicts(s.rows, tx.business, from, until, tx.program.Exclude());
      }
    }
  }

  /** A local step never takes or drops the day lock, and writes a row only when no other write of it is pending. */
  lemma LocalStageLocks(env: Env, s: State, t: TxId, m: Move)
    requires TxnsOk(s) && Local(m) && Enabled(env, s, t, m)
    ensures var tx, stage := s.txns[t], NextStage(env, s, t, m);
            && (HoldsDayLock(tx.(stage := stage)) ==> HoldsDayLock(tx))
            && (PastDayLock(tx) ==> PastDayLock(tx.(stage := stage)))
            && (stage.Wrote? ==> RowFree(s, t, stage.id))
  {
    assert TxOk(s.rows, s.txns[t]);
  }

  lemma SetStageKeepsLocks(env: Env, s: State, t: TxId, stage: Stage)
    requires LocksOk(env, s) && RowLocksOk(s) && t in s.txns
    requires HoldsDayLock(s.txns[t].(stage := stage)) ==> HoldsDayLock(s.txns[t])
    requires PastDayLock(s.txns[t]) ==> PastDayLock(s.txns[t].(stage := stage))
    requires stage.Wrote? ==> RowFree(s, t, stage.id)
    ensures LocksOk(env, SetStage(s, t, stage)) && RowLocksOk(SetStage(s, t, stage))
  {
  }

  lemma LocalKeepsInv(env: Env, wide: bool, s: State, t: TxId, m: Move)
    requires Inv(env, wide, s) && Local(m) && Enabled(env, s, t, m)
    ensures Inv(env, wide, Apply(env, s, t, m))
  {
    LocalStageLocks(env, s, t, m);
    LocalStageIsOk(env, wide, s, t, m);
    var stage := NextStage(env, s, t, m);
    assert Apply(env, s, t, m) == SetStage(s, t, stage);
    SetStageKeepsLocks(env, s, t, stage);
    SetStageKeepsRest(env, wide, s, t, stage);
  }

  lemma SetStageKeepsRest(env: Env, wide: bool, s: State, t: TxId, stage: Stage)
    requires Inv(env, wide, s) && t in s.txns
    requires TxOk(s.rows, s.txns[t].(stage := stage)) && StillFree(env, wide, s.rows, s.txns[t].(stage := stage))
    ensures var s' := SetStage(s, t, stage);
            TxnsOk(s') && RowsOk(s') && ChecksOk(env, wide, s') && PairsOk(env, wide, s') && (wide ==> Alone(s'))
  {
  }

  lemma BeginKeepsInv(env: Env, wide: bool, s: State, t: TxId, m: Move)
    requires Inv(env, wide, s) && m.Begin? && Enabled(env, s, t, m)
    requires wide ==> s.txns == map[]
    ensures Inv(env, wide, Apply(env, s, t, m))
  {
  }

  lemma LockKeepsInv(env: Env, wide: bool, s: State, t: TxId, m: Move)
    requires Inv(env, wide, s) && m.LockDay? && Enabled(env, s, t, m)
    ensures Inv(env, wide, Apply(env, s, t, m))
  {
    assert TxOk(s.rows, s.txns[t]);
  }

  // ---------------------------------------------------------------------------
  // The end of a transaction
  // ---------------------------------------------------------------------------

  lemma EndKeepsInv(env: Env, wide: bool, s: State, t: TxId)
    requires Inv(env, wide, s)
    ensures Inv(env, wide, End(s, t))
  {
    var s' := End(s, t);
    forall u | u in s'.txns && HoldsDayLock(s'.txns[u])
      ensures Key(env, s'.txns[u]) in s'.dayLocks && s'.dayLocks[Key(env, s'.txns[u])] == u
    {
      assert u in s.txns && s.txns[u] == s'.txns[u];
    }
  }

  /** Everything a pending write's row keeps of the row it replaces. */
  lemma PendingWriteEvolves(s: State, t: TxId)
    requires TxnsOk(s) && t in s.txns && s.txns[t].stage.Wrote?
    ensures var tx := s.txns[t];
            tx.stage.id in s.rows ==>
              !tx.program.Create? && Evolves(s.rows[tx.stage.id], tx.stage.row)
              && (!tx.program.Places() ==> tx.stage.row.startsAt == s.rows[tx.stage.id].startsAt)
  {
    assert TxOk(s.rows, s.txns[t]);
  }

  /** What any other transaction knew about the table it still knows after a commit. */
  lemma PublishKeepsTx(s: State, t: TxId, u: TxId)
    requires TxnsOk(s) && RowLocksOk(s) && t in s.txns && s.txns[t].stage.Wrote?
    requires u in s.txns && u != t
    ensures TxOk(Publish(s, t).rows, s.txns[u])
  {
    PendingWriteEvolves(s, t);
    assert TxOk(s.rows, s.txns[u]) && TxOk(s.rows, s.txns[t]);
  }

  /** Two placements under one lock key exclude each other. */
  lemma SameKeySameHolder(env: Env, s: State, t: TxId, u: TxId)
    requires LocksOk(env, s) && t in s.txns && u in s.txns
    requires HoldsDayLock(s.txns[t]) && HoldsDayLock(s.txns[u])
    requires Key(env, s.txns[t]) == Key(env, s.txns[u])
    ensures t == u
  {
  }

  /** The day lock in action: another placement's commit cannot land in a checked interval. */
  lemma PublishKeepsFree(env: Env, wide: bool, s: State, t: TxId, u: TxId,
                         key: int, from: Instant, until: Instant, exclude: Option<BookingId>)
    requires Inv(env, wide, s) && t in s.txns && s.txns[t].stage.Wrote? && u in s.txns && u != t
    requires HoldsDayLock(s.txns[u]) && key == Key(env, s.txns[u])
    requires Free(env, wide, s.rows, s.txns[u].business, key, from, until, exclude)
    ensures Free(env, wide, Publish(s, t).rows, s.txns[u].business, key, from, until, exclude)
  {
    var tx, rows' := s.txns[t], Publish(s, t).rows;
    var id := tx.stage.id;
    assert TxOk(s.rows, tx);
    PendingWriteEvolves(s, t);
    assert !wide;
    if tx.program.Places() && Key(env, tx) == key {
      SameKeySameHolder(env, s, t, u);
    }
    forall j | j in rows' && rows'[j].Live() && Near(env, wide, rows'[j], s.txns[u].business, key)
               && exclude != Some(j)
      ensures !Clash(rows'[j], from, until)
    {
      if j == id {
        assert !tx.program.Places();
        assert Near(env, wide, s.rows[j], s.txns[u].business, key);
      }
    }
  }

  lemma PublishKeepsStillFree(env: Env, wide: bool, s: State, t: TxId, u: TxId)
    requires Inv(env, wide, s) && t in s.txns && s.txns[t].stage.Wrote? && u in s.txns && u != t
    ensures StillFree(env, wide, Publish(s, t).rows, s.txns[u])
  {
    var tx := s.txns[u];
    assert StillFree(env, wide, s.rows, tx) && TxOk(s.rows, tx);
    match tx.stage
    case Checked(shape, _, overlapped) =>
      if !overlapped {
        PublishKeepsFree(env, wide, s, t, u, LockOf(env, tx.business, tx.program.startsAt),
                         shape.From(tx.program.startsAt), shape.Until(tx.program.startsAt),
                         tx.program.Exclude());
      }
    case Wrote(id, row, effect) =>
      if effect.Placed? && !effect.overlapped {
        PublishKeepsFree(env, wide, s, t, u, LockOf(env, tx.business, row.startsAt),
                         row.BlocksFrom(), row.BlocksUntil(), Some(id));
      }
    case _ =>
  }

  lemma AppendedPlacement(log: seq<Event>, e: Event, id: BookingId)
    ensures LastPlacement(log + [e], id)
         == if e.id == id && e.effect.Placed? then Some(e.effect) else LastPlacement(log, id)
  {
    assert (log + [e])[..|log|] == log;
  }

  /** Where the committed row collides, the log after the commit reports one of the two. */
  lemma CollisionIsInLog(env: Env, wide: bool, s: State, t: TxId, j: BookingId, log: seq<Event>)
    requires Inv(env, wide, s) && t in s.txns && s.txns[t].stage.Wrote?
    requires j in s.rows && j != s.txns[t].stage.id
    requires Collide(env, wide, s.rows[j], s.txns[t].stage.row)
    requires LastPlacement(log, j) == LastPlacement(s.log, j)
    requires var tx := s.txns[t];
             LastPlacement(log, tx.stage.id)
               == if tx.stage.effect.Placed? then Some(tx.stage.effect) else LastPlacement(s.log, tx.stage.id)
    ensures Reported(log, s.txns[t].stage.id) || Reported(log, j)
  {
    var tx := s.txns[t];
    assert TxOk(s.rows, tx) && StillFree(env, wide, s.rows, tx);
    PendingWriteEvolves(s, t);
    if !tx.stage.effect.Placed? {
      assert Collide(env, wide, s.rows[j], s.rows[tx.stage.id]);
    }
  }

  /** A collision that involves the row just committed is a reported one. */
  lemma NewCollisionIsReported(env: Env, wide: bool, s: State, t: TxId, j: BookingId)
    requires Inv(env, wide, s) && t in s.txns && s.txns[t].stage.Wrote?
    requires j in s.rows && j != s.txns[t].stage.id
    requires Collide(env, wide, s.rows[j], s.txns[t].stage.row)
    ensures Reported(Publish(s, t).log, s.txns[t].stage.id) || Reported(Publish(s, t).log, j)
  {
    var tx := s.txns[t];
    var e := Event(tx.stage.id, tx.began, tx.stage.effect);
    AppendedPlacement(s.log, e, tx.stage.id);
    AppendedPlacement(s.log, e, j);
    CollisionIsInLog(env, wide, s, t, j, s.log + [e]);
  }

  lemma CollideIsSymmetric(env: Env, wide: bool, a: Row, b: Row)
    requires Collide(env, wide, a, b)
    ensures Collide(env, wide, b, a)
  {
  }

  lemma PublishKeepsPairs(env: Env, wide: bool, s: State, t: TxId)
    requires Inv(env, wide, s) && t in s.txns && s.txns[t].stage.Wrote?
    ensures PairsOk(env, wide, Publish(s, t))
  {
    var s' := Publish(s, t);
    var id := s.txns[t].stage.id;
    var e := Event(id, s.txns[t].began, s.txns[t].stage.effect);
    forall i, j | i in s'.rows && j in s'.rows && i != j && Collide(env, wide, s'.rows[i], s'.rows[j])
      ensures Reported(s'.log, i) || Reported(s'.log, j)
    {
      if j == id {
        NewCollisionIsReported(env, wide, s, t, i);
      } else if i == id {
        CollideIsSymmetric(env, wide, s'.rows[i], s'.rows[j]);
        NewCollisionIsReported(env, wide, s, t, j);
      } else {
        AppendedPlacement(s.log, e, i);
        AppendedPlacement(s.log, e, j);
      }
    }
  }

  lemma CommitKeepsInv(env: Env, wide: bool, s: State, t: TxId, m: Move)
    requires Inv(env, wide, s) && m.Commit? && Enabled(env, s, t, m)
    ensures Inv(env, wide, Apply(env, s, t, m))
  {
    if s.txns[t].stage.Wrote? {
      var s' := End(Publish(s, t), t);
      EndKeepsInv(env, wide, s, t);
      assert LocksOk(env, s') && RowLocksOk(s') && (wide ==> Alone(s'));
      assert TxOk(s.rows, s.txns[t]);
      forall u | u in s'.txns ensures TxOk(s'.rows, s'.txns[u]) && StillFree(env, wide, s'.rows, s'.txns[u]) {
        PublishKeepsTx(s, t, u);
        PublishKeepsStillFree(env, wide, s, t, u);
      }
      PublishKeepsPairs(env, wide, s, t);
    } else {
      EndKeepsInv(env, wide, s, t);
    }
  }

  lemma StepKeepsInv(env: Env, wide: bool, s: State, t: TxId, m: Move)
    requires Inv(env, wide, s) && Enabled(env, s, t, m)
    requires wide && m.Begin? ==> s.txns == map[]
    ensures Inv(env, wide, Apply(env, s, t, m))
  {
    match m
    case Begin(_, _, _) => BeginKeepsInv(env, wide, s, t, m);
    case LockDay => LockKeepsInv(env, wide, s, t, m);
    case Commit => CommitKeepsInv(env, wide, s, t, m);
    case Rollback => EndKeepsInv(env, wide, s, t);
    case Abort => EndKeepsInv(env, wide, s, t);
    case _ => LocalKeepsInv(env, wide, s, t, m);
  }

  /** The invariant holds all along any run; with `wide`, along any serial run. */
  lemma {:induction false} RunKeepsInv(env: Env, wide: bool, s: State, run: Run)
    requires Inv(env, wide, s) && Possible(env, s, run)
    requires wide ==> Serial(env, s, run)
    ensures Inv(env, wide, After(env, s, run))
    decreases |run|
  {
    if run != [] {
      StepKeepsInv(env, wide, s, run[0].0, run[0].1);
      RunKeepsInv(env, wide, Apply(env, s, run[0].0, run[0].1), run[1..]);
    }
  }
}

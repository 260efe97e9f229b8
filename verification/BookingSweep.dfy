/**
 * "Mark all seen": one UPDATE over every flagged booking of the business, in among the other
 * booking writes. The statement picks its rows from what is committed when it starts, then
 * comes to them one by one: it waits for a row that another transaction has written, looks at
 * it again, and either writes and locks it or passes it by.
 */
module BookingSweep {
  import opened Common
  import opened BookingRows
  import opened BookingProtocol
  import opened BookingInvariant
  import opened BookingTheorems
  import opened BookingHistory
  import opened BookingWitnesses

  type SweepId = nat

  /** `looked` and `passed` say how long the commit log was at the time; no statement reads them. */
  datatype Sweep = Sweep(
    business: BusinessId,
    began: Instant,
    looked: Option<nat>,
    todo: set<BookingId>,
    written: seq<BookingId>,
    passed: map<BookingId, nat>)
  {
    /** The length of the log when the sweep last saw this booking. */
    function LastLook(id: BookingId): nat
      requires looked.Some?
    {
      if id in passed then passed[id] else looked.value
    }
  }

  datatype World = World(db: State, sweeps: map<SweepId, Sweep>)

  datatype Turn =
    | Other(t: TxId, move: Move)
    | Open(k: SweepId, business: BusinessId, now: Instant)
    | Look(k: SweepId)
    | Visit(k: SweepId, id: BookingId)
    | Finish(k: SweepId)
    | Drop(k: SweepId)

  function Flagged(rows: Table, business: BusinessId): set<BookingId> {
    set id | id in rows && rows[id].business == business && rows[id].NeedsAttention()
  }

  /** No sweep holds this row. */
  predicate Unswept(w: World, id: BookingId) {
    forall k :: k in w.sweeps ==> id !in w.sweeps[k].written
  }

  predicate Unwritten(s: State, id: BookingId) {
    forall t :: t in s.txns && s.txns[t].stage.Wrote? ==> s.txns[t].stage.id != id
  }

  /** The statement updates a row that is there, so it needs that row's lock. */
  predicate UpdatesRow(s: State, t: TxId, m: Move) {
    m.Write? && t in s.txns && !s.txns[t].program.Create? && Matches(s.rows, s.txns[t])
  }

  predicate CanTurn(env: Env, w: World, turn: Turn) {
    match turn
    case Other(t, m) => Enabled(env, w.db, t, m) && (UpdatesRow(w.db, t, m) ==> Unswept(w, m.id))
    case Open(k, _, now) => k !in w.sweeps && w.db.clock <= now
    case Look(k) => k in w.sweeps && w.sweeps[k].looked.None?
    case Visit(k, id) => k in w.sweeps && id in w.sweeps[k].todo && Unwritten(w.db, id) && Unswept(w, id)
    case Finish(k) => k in w.sweeps && w.sweeps[k].looked.Some? && w.sweeps[k].todo == {}
    case Drop(k) => k in w.sweeps
  }

  function LookAt(s: State, sw: Sweep): Sweep {
    sw.(looked := Some(|s.log|), todo := Flagged(s.rows, sw.business))
  }

  function VisitRow(s: State, sw: Sweep, id: BookingId): Sweep
    requires id in s.rows
  {
    sw.(todo := sw.todo - {id}, passed := sw.passed[id := |s.log|],
        written := if s.rows[id].NeedsAttention() then sw.written + [id] else sw.written)
  }

  function SeenOne(s: State, id: BookingId, began: Instant): State
    requires id in s.rows
  {
    s.(rows := s.rows[id := s.rows[id].(ownerSeen := Some(began))],
       log := s.log + [Event(id, began, SeenByOwner)])
  }

  /** What a sweep's commit makes visible, all at once. */
  function PublishSeen(s: State, ids: seq<BookingId>, began: Instant): (s': State)
    requires forall id :: id in ids ==> id in s.rows
    ensures s'.rows.Keys == s.rows.Keys
    decreases |ids|
  {
    if ids == [] then s else PublishSeen(SeenOne(s, ids[0], began), ids[1..], began)
  }

  /** The rows a sweep works on are there; no program deletes one. */
  ghost predicate RowsAreThere(w: World) {
    forall k :: k in w.sweeps ==>
      && (forall id :: id in w.sweeps[k].todo ==> id in w.db.rows)
      && (forall id :: id in w.sweeps[k].written ==> id in w.db.rows)
  }

  ghost function Next(env: Env, w: World, turn: Turn): World
    requires RowsAreThere(w) && CanTurn(env, w, turn)
  {
    match turn
    case Other(t, m) => w.(db := Apply(env, w.db, t, m))
    case Open(k, business, now) =>
      World(w.db.(clock := now), w.sweeps[k := Sweep(business, now, None, {}, [], map[])])
    case Look(k) => w.(sweeps := w.sweeps[k := LookAt(w.db, w.sweeps[k])])
    case Visit(k, id) => w.(sweeps := w.sweeps[k := VisitRow(w.db, w.sweeps[k], id)])
    case Finish(k) => World(PublishSeen(w.db, w.sweeps[k].written, w.sweeps[k].began), w.sweeps - {k})
    case Drop(k) => w.(sweeps := w.sweeps - {k})
  }

  // ---------------------------------------------------------------------------
  // The invariant of the booking writes holds with sweeps among them
  // ---------------------------------------------------------------------------

  lemma SeenOneKeepsInv(env: Env, s: State, id: BookingId, began: Instant)
    requires Inv(env, false, s) && id in s.rows && Unwritten(s, id)
    ensures Inv(env, false, SeenOne(s, id, began))
  {
    var s' := SeenOne(s, id, began);
    forall t | t in s'.txns ensures TxOk(s'.rows, s'.txns[t]) && StillFree(env, false, s'.rows, s'.txns[t]) {
      assert TxOk(s.rows, s.txns[t]) && StillFree(env, false, s.rows, s.txns[t]);
    }
    SeenOneKeepsPairs(env, s, id, began);
  }

  lemma SeenOneKeepsPairs(env: Env, s: State, id: BookingId, began: Instant)
    requires PairsOk(env, false, s) && id in s.rows
    ensures PairsOk(env, false, SeenOne(s, id, began))
  {
    var s' := SeenOne(s, id, began);
    forall i, j | i in s'.rows && j in s'.rows && i != j && Collide(env, false, s'.rows[i], s'.rows[j])
      ensures Reported(s'.log, i) || Reported(s'.log, j)
    {
      assert Collide(env, false, s.rows[i], s.rows[j]);
      AppendedPlacement(s.log, Event(id, began, SeenByOwner), i);
      AppendedPlacement(s.log, Event(id, began, SeenByOwner), j);
    }
  }

  lemma SeenRowFollowsLog(log: seq<Event>, id: BookingId, row: Row, began: Instant)
    requires RowFollowsLog(log, id, row)
    ensures RowFollowsLog(log + [Event(id, began, SeenByOwner)], id, row.(ownerSeen := Some(began)))
  {
    AppendedChange(log, Event(id, began, SeenByOwner), id);
  }

  lemma SeenOneRow(s: State, id: BookingId, began: Instant, j: BookingId)
    requires id in s.rows && j in s.rows && RowFollowsLog(s.log, j, s.rows[j])
    ensures RowFollowsLog(SeenOne(s, id, began).log, j, SeenOne(s, id, began).rows[j])
  {
    if j == id {
      SeenRowFollowsLog(s.log, id, s.rows[id], began);
    } else {
      OtherRowFollowsLog(s.log, Event(id, began, SeenByOwner), j, s.rows[j]);
    }
  }

  lemma SeenOneKeepsRows(s: State, id: BookingId, began: Instant)
    requires RowsFollowLog(s) && id in s.rows
    ensures RowsFollowLog(SeenOne(s, id, began))
  {
    forall j | j in s.rows
      ensures RowFollowsLog(SeenOne(s, id, began).log, j, SeenOne(s, id, began).rows[j])
    {
      SeenOneRow(s, id, began, j);
    }
  }

  lemma SeenOneKeepsLog(s: State, id: BookingId, began: Instant)
    requires LogOk(s) && id in s.rows && began <= s.clock
    ensures LogOk(SeenOne(s, id, began))
  {
  }

  lemma SeenOneKeepsHistory(s: State, id: BookingId, began: Instant)
    requires HistoryOk(s) && id in s.rows && began <= s.clock
    ensures HistoryOk(SeenOne(s, id, began))
  {
    SeenOneKeepsRows(s, id, began);
    SeenOneKeepsLog(s, id, began);
  }

  /** Everything but the seen stamps and the log stays as it was. */
  predicate OnlySeen(s: State, s': State) {
    s'.txns == s.txns && s'.dayLocks == s.dayLocks && s'.clock == s.clock && s'.rows.Keys == s.rows.Keys
    && |s.log| <= |s'.log| && s'.log[..|s.log|] == s.log
  }

  lemma OnlySeenOnce(s: State, id: BookingId, began: Instant)
    requires id in s.rows
    ensures OnlySeen(s, SeenOne(s, id, began))
  {
  }

  lemma OnlySeenChains(a: State, b: State, c: State)
    requires OnlySeen(a, b) && OnlySeen(b, c)
    ensures OnlySeen(a, c)
  {
    assert c.log[..|a.log|] == c.log[..|b.log|][..|a.log|];
  }

  lemma {:induction false} PublishSeenOnly(s: State, ids: seq<BookingId>, began: Instant)
    requires forall id :: id in ids ==> id in s.rows
    ensures OnlySeen(s, PublishSeen(s, ids, began))
    decreases |ids|
  {
    if ids != [] {
      var s' := SeenOne(s, ids[0], began);
      OnlySeenOnce(s, ids[0], began);
      PublishSeenOnly(s', ids[1..], began);
      OnlySeenChains(s, s', PublishSeen(s', ids[1..], began));
    }
  }

  ghost predicate AllFree(s: State, ids: seq<BookingId>) {
    forall id :: id in ids ==> id in s.rows && Unwritten(s, id)
  }

  lemma RestIsFree(s: State, ids: seq<BookingId>, began: Instant)
    requires AllFree(s, ids) && ids != []
    ensures AllFree(SeenOne(s, ids[0], began), ids[1..])
  {
    var s' := SeenOne(s, ids[0], began);
    forall id | id in ids[1..] ensures id in s'.rows && Unwritten(s', id) {
      assert id in ids;
      assert s'.txns == s.txns;
    }
  }

  lemma {:induction false} PublishSeenKeeps(env: Env, s: State, ids: seq<BookingId>, began: Instant)
    requires Inv(env, false, s) && HistoryOk(s) && began <= s.clock && AllFree(s, ids)
    ensures Inv(env, false, PublishSeen(s, ids, began)) && HistoryOk(PublishSeen(s, ids, began))
    decreases |ids|
  {
    if ids != [] {
      SeenOneKeepsInv(env, s, ids[0], began);
      SeenOneKeepsHistory(s, ids[0], began);
      RestIsFree(s, ids, began);
      PublishSeenKeeps(env, SeenOne(s, ids[0], began), ids[1..], began);
    }
  }

  lemma {:induction false} PublishSeenRow(s: State, ids: seq<BookingId>, began: Instant, id: BookingId)
    requires id in s.rows && forall i :: i in ids ==> i in s.rows
    ensures PublishSeen(s, ids, began).rows[id]
         == if id in ids then s.rows[id].(ownerSeen := Some(began)) else s.rows[id]
    decreases |ids|
  {
    if ids != [] {
      PublishSeenRow(SeenOne(s, ids[0], began), ids[1..], began, id);
    }
  }

  // ---------------------------------------------------------------------------
  // What a sweep knows
  // ---------------------------------------------------------------------------

  /** The badge as the commit log determines it. */
  predicate BadgeOn(log: seq<Event>, id: BookingId) {
    var change, seen := LastChange(log, id), LastSeen(log, id);
    change.Some? && (seen.None? || seen.value < change.value || log[seen.value].began < log[change.value].began)
  }

  lemma BadgeFollowsLog(s: State, id: BookingId)
    requires HistoryOk(s) && id in s.rows
    ensures s.rows[id].NeedsAttention() <==> BadgeOn(s.log, id)
  {
    assert RowFollowsLog(s.log, id, s.rows[id]);
  }

  /** Nothing about this booking has committed since. */
  ghost predicate Quiet(log: seq<Event>, id: BookingId, from: nat) {
    forall j :: from <= j < |log| ==> log[j].id != id
  }

  ghost predicate WrittenOk(s: State, sw: Sweep, id: BookingId) {
    && id in s.rows && s.rows[id].business == sw.business && Unwritten(s, id)
    && id in sw.passed && sw.passed[id] <= |s.log| && Quiet(s.log, id, sw.passed[id])
    && BadgeOn(s.log[..sw.passed[id]], id)
  }

  /** When the sweep last looked at this booking, its badge was off. */
  ghost predicate PassedOk(s: State, sw: Sweep, id: BookingId)
    requires sw.looked.Some?
  {
    sw.LastLook(id) <= |s.log| && !BadgeOn(s.log[..sw.LastLook(id)], id)
  }

  ghost predicate SweepOk(s: State, sw: Sweep) {
    && sw.began <= s.clock
    && (sw.looked.None? ==> sw.todo == {} && sw.written == [] && sw.passed == map[])
    && (forall id :: id in sw.todo ==> id in s.rows && s.rows[id].business == sw.business && id !in sw.passed)
    && (forall id :: id in sw.written ==> WrittenOk(s, sw, id))
    && (forall id :: id in sw.passed ==> id in s.rows && sw.looked.Some? && sw.looked.value <= sw.passed[id])
    && (sw.looked.Some? ==> sw.looked.value <= |s.log|)
    && (sw.looked.Some? ==>
          forall id :: id in s.rows && s.rows[id].business == sw.business && id !in sw.todo && id !in sw.written ==>
            PassedOk(s, sw, id))
  }

  /** Two sweeps never hold one row. */
  ghost predicate RowsApart(w: World) {
    forall j, k, id :: j in w.sweeps && k in w.sweeps && j != k && id in w.sweeps[j].written ==> id !in w.sweeps[k].written
  }

  ghost predicate WorldOk(env: Env, w: World) {
    && Inv(env, false, w.db) && HistoryOk(w.db) && RowsApart(w)
    && (forall k :: k in w.sweeps ==> SweepOk(w.db, w.sweeps[k]))
  }

  lemma WorldRowsAreThere(env: Env, w: World)
    requires WorldOk(env, w)
    ensures RowsAreThere(w)
  {
    forall k, id | k in w.sweeps && id in w.sweeps[k].written ensures id in w.db.rows {
      assert WrittenOk(w.db, w.sweeps[k], id);
    }
  }

  lemma {:induction false} NoEventsNoChange(log: seq<Event>, id: BookingId)
    requires Quiet(log, id, 0)
    ensures LastChange(log, id) == None && LastSeen(log, id) == None
  {
    if log != [] {
      NoEventsNoChange(log[..|log| - 1], id);
    }
  }

  /** The log is added to, the clock goes on and no booking changes hands. */
  ghost predicate Grows(s: State, s': State) {
    && |s.log| <= |s'.log| && s'.log[..|s.log|] == s.log && s.clock <= s'.clock
    && (forall id :: id in s.rows ==> id in s'.rows && s'.rows[id].business == s.rows[id].business)
  }

  /** The rows a sweep has locked are untouched. */
  ghost predicate LeavesAlone(s: State, s': State, sw: Sweep) {
    forall id :: id in sw.written ==> Unwritten(s', id) && Quiet(s'.log, id, |s.log|)
  }

  lemma PassedStays(s: State, s': State, sw: Sweep, id: BookingId)
    requires sw.looked.Some? && PassedOk(s, sw, id) && Grows(s, s')
    ensures PassedOk(s', sw, id)
  {
    var n := sw.LastLook(id);
    assert s'.log[..n] == s'.log[..|s.log|][..n];
  }

  /** A booking that was not there when the sweep looked had no badge then. */
  lemma NewcomersPassed(s: State, s': State, sw: Sweep, id: BookingId)
    requires SweepOk(s, sw) && HistoryOk(s) && Grows(s, s') && sw.looked.Some?
    requires id !in s.rows && id !in sw.passed
    ensures PassedOk(s', sw, id)
  {
    var n := sw.looked.value;
    assert s'.log[..n] == s'.log[..|s.log|][..n] == s.log[..n];
    NoEventsNoChange(s.log[..n], id);
  }

  lemma WrittenStays(s: State, s': State, sw: Sweep, id: BookingId)
    requires WrittenOk(s, sw, id) && Grows(s, s') && Unwritten(s', id) && Quiet(s'.log, id, |s.log|)
    ensures WrittenOk(s', sw, id)
  {
    assert s'.log[..sw.passed[id]] == s'.log[..|s.log|][..sw.passed[id]];
    forall j | sw.passed[id] <= j < |s'.log| ensures s'.log[j].id != id {
      if j < |s.log| {
        assert s'.log[j] == s.log[j];
      }
    }
  }

  lemma SweepStays(s: State, s': State, sw: Sweep)
    requires SweepOk(s, sw) && HistoryOk(s) && Grows(s, s') && LeavesAlone(s, s', sw)
    ensures SweepOk(s', sw)
  {
    forall id | id in sw.written ensures WrittenOk(s', sw, id) {
      WrittenStays(s, s', sw, id);
    }
    if sw.looked.Some? {
      forall id | id in s'.rows && s'.rows[id].business == sw.business && id !in sw.todo && id !in sw.written
        ensures PassedOk(s', sw, id)
      {
        if id in s.rows {
          PassedStays(s, s', sw, id);
        } else {
          NewcomersPassed(s, s', sw, id);
        }
      }
    }
  }

  // ---------------------------------------------------------------------------
  // Every turn keeps what the sweeps know
  // ---------------------------------------------------------------------------

  lemma StepGrows(env: Env, s: State, t: TxId, m: Move)
    requires Inv(env, false, s) && Enabled(env, s, t, m)
    ensures Grows(s, Apply(env, s, t, m))
  {
    forall id | id in s.rows
      ensures id in Apply(env, s, t, m).rows && Apply(env, s, t, m).rows[id].business == s.rows[id].business
    {
      StepEvolves(env, s, t, m, id);
    }
  }

  lemma StepLeavesAlone(env: Env, w: World, t: TxId, m: Move, k: SweepId)
    requires k in w.sweeps && SweepOk(w.db, w.sweeps[k]) && CanTurn(env, w, Other(t, m))
    ensures LeavesAlone(w.db, Apply(env, w.db, t, m), w.sweeps[k])
  {
    var s, s' := w.db, Apply(env, w.db, t, m);
    forall id | id in w.sweeps[k].written ensures Unwritten(s', id) && Quiet(s'.log, id, |s.log|) {
      assert WrittenOk(s, w.sweeps[k], id);
      if m.Write? {
        assert UpdatesRow(s, t, m) ==> m.id != id;
      }
    }
  }

  lemma OtherKeepsWorld(env: Env, w: World, t: TxId, m: Move)
    requires WorldOk(env, w) && RowsAreThere(w) && CanTurn(env, w, Other(t, m))
    ensures WorldOk(env, Next(env, w, Other(t, m)))
  {
    StepKeepsInv(env, false, w.db, t, m);
    StepKeepsHistory(env, w.db, t, m);
    StepGrows(env, w.db, t, m);
    forall k | k in w.sweeps ensures SweepOk(Apply(env, w.db, t, m), w.sweeps[k]) {
      StepLeavesAlone(env, w, t, m, k);
      SweepStays(w.db, Apply(env, w.db, t, m), w.sweeps[k]);
    }
  }

  lemma ClockKeeps(env: Env, s: State, now: Instant)
    requires Inv(env, false, s) && HistoryOk(s) && s.clock <= now
    ensures Inv(env, false, s.(clock := now)) && HistoryOk(s.(clock := now)) && Grows(s, s.(clock := now))
  {
    assert s.log[..|s.log|] == s.log;
  }

  lemma ClockKeepsSweep(s: State, now: Instant, sw: Sweep)
    requires SweepOk(s, sw) && HistoryOk(s) && Grows(s, s.(clock := now))
    ensures SweepOk(s.(clock := now), sw)
  {
    var s' := s.(clock := now);
    forall id | id in sw.written ensures Unwritten(s', id) && Quiet(s'.log, id, |s.log|) {
      assert WrittenOk(s, sw, id);
    }
    SweepStays(s, s', sw);
  }

  lemma NewSweepIsOk(s: State, business: BusinessId)
    ensures SweepOk(s, Sweep(business, s.clock, None, {}, [], map[]))
  {
  }

  lemma ApartWithAnIdleOne(w: World, k: SweepId, sw: Sweep)
    requires RowsApart(w) && sw.written == []
    ensures RowsApart(w.(sweeps := w.sweeps[k := sw]))
  {
  }

  lemma OpenKeepsWorld(env: Env, w: World, k: SweepId, business: BusinessId, now: Instant)
    requires WorldOk(env, w) && RowsAreThere(w) && CanTurn(env, w, Open(k, business, now))
    ensures WorldOk(env, Next(env, w, Open(k, business, now)))
  {
    var s' := w.db.(clock := now);
    ClockKeeps(env, w.db, now);
    forall j | j in w.sweeps ensures SweepOk(s', w.sweeps[j]) {
      ClockKeepsSweep(w.db, now, w.sweeps[j]);
    }
    NewSweepIsOk(s', business);
    ApartWithAnIdleOne(w, k, Sweep(business, now, None, {}, [], map[]));
  }

  lemma LookIsOk(s: State, sw: Sweep)
    requires SweepOk(s, sw) && HistoryOk(s) && sw.looked.None?
    ensures SweepOk(s, LookAt(s, sw))
  {
    var after := LookAt(s, sw);
    assert s.log[..|s.log|] == s.log;
    forall id | id in s.rows && s.rows[id].business == sw.business && id !in after.todo ensures PassedOk(s, after, id) {
      BadgeFollowsLog(s, id);
    }
  }

  lemma VisitKeepsWritten(s: State, sw: Sweep, id: BookingId, i: BookingId)
    requires SweepOk(s, sw) && HistoryOk(s) && id in sw.todo && Unwritten(s, id) && i in VisitRow(s, sw, id).written
    ensures WrittenOk(s, VisitRow(s, sw, id), i)
  {
    if i in sw.written {
      assert WrittenOk(s, sw, i);
    } else {
      assert s.log[..|s.log|] == s.log;
      BadgeFollowsLog(s, id);
    }
  }

  lemma VisitKeepsPassed(s: State, sw: Sweep, id: BookingId, i: BookingId)
    requires SweepOk(s, sw) && HistoryOk(s) && id in sw.todo
    requires i in s.rows && s.rows[i].business == sw.business
    requires i !in VisitRow(s, sw, id).todo && i !in VisitRow(s, sw, id).written
    ensures PassedOk(s, VisitRow(s, sw, id), i)
  {
    assert s.log[..|s.log|] == s.log;
    if i == id {
      BadgeFollowsLog(s, id);
    } else {
      assert i !in sw.written;
      assert PassedOk(s, sw, i);
    }
  }

  lemma VisitIsOk(s: State, sw: Sweep, id: BookingId)
    requires SweepOk(s, sw) && HistoryOk(s) && id in sw.todo && Unwritten(s, id)
    ensures SweepOk(s, VisitRow(s, sw, id))
  {
    var after := VisitRow(s, sw, id);
    forall i | i in after.written ensures WrittenOk(s, after, i) {
      VisitKeepsWritten(s, sw, id, i);
    }
    forall i | i in s.rows && s.rows[i].business == sw.business && i !in after.todo && i !in after.written
      ensures PassedOk(s, after, i)
    {
      VisitKeepsPassed(s, sw, id, i);
    }
  }

  lemma {:induction false} SeenEvents(s: State, ids: seq<BookingId>, began: Instant, j: nat)
    requires (forall id :: id in ids ==> id in s.rows) && |s.log| <= j < |PublishSeen(s, ids, began).log|
    ensures PublishSeen(s, ids, began).log[j].id in ids && PublishSeen(s, ids, began).log[j].effect == SeenByOwner
    decreases |ids|
  {
    if ids != [] {
      var s' := SeenOne(s, ids[0], began);
      PublishSeenOnly(s', ids[1..], began);
      if j < |s'.log| {
        assert PublishSeen(s', ids[1..], began).log[..|s'.log|][j] == s'.log[j];
      } else {
        SeenEvents(s', ids[1..], began, j);
      }
    }
  }

  lemma PublishSeenGrows(s: State, ids: seq<BookingId>, began: Instant)
    requires forall id :: id in ids ==> id in s.rows
    ensures Grows(s, PublishSeen(s, ids, began))
  {
    PublishSeenOnly(s, ids, began);
    forall id | id in s.rows ensures PublishSeen(s, ids, began).rows[id].business == s.rows[id].business {
      PublishSeenRow(s, ids, began, id);
    }
  }

  lemma FinishKeepsSweep(env: Env, w: World, k: SweepId, j: SweepId)
    requires WorldOk(env, w) && RowsAreThere(w) && k in w.sweeps && j in w.sweeps && j != k
    ensures SweepOk(PublishSeen(w.db, w.sweeps[k].written, w.sweeps[k].began), w.sweeps[j])
  {
    var ids, began := w.sweeps[k].written, w.sweeps[k].began;
    var s' := PublishSeen(w.db, ids, began);
    PublishSeenGrows(w.db, ids, began);
    PublishSeenOnly(w.db, ids, began);
    forall id | id in w.sweeps[j].written ensures Unwritten(s', id) && Quiet(s'.log, id, |w.db.log|) {
      assert WrittenOk(w.db, w.sweeps[j], id);
      forall e: nat | |w.db.log| <= e < |s'.log| ensures s'.log[e].id != id {
        SeenEvents(w.db, ids, began, e);
      }
    }
    SweepStays(w.db, s', w.sweeps[j]);
  }

  lemma FinishKeepsWorld(env: Env, w: World, k: SweepId)
    requires WorldOk(env, w) && RowsAreThere(w) && CanTurn(env, w, Finish(k))
    ensures WorldOk(env, Next(env, w, Finish(k)))
  {
    forall id | id in w.sweeps[k].written ensures id in w.db.rows && Unwritten(w.db, id) {
      assert WrittenOk(w.db, w.sweeps[k], id);
    }
    PublishSeenKeeps(env, w.db, w.sweeps[k].written, w.sweeps[k].began);
    forall j | j in w.sweeps && j != k
      ensures SweepOk(PublishSeen(w.db, w.sweeps[k].written, w.sweeps[k].began), w.sweeps[j])
    {
      FinishKeepsSweep(env, w, k, j);
    }
  }

  lemma VisitKeepsApart(w: World, k: SweepId, id: BookingId)
    requires RowsApart(w) && k in w.sweeps && id in w.db.rows && Unswept(w, id)
    ensures RowsApart(w.(sweeps := w.sweeps[k := VisitRow(w.db, w.sweeps[k], id)]))
  {
  }

  lemma VisitKeepsWorld(env: Env, w: World, k: SweepId, id: BookingId)
    requires WorldOk(env, w) && RowsAreThere(w) && CanTurn(env, w, Visit(k, id))
    ensures WorldOk(env, Next(env, w, Visit(k, id)))
  {
    VisitIsOk(w.db, w.sweeps[k], id);
    VisitKeepsApart(w, k, id);
  }

  /** Every turn of every transaction and every sweep keeps the invariant. */
  lemma TurnKeepsWorld(env: Env, w: World, turn: Turn)
    requires WorldOk(env, w) && RowsAreThere(w) && CanTurn(env, w, turn)
    ensures WorldOk(env, Next(env, w, turn)) && RowsAreThere(Next(env, w, turn))
  {
    match turn {
      case Other(t, m) => OtherKeepsWorld(env, w, t, m);
      case Open(k, business, now) => OpenKeepsWorld(env, w, k, business, now);
      case Look(k) => LookIsOk(w.db, w.sweeps[k]);
      case Visit(k, id) => VisitKeepsWorld(env, w, k, id);
      case Finish(k) => FinishKeepsWorld(env, w, k);
      case Drop(_) =>
    }
    WorldRowsAreThere(env, Next(env, w, turn));
  }

  // ---------------------------------------------------------------------------
  // Runs
  // ---------------------------------------------------------------------------

  const START: World := World(EMPTY, map[])

  ghost predicate Goes(env: Env, w: World, run: seq<Turn>)
    decreases |run|
  {
    run == [] || (RowsAreThere(w) && CanTurn(env, w, run[0]) && Goes(env, Next(env, w, run[0]), run[1..]))
  }

  ghost function Ends(env: Env, w: World, run: seq<Turn>): World
    requires Goes(env, w, run)
    decreases |run|
  {
    if run == [] then w else Ends(env, Next(env, w, run[0]), run[1..])
  }

  ghost predicate Reached(env: Env, w: World) {
    exists run :: Goes(env, START, run) && Ends(env, START, run) == w
  }

  lemma {:induction false} RunKeepsWorld(env: Env, w: World, run: seq<Turn>)
    requires WorldOk(env, w) && RowsAreThere(w) && Goes(env, w, run)
    ensures WorldOk(env, Ends(env, w, run)) && RowsAreThere(Ends(env, w, run))
    decreases |run|
  {
    if run != [] {
      TurnKeepsWorld(env, w, run[0]);
      RunKeepsWorld(env, Next(env, w, run[0]), run[1..]);
    }
  }

  lemma ReachedIsOk(env: Env, w: World)
    requires Reached(env, w)
    ensures WorldOk(env, w) && RowsAreThere(w)
  {
    var run :| Goes(env, START, run) && Ends(env, START, run) == w;
    RunKeepsWorld(env, START, run);
  }

  lemma {:induction false} OneTurnMore(env: Env, w: World, run: seq<Turn>, turn: Turn)
    requires Goes(env, w, run) && RowsAreThere(Ends(env, w, run)) && CanTurn(env, Ends(env, w, run), turn)
    ensures Goes(env, w, run + [turn]) && Ends(env, w, run + [turn]) == Next(env, Ends(env, w, run), turn)
    decreases |run|
  {
    if run == [] {
      assert [] + [turn] == [turn] && [turn][1..] == [];
      assert Goes(env, Next(env, w, turn), [turn][1..]);
      assert Ends(env, Next(env, w, turn), [turn][1..]) == Next(env, w, turn);
    } else {
      assert (run + [turn])[1..] == run[1..] + [turn];
      OneTurnMore(env, Next(env, w, run[0]), run[1..], turn);
    }
  }

  lemma GoOn(env: Env, w: World, turn: Turn) returns (w': World)
    requires Reached(env, w) && CanTurn(env, w, turn)
    ensures Reached(env, w') && RowsAreThere(w) && w' == Next(env, w, turn)
  {
    ReachedIsOk(env, w);
    var run :| Goes(env, START, run) && Ends(env, START, run) == w;
    OneTurnMore(env, START, run, turn);
    w' := Next(env, w, turn);
  }

  /** What sweeps among the booking writes leave true of every overlap. */
  lemma NoUnreportedOverlapAmongSweeps(env: Env, w: World, i: BookingId, j: BookingId)
    requires Reached(env, w)
    requires i in w.db.rows && j in w.db.rows && i != j
    requires var a, b := w.db.rows[i], w.db.rows[j];
             a.Live() && b.Live() && a.business == b.business
             && LockOf(env, a.business, a.startsAt) == LockOf(env, b.business, b.startsAt) && Overlap(a, b)
    ensures Reported(w.db.log, i) || Reported(w.db.log, j)
  {
    ReachedIsOk(env, w);
    assert Collide(env, false, w.db.rows[i], w.db.rows[j]);
  }

  /** And of every badge: it is the commit log that decides, sweeps included. */
  lemma BadgeAmongSweeps(env: Env, w: World, id: BookingId)
    requires Reached(env, w) && id in w.db.rows
    ensures w.db.rows[id].NeedsAttention() <==> BadgeOn(w.db.log, id)
  {
    ReachedIsOk(env, w);
    BadgeFollowsLog(w.db, id);
  }

  // ---------------------------------------------------------------------------
  // What a sweep leaves
  // ---------------------------------------------------------------------------

  /** A customer change or a mark-seen of this booking. */
  predicate Touches(e: Event, id: BookingId) {
    e.id == id && (e.CustomerChange() || e.effect.SeenByOwner?)
  }

  ghost predicate TouchedSince(log: seq<Event>, id: BookingId, from: nat) {
    exists j :: from <= j < |log| && Touches(log[j], id)
  }

  ghost predicate SeenSince(log: seq<Event>, id: BookingId, from: nat) {
    exists j :: from <= j < |log| && log[j].id == id && log[j].effect.SeenByOwner?
  }

  lemma {:induction false} UntouchedBadge(log: seq<Event>, id: BookingId, from: nat)
    requires from <= |log| && !TouchedSince(log, id, from)
    ensures LastChange(log, id) == LastChange(log[..from], id) && LastSeen(log, id) == LastSeen(log[..from], id)
    ensures BadgeOn(log, id) <==> BadgeOn(log[..from], id)
    decreases |log|
  {
    if from == |log| {
      assert log[..from] == log;
    } else {
      var front := log[..|log| - 1];
      assert !Touches(log[|log| - 1], id);
      assert front[..from] == log[..from];
      UntouchedBadge(front, id, from);
      var last := |log| - 1;
      assert LastChange(log, id) == LastChange(front, id) && LastSeen(log, id) == LastSeen(front, id);
      BadgeSame(front, log, id);
    }
  }

  lemma BadgeSame(front: seq<Event>, log: seq<Event>, id: BookingId)
    requires |front| <= |log| && front == log[..|front|]
    requires LastChange(log, id) == LastChange(front, id) && LastSeen(log, id) == LastSeen(front, id)
    ensures BadgeOn(log, id) <==> BadgeOn(front, id)
  {
  }

  /** The rows after a sweep's commit. */
  ghost function Cleared(w: World, k: SweepId): Table
    requires RowsAreThere(w) && k in w.sweeps
  {
    PublishSeen(w.db, w.sweeps[k].written, w.sweeps[k].began).rows
  }

  ghost predicate Ready(env: Env, w: World, k: SweepId) {
    Reached(env, w) && RowsAreThere(w) && CanTurn(env, w, Finish(k))
  }

  /**
   * What a sweep's commit does to each row: the ones it wrote, which are its own business's
   * and flagged until that moment, get its beginning as the time they were seen; every other
   * row, and every other column, stays as it is.
   */
  lemma SweepStampsExactly(env: Env, w: World, k: SweepId, id: BookingId)
    requires Ready(env, w, k) && id in w.db.rows
    ensures id in Cleared(w, k)
    ensures var row, sw := w.db.rows[id], w.sweeps[k];
            && Cleared(w, k)[id] == (if id in sw.written then row.(ownerSeen := Some(sw.began)) else row)
            && (id in sw.written ==>
                  (row.business == sw.business && row.lastCustomerChange.Some?
                   && (row.ownerSeen == None || row.ownerSeen.value < row.lastCustomerChange.value)))
  {
    var sw := w.sweeps[k];
    ReachedIsOk(env, w);
    PublishSeenRow(w.db, sw.written, sw.began, id);
    if id in sw.written {
      assert WrittenOk(w.db, sw, id);
      assert !TouchedSince(w.db.log, id, sw.passed[id]);
      UntouchedBadge(w.db.log, id, sw.passed[id]);
      BadgeFollowsLog(w.db, id);
    }
  }

  lemma SeenStamp(log: seq<Event>, id: BookingId, row: Row, began: Instant)
    requires RowFollowsLog(log, id, row)
    ensures row.(ownerSeen := Some(began)).NeedsAttention()
       <==> LastChange(log, id).Some? && began < log[LastChange(log, id).value].began
  {
  }

  lemma PassedBadge(s: State, sw: Sweep, id: BookingId)
    requires sw.looked.Some? && PassedOk(s, sw, id)
    ensures BadgeOn(s.log, id) ==> TouchedSince(s.log, id, sw.LastLook(id))
  {
    if !TouchedSince(s.log, id, sw.LastLook(id)) {
      UntouchedBadge(s.log, id, sw.LastLook(id));
    }
  }

  /**
   * Exactly what a sweep leaves flagged, whatever ran beside it: a booking it wrote, when the
   * last change to it began after the sweep; and a booking it passed by, when its badge has
   * come on, which takes a customer change or another mark-seen since the sweep looked.
   */
  lemma SweepLeavesExactly(env: Env, w: World, k: SweepId, id: BookingId)
    requires Ready(env, w, k) && Visible(w.db.rows, w.sweeps[k].business, id)
    ensures id in Cleared(w, k)
    ensures var log, sw, change := w.db.log, w.sweeps[k], LastChange(w.db.log, id);
            Cleared(w, k)[id].NeedsAttention() <==>
              if id in sw.written then change.Some? && sw.began < log[change.value].began else BadgeOn(log, id)
    ensures var log, sw := w.db.log, w.sweeps[k];
            id !in sw.written && BadgeOn(log, id) ==> TouchedSince(log, id, sw.LastLook(id))
  {
    var log, sw := w.db.log, w.sweeps[k];
    ReachedIsOk(env, w);
    PublishSeenRow(w.db, sw.written, sw.began, id);
    if id in sw.written {
      assert RowFollowsLog(log, id, w.db.rows[id]);
      SeenStamp(log, id, w.db.rows[id], sw.began);
    } else {
      BadgeFollowsLog(w.db, id);
      assert PassedOk(w.db, sw, id);
      PassedBadge(w.db, sw, id);
    }
  }

  /** The last change to this booking came too late for the sweep. */
  ghost predicate Missed(log: seq<Event>, sw: Sweep, id: BookingId)
    requires sw.looked.Some?
  {
    var change := LastChange(log, id);
    change.Some? && if id in sw.written then sw.began < log[change.value].began else sw.LastLook(id) <= change.value
  }

  lemma LateChangeShows(log: seq<Event>, id: BookingId, from: nat)
    requires from <= |log| && !SeenSince(log, id, from) && !BadgeOn(log[..from], id)
    ensures BadgeOn(log, id) <==> LastChange(log, id).Some? && from <= LastChange(log, id).value
  {
    var change := LastChange(log, id);
    if change.None? || change.value < from {
      forall j | from <= j < |log| ensures !Touches(log[j], id) {
        if log[j].id == id {
          NoneAfterLast(log, id, j);
        }
      }
      UntouchedBadge(log, id, from);
    }
  }

  /** No other mark-seen of this business's bookings has committed since the sweep looked at them. */
  ghost predicate Undisturbed(w: World, k: SweepId)
    requires k in w.sweeps && w.sweeps[k].looked.Some?
  {
    forall id :: Visible(w.db.rows, w.sweeps[k].business, id) ==>
      !SeenSince(w.db.log, id, w.sweeps[k].LastLook(id))
  }

  lemma UndisturbedSweepLeaves(env: Env, w: World, k: SweepId, id: BookingId)
    requires Ready(env, w, k) && Undisturbed(w, k) && Visible(w.db.rows, w.sweeps[k].business, id)
    ensures id in Cleared(w, k)
    ensures Cleared(w, k)[id].NeedsAttention() <==> Missed(w.db.log, w.sweeps[k], id)
  {
    var log, sw := w.db.log, w.sweeps[k];
    SweepLeavesExactly(env, w, k, id);
    ReachedIsOk(env, w);
    if id !in sw.written {
      assert PassedOk(w.db, sw, id);
      LateChangeShows(log, id, sw.LastLook(id));
    }
  }

  /**
   * A sweep that no other mark-seen interferes with leaves a count of zero if and only if no
   * booking's last change came too late for it: none of the rows it wrote has one that began
   * after the sweep, and none of the rows it passed by has one that committed after it looked.
   */
  lemma SweepLeavesZeroExactly(env: Env, w: World, k: SweepId)
    requires Ready(env, w, k) && Undisturbed(w, k)
    ensures Flagged(Cleared(w, k), w.sweeps[k].business) == {}
       <==> forall id :: Visible(w.db.rows, w.sweeps[k].business, id) ==> !Missed(w.db.log, w.sweeps[k], id)
  {
    var sw, after := w.sweeps[k], Cleared(w, k);
    forall id | id in w.db.rows ensures after[id].business == w.db.rows[id].business {
      PublishSeenRow(w.db, sw.written, sw.began, id);
    }
    forall id | Visible(w.db.rows, sw.business, id)
      ensures after[id].NeedsAttention() <==> Missed(w.db.log, sw, id)
    {
      UndisturbedSweepLeaves(env, w, k, id);
    }
    if Flagged(after, sw.business) == {} {
      forall id | Visible(w.db.rows, sw.business, id) ensures !Missed(w.db.log, sw, id) {
        assert id !in Flagged(after, sw.business);
      }
    }
  }

  /** With nothing committed since it looked and no change begun after it, a sweep leaves a count of zero. */
  lemma SweepLeavesZero(env: Env, w: World, k: SweepId)
    requires Ready(env, w, k)
    requires var log, sw := w.db.log, w.sweeps[k];
             forall id, j :: Visible(w.db.rows, sw.business, id) && 0 <= j < |log| && Touches(log[j], id) ==>
               j < sw.looked.value && log[j].began <= sw.began
    ensures Flagged(Cleared(w, k), w.sweeps[k].business) == {}
  {
    var log, sw := w.db.log, w.sweeps[k];
    ReachedIsOk(env, w);
    forall id | Visible(w.db.rows, sw.business, id) ensures !Missed(log, sw, id) && !SeenSince(log, id, sw.LastLook(id)) {
      assert sw.looked.value <= sw.LastLook(id);
      var change := LastChange(log, id);
      if change.Some? {
        assert Touches(log[change.value], id);
      }
      forall j | sw.LastLook(id) <= j < |log| ensures !(log[j].id == id && log[j].effect.SeenByOwner?) {
        assert !Touches(log[j], id);
      }
    }
    SweepLeavesZeroExactly(env, w, k);
  }

  // ---------------------------------------------------------------------------
  // A sweep that leaves what it wrote
  // ---------------------------------------------------------------------------

  /** While no sweep holds a row, any run of the booking writes can go on beside them. */
  lemma {:induction false} WritesGoOn(env: Env, w: World, run: Run)
    requires Reached(env, w) && Possible(env, w.db, run)
    requires forall k :: k in w.sweeps ==> w.sweeps[k].written == []
    ensures Reached(env, World(After(env, w.db, run), w.sweeps))
    decreases |run|
  {
    if run == [] {
      assert World(After(env, w.db, run), w.sweeps) == w;
    } else {
      var w' := GoOn(env, w, Other(run[0].0, run[0].1));
      WritesGoOn(env, w', run[1..]);
    }
  }

  /**
   * A sweep that began first and looked last: both changes to booking 0 have committed by
   * then, it writes the booking, and the badge stays on, because its stamp is the moment it
   * began and the change that committed last began after that.
   */
  lemma SweepLeavesWhatItWrote(env: Env) returns (w: World)
    requires env.cancellationWindowMin(0) == 0
    ensures Ready(env, w, 0) && Undisturbed(w, 0)
    ensures w.sweeps[0].looked == Some(|w.db.log|) && w.sweeps[0].written == [0]
    ensures 0 in Flagged(Cleared(w, 0), 0)
  {
    assert Goes(env, START, []) && Ends(env, START, []) == START;
    var idle := GoOn(env, START, Open(0, 0, 0));
    assert idle.db == EMPTY;
    var s := CommitBothChanges(env);
    var run :| Possible(env, EMPTY, run) && After(env, EMPTY, run) == s;
    WritesGoOn(env, idle, run);
    var there := World(s, idle.sweeps);
    ChangesShow(env, s);
    var looked := GoOn(env, there, Look(0));
    assert 0 in looked.sweeps[0].todo;
    assert looked.sweeps[0].todo == {0};
    w := GoOn(env, looked, Visit(0, 0));
    assert w.sweeps[0].todo == {};
    ReachedIsOk(env, w);
    UndisturbedSweepLeaves(env, w, 0, 0);
    PublishSeenRow(w.db, [0], 0, 0);
  }

  lemma ChangesShow(env: Env, s: State)
    requires Reachable(env, s) && s.rows.Keys == {0}
    requires s.log == [Event(0, 0, Placed(Customer, false, false)), Event(0, 7, CalledOff(Customer)),
                       Event(0, 5, CalledOff(Customer))]
    ensures LastChange(s.log, 0) == Some(2) && LastSeen(s.log, 0) == None && s.rows[0].NeedsAttention()
  {
    var front := s.log[..2];
    assert front[..1][..0] == [];
    BadgeExactly(env, s, 0);
  }
}

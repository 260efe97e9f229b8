/**
 * What the optimistic store may show, over whole runs: only the last promise made about a
 * field, only over the value it replaced, and only until its deadline.
 */
module OptimisticTheorems {
  import opened Common
  import opened OptimisticStore

  // ---------------------------------------------------------------------------
  // Pruning is invisible
  // ---------------------------------------------------------------------------

  /** The batch never reports anything else about this booking. */
  predicate BatchAgrees(servers: Batch, id: BookingId, server: BookingState) {
    forall i :: 0 <= i < |servers| && servers[i].0 == id ==> servers[i].1 == server
  }

  /** From `at` on, these two entries show the same over this server state. */
  ghost predicate ShowsAlike(a: Entry, b: Entry, server: BookingState, at: Instant, ttl: int) {
    forall later :: at <= later ==>
      && Shown(a.status, server.status, later, ttl) == Shown(b.status, server.status, later, ttl)
      && Shown(a.needsAttention, server.needsAttention, later, ttl)
         == Shown(b.needsAttention, server.needsAttention, later, ttl)
  }

  /** What is dead over a server state stays dead over it. */
  lemma SettlingShowsAlike(e: Entry, server: BookingState, at: Instant, ttl: int)
    ensures ShowsAlike(e, SettleEntry(e, server, at, ttl), server, at, ttl)
  {
  }

  lemma ExpiringShowsAlike(e: Entry, server: BookingState, at: Instant, ttl: int)
    ensures ShowsAlike(e, ExpireEntry(e, at, ttl), server, at, ttl)
  {
  }

  lemma PutShowsItself(entries: Entries, k: BookingId, e: Entry, id: BookingId)
    ensures EntryOf(Put(entries, k, e), id) == if id == k then e else EntryOf(entries, id)
  {
  }

  lemma {:induction false} BatchShowsAlike(entries: Entries, servers: Batch, id: BookingId, server: BookingState,
                                          at: Instant, ttl: int)
    requires BatchAgrees(servers, id, server)
    ensures ShowsAlike(EntryOf(entries, id), EntryOf(SettleAll(entries, servers, at, ttl), id), server, at, ttl)
  {
    if servers != [] {
      var front, last := servers[..|servers| - 1], servers[|servers| - 1];
      BatchShowsAlike(entries, front, id, server, at, ttl);
      var sofar := SettleAll(entries, front, at, ttl);
      if last.0 in sofar {
        PutShowsItself(sofar, last.0, SettleEntry(sofar[last.0], last.1, at, ttl), id);
        if last.0 == id {
          assert last.1 == server;
          SettlingShowsAlike(sofar[id], server, at, ttl);
        }
      }
    }
  }

  lemma ExpireAllEntry(entries: Entries, id: BookingId, at: Instant, ttl: int)
    ensures EntryOf(ExpireAll(entries, at, ttl), id) == ExpireEntry(EntryOf(entries, id), at, ttl)
  {
  }

  /**
   * A prune changes nothing that is shown over the server states it was given, nor, for a
   * booking outside the batch, over any server state at all, then or later.
   */
  lemma PruneIsInvisible(entries: Entries, servers: Batch, id: BookingId, server: BookingState,
                         at: Instant, later: Instant, ttl: int)
    requires BatchAgrees(servers, id, server) && at <= later
    ensures ResolveFn(PruneFn(entries, servers, at, ttl), id, server, later, ttl)
         == ResolveFn(entries, id, server, later, ttl)
  {
    var settled := SettleAll(entries, servers, at, ttl);
    BatchShowsAlike(entries, servers, id, server, at, ttl);
    ExpiringShowsAlike(EntryOf(settled, id), server, at, ttl);
    ExpireAllEntry(settled, id, at, ttl);
  }

  /** The batch reports this booking with another status than this one. */
  ghost predicate ReportsOtherStatus(servers: Batch, id: BookingId, status: Status) {
    exists i :: 0 <= i < |servers| && servers[i].0 == id && servers[i].1.status != status
  }

  ghost predicate ReportsOtherAttention(servers: Batch, id: BookingId, needsAttention: bool) {
    exists i :: 0 <= i < |servers| && servers[i].0 == id && servers[i].1.needsAttention != needsAttention
  }

  ghost predicate DropsStatus(hold: Hold<Status>, servers: Batch, id: BookingId, at: Instant, ttl: int) {
    Expired(hold, at, ttl) || ReportsOtherStatus(servers, id, hold.base)
  }

  ghost predicate DropsAttention(hold: Hold<bool>, servers: Batch, id: BookingId, at: Instant, ttl: int) {
    Expired(hold, at, ttl) || ReportsOtherAttention(servers, id, hold.base)
  }

  ghost function Spared(e: Entry, servers: Batch, id: BookingId, at: Instant, ttl: int): Entry {
    Entry(if e.status.Some? && !DropsStatus(e.status.value, servers, id, at, ttl) then e.status else None,
          if e.needsAttention.Some? && !DropsAttention(e.needsAttention.value, servers, id, at, ttl)
          then e.needsAttention else None)
  }

  lemma ReportsLast(front: Batch, last: (BookingId, BookingState), id: BookingId, server: BookingState)
    ensures ReportsOtherStatus(front + [last], id, server.status)
       <==> ReportsOtherStatus(front, id, server.status) || (last.0 == id && last.1.status != server.status)
    ensures ReportsOtherAttention(front + [last], id, server.needsAttention)
       <==> ReportsOtherAttention(front, id, server.needsAttention)
            || (last.0 == id && last.1.needsAttention != server.needsAttention)
  {
    var servers := front + [last];
    assert servers[|front|] == last;
    if i :| 0 <= i < |front| && front[i].0 == id && front[i].1.status != server.status {
      assert servers[i] == front[i];
    }
    if i :| 0 <= i < |front| && front[i].0 == id && front[i].1.needsAttention != server.needsAttention {
      assert servers[i] == front[i];
    }
  }

  lemma SparedByLast(e: Entry, front: Batch, last: (BookingId, BookingState), id: BookingId, at: Instant, ttl: int)
    ensures Spared(e, front + [last], id, at, ttl)
         == if last.0 == id then SettleEntry(Spared(e, front, id, at, ttl), last.1, at, ttl)
            else Spared(e, front, id, at, ttl)
  {
    var status := if e.status.Some? then e.status.value.base else Pending;
    var attention := if e.needsAttention.Some? then e.needsAttention.value.base else false;
    ReportsLast(front, last, id, BookingState(status, attention));
  }

  lemma {:induction false} SettleThenExpire(entries: Entries, servers: Batch, id: BookingId, at: Instant, ttl: int)
    ensures ExpireEntry(EntryOf(SettleAll(entries, servers, at, ttl), id), at, ttl)
         == Spared(EntryOf(entries, id), servers, id, at, ttl)
  {
    if servers != [] {
      var front, last := servers[..|servers| - 1], servers[|servers| - 1];
      var sofar := SettleAll(entries, front, at, ttl);
      SettleThenExpire(entries, front, id, at, ttl);
      SparedByLast(EntryOf(entries, id), front, last, id, at, ttl);
      assert servers == front + [last];
      if last.0 in sofar {
        PutShowsItself(sofar, last.0, SettleEntry(sofar[last.0], last.1, at, ttl), id);
      }
    }
  }

  /** Exactly which holds a prune drops: the expired ones and those whose base the batch contradicts. */
  lemma PruneDropsExactly(entries: Entries, servers: Batch, id: BookingId, at: Instant, ttl: int)
    ensures EntryOf(PruneFn(entries, servers, at, ttl), id) == Spared(EntryOf(entries, id), servers, id, at, ttl)
  {
    SettleThenExpire(entries, servers, id, at, ttl);
    ExpireAllEntry(SettleAll(entries, servers, at, ttl), id, at, ttl);
  }

  lemma PruneDropsOnly(entries: Entries, servers: Batch, at: Instant, ttl: int)
    ensures OnlyFewer(entries, PruneFn(entries, servers, at, ttl))
  {
    forall id ensures FewerIn(EntryOf(entries, id), EntryOf(PruneFn(entries, servers, at, ttl), id)) {
      PruneDropsExactly(entries, servers, id, at, ttl);
    }
  }

  /**
   * Over any server state, a prune shows exactly when that state has a live hold that the
   * prune drops. From the prune on, that is a live hold over a value that the batch
   * contradicts for this booking.
   */
  lemma PruneShowsExactly(entries: Entries, servers: Batch, id: BookingId, server: BookingState,
                          at: Instant, later: Instant, ttl: int)
    requires EntriesOk(entries)
    ensures ResolveFn(PruneFn(entries, servers, at, ttl), id, server, later, ttl)
              != ResolveFn(entries, id, server, later, ttl)
       <==> (Holding(EntryOf(entries, id).status, server.status, later, ttl)
             && DropsStatus(EntryOf(entries, id).status.value, servers, id, at, ttl))
            || (Holding(EntryOf(entries, id).needsAttention, server.needsAttention, later, ttl)
                && DropsAttention(EntryOf(entries, id).needsAttention.value, servers, id, at, ttl))
    ensures at <= later ==>
              (ResolveFn(PruneFn(entries, servers, at, ttl), id, server, later, ttl)
                 != ResolveFn(entries, id, server, later, ttl)
          <==> (Holding(EntryOf(entries, id).status, server.status, later, ttl)
                && ReportsOtherStatus(servers, id, server.status))
               || (Holding(EntryOf(entries, id).needsAttention, server.needsAttention, later, ttl)
                   && ReportsOtherAttention(servers, id, server.needsAttention)))
  {
    PruneDropsExactly(entries, servers, id, at, ttl);
    if id in entries {
      assert EntryOk(entries[id]);
    }
  }

  /** The batch says cancelled, the next report says pending again: the hold over pending is gone by then. */
  lemma PruneCanShow(at: Instant, ttl: int) returns (entries: Entries, servers: Batch, server: BookingState)
    requires ttl >= 0
    ensures EntriesOk(entries)
    ensures ResolveFn(entries, 0, server, at, ttl).status == Confirmed
    ensures ResolveFn(PruneFn(entries, servers, at, ttl), 0, server, at, ttl).status == Pending
  {
    entries := map[0 := Entry(Some(Hold(Confirmed, Pending, at)), None)];
    servers := [(0, BookingState(Cancelled, false))];
    server := BookingState(Pending, false);
    assert servers[0].0 == 0 && servers[0].1.status != Pending;
    PruneDropsExactly(entries, servers, 0, at, ttl);
  }

  // ---------------------------------------------------------------------------
  // Runs
  // ---------------------------------------------------------------------------

  datatype Op =
    | Apply(id: BookingId, base: BookingState, patch: Patch, at: Instant)
    | Prune(servers: Batch, at: Instant)
    | Forget(id: BookingId)
    | Reset

  function Next(entries: Entries, op: Op, ttl: int): Entries {
    match op
    case Apply(id, base, patch, at) => ApplyFn(entries, id, base, patch, at)
    case Prune(servers, at) => PruneFn(entries, servers, at, ttl)
    case Forget(id) => entries - {id}
    case Reset => map[]
  }

  /** The holds after the run, from an empty store. */
  function Final(run: seq<Op>, ttl: int): Entries {
    if run == [] then map[] else Next(Final(run[..|run| - 1], ttl), run[|run| - 1], ttl)
  }

  lemma {:induction false} RunKeepsOk(run: seq<Op>, ttl: int)
    ensures EntriesOk(Final(run, ttl))
  {
    if run != [] {
      var before, op := Final(run[..|run| - 1], ttl), run[|run| - 1];
      RunKeepsOk(run[..|run| - 1], ttl);
      match op {
        case Apply(id, base, patch, at) => ApplyKeepsOk(before, id, base, patch, at);
        case Prune(servers, at) => PruneKeepsOk(before, servers, at, ttl);
        case Forget(_) =>
        case Reset =>
      }
    }
  }

  /** What the last patch that named the booking's status promised, replaced and when. */
  function LastStatusPromise(run: seq<Op>, id: BookingId): Option<Hold<Status>> {
    if run == [] then None
    else
      var op := run[|run| - 1];
      if op.Apply? && op.id == id && op.patch.status.Some? then
        Some(Hold(op.patch.status.value, op.base.status, op.at))
      else LastStatusPromise(run[..|run| - 1], id)
  }

  function LastAttentionPromise(run: seq<Op>, id: BookingId): Option<Hold<bool>> {
    if run == [] then None
    else
      var op := run[|run| - 1];
      if op.Apply? && op.id == id && op.patch.needsAttention.Some? then
        Some(Hold(op.patch.needsAttention.value, op.base.needsAttention, op.at))
      else LastAttentionPromise(run[..|run| - 1], id)
  }

  /** Every hold in the store is the last promise made about its field. */
  lemma {:induction false} HoldsAreLastPromises(run: seq<Op>, ttl: int, id: BookingId)
    ensures var e := EntryOf(Final(run, ttl), id);
            && FewerHeld(LastStatusPromise(run, id), e.status)
            && FewerHeld(LastAttentionPromise(run, id), e.needsAttention)
  {
    if run != [] {
      var before, op := Final(run[..|run| - 1], ttl), run[|run| - 1];
      HoldsAreLastPromises(run[..|run| - 1], ttl, id);
      match op {
        case Apply(k, base, patch, at) =>
          PutShowsItself(before, k, ApplyEntry(EntryOf(before, k), base, patch, at), id);
        case Prune(servers, at) =>
          PruneDropsOnly(before, servers, at, ttl);
          assert FewerIn(EntryOf(before, id), EntryOf(PruneFn(before, servers, at, ttl), id));
        case Forget(_) =>
        case Reset =>
      }
    }
  }

  /**
   * Whatever the run did, a value shown against the server's is the last one promised for
   * that field, over the very value that promise replaced, and no older than the deadline.
   */
  lemma ShowsOnlyTheLastPromise(run: seq<Op>, ttl: int, id: BookingId, server: BookingState, at: Instant)
    ensures var shown := ResolveFn(Final(run, ttl), id, server, at, ttl);
            && (shown.status != server.status ==>
                  && LastStatusPromise(run, id).Some?
                  && var p := LastStatusPromise(run, id).value;
                     shown.status == p.expected && server.status == p.base && at - p.at <= ttl)
            && (shown.needsAttention != server.needsAttention ==>
                  && LastAttentionPromise(run, id).Some?
                  && var p := LastAttentionPromise(run, id).value;
                     shown.needsAttention == p.expected && server.needsAttention == p.base && at - p.at <= ttl)
  {
    HoldsAreLastPromises(run, ttl, id);
  }

  // ---------------------------------------------------------------------------
  // A promise survives everything but its settling
  // ---------------------------------------------------------------------------

  /** Nothing in this operation settles, replaces or drops a status promise made at `since` over `base`. */
  predicate SparesStatus(op: Op, id: BookingId, base: Status, since: Instant, ttl: int) {
    match op
    case Apply(k, _, patch, _) => k == id ==> patch.status.None?
    case Prune(servers, at) =>
      at - since <= ttl && forall i :: 0 <= i < |servers| && servers[i].0 == id ==> servers[i].1.status == base
    case Forget(k) => k != id
    case Reset => false
  }

  predicate SparesAttention(op: Op, id: BookingId, base: bool, since: Instant, ttl: int) {
    match op
    case Apply(k, _, patch, _) => k == id ==> patch.needsAttention.None?
    case Prune(servers, at) =>
      at - since <= ttl && forall i :: 0 <= i < |servers| && servers[i].0 == id ==> servers[i].1.needsAttention == base
    case Forget(k) => k != id
    case Reset => false
  }

  function After(entries: Entries, run: seq<Op>, ttl: int): Entries {
    if run == [] then entries else Next(After(entries, run[..|run| - 1], ttl), run[|run| - 1], ttl)
  }

  /** One operation that spares a field's hold leaves it as it is. */
  lemma SparedHoldStays(entries: Entries, op: Op, id: BookingId, ttl: int)
    ensures var before, after := EntryOf(entries, id), EntryOf(Next(entries, op, ttl), id);
      && (before.status.Some? && SparesStatus(op, id, before.status.value.base, before.status.value.at, ttl) ==>
            after.status == before.status)
      && (before.needsAttention.Some?
          && SparesAttention(op, id, before.needsAttention.value.base, before.needsAttention.value.at, ttl) ==>
            after.needsAttention == before.needsAttention)
  {
    match op {
      case Apply(k, base, patch, at) =>
        PutShowsItself(entries, k, ApplyEntry(EntryOf(entries, k), base, patch, at), id);
      case Prune(servers, at) => PruneDropsExactly(entries, servers, id, at, ttl);
      case Forget(_) =>
      case Reset =>
    }
  }

  lemma {:induction false} StatusHoldSurvives(entries: Entries, run: seq<Op>, id: BookingId, hold: Hold<Status>, ttl: int)
    requires EntryOf(entries, id).status == Some(hold)
    requires forall i :: 0 <= i < |run| ==> SparesStatus(run[i], id, hold.base, hold.at, ttl)
    ensures EntryOf(After(entries, run, ttl), id).status == Some(hold)
  {
    if run != [] {
      var before, op := After(entries, run[..|run| - 1], ttl), run[|run| - 1];
      StatusHoldSurvives(entries, run[..|run| - 1], id, hold, ttl);
      SparedHoldStays(before, op, id, ttl);
    }
  }

  lemma {:induction false} AttentionHoldSurvives(entries: Entries, run: seq<Op>, id: BookingId, hold: Hold<bool>, ttl: int)
    requires EntryOf(entries, id).needsAttention == Some(hold)
    requires forall i :: 0 <= i < |run| ==> SparesAttention(run[i], id, hold.base, hold.at, ttl)
    ensures EntryOf(After(entries, run, ttl), id).needsAttention == Some(hold)
  {
    if run != [] {
      var before, op := After(entries, run[..|run| - 1], ttl), run[|run| - 1];
      AttentionHoldSurvives(entries, run[..|run| - 1], id, hold, ttl);
      SparedHoldStays(before, op, id, ttl);
    }
  }

  /** What an apply leaves of the booking's holds, field by field; no other booking's change. */
  lemma ApplyExactly(entries: Entries, id: BookingId, base: BookingState, patch: Patch, at: Instant, k: BookingId)
    ensures var was, e := EntryOf(entries, id), EntryOf(ApplyFn(entries, id, base, patch, at), id);
      && e.status == (if patch.status.None? then was.status
                      else if patch.status.value == base.status then None
                      else Some(Hold(patch.status.value, base.status, at)))
      && e.needsAttention == (if patch.needsAttention.None? then was.needsAttention
                              else if patch.needsAttention.value == base.needsAttention then None
                              else Some(Hold(patch.needsAttention.value, base.needsAttention, at)))
    ensures k != id ==> EntryOf(ApplyFn(entries, id, base, patch, at), k) == EntryOf(entries, k)
  {
    PutShowsItself(entries, id, ApplyEntry(EntryOf(entries, id), base, patch, at), id);
    PutShowsItself(entries, id, ApplyEntry(EntryOf(entries, id), base, patch, at), k);
  }

  /**
   * An applied status, and likewise an applied attention flag, is shown until its deadline for
   * as long as the server still reports what it replaced, however many other patches and
   * prunes happen in between.
   */
  lemma PromiseSurvives(entries: Entries, id: BookingId, base: BookingState, patch: Patch, at: Instant,
                        run: seq<Op>, server: BookingState, later: Instant, ttl: int)
    requires later - at <= ttl
    ensures var shown := ResolveFn(After(ApplyFn(entries, id, base, patch, at), run, ttl), id, server, later, ttl);
      && (patch.status.Some? && patch.status.value != base.status && server.status == base.status
          && (forall i :: 0 <= i < |run| ==> SparesStatus(run[i], id, base.status, at, ttl)) ==>
            shown.status == patch.status.value)
      && (patch.needsAttention.Some? && patch.needsAttention.value != base.needsAttention
          && server.needsAttention == base.needsAttention
          && (forall i :: 0 <= i < |run| ==> SparesAttention(run[i], id, base.needsAttention, at, ttl)) ==>
            shown.needsAttention == patch.needsAttention.value)
  {
    var applied := ApplyFn(entries, id, base, patch, at);
    ApplyExactly(entries, id, base, patch, at, id);
    if patch.status.Some? && patch.status.value != base.status
       && forall i :: 0 <= i < |run| ==> SparesStatus(run[i], id, base.status, at, ttl) {
      StatusHoldSurvives(applied, run, id, Hold(patch.status.value, base.status, at), ttl);
    }
    if patch.needsAttention.Some? && patch.needsAttention.value != base.needsAttention
       && forall i :: 0 <= i < |run| ==> SparesAttention(run[i], id, base.needsAttention, at, ttl) {
      AttentionHoldSurvives(applied, run, id, Hold(patch.needsAttention.value, base.needsAttention, at), ttl);
    }
  }

  /** The owner acknowledges a change: it shows as seen at once, while the server still says otherwise. */
  lemma AcknowledgedAtOnce(entries: Entries, id: BookingId, status: Status, at: Instant, later: Instant, ttl: int)
    requires at <= later <= at + ttl
    ensures var server := BookingState(status, true);
            var after := ApplyFn(entries, id, server, Patch(None, Some(false)), at);
            !ResolveFn(after, id, server, later, ttl).needsAttention
  {
    PromiseSurvives(entries, id, BookingState(status, true), Patch(None, Some(false)), at, [],
                    BookingState(status, true), later, ttl);
  }

  // ---------------------------------------------------------------------------
  // Nothing outlives the deadline
  // ---------------------------------------------------------------------------

  /** No hold was taken after `t`. */
  predicate TakenBy(e: Entry, t: Instant) {
    (e.status.Some? ==> e.status.value.at <= t) && (e.needsAttention.Some? ==> e.needsAttention.value.at <= t)
  }

  /** No patch in the run is later than `t`. */
  predicate AppliedBy(run: seq<Op>, t: Instant) {
    forall i :: 0 <= i < |run| && run[i].Apply? ==> run[i].at <= t
  }

  lemma {:induction false} PromisesAreTakenBy(run: seq<Op>, id: BookingId, t: Instant)
    requires AppliedBy(run, t)
    ensures LastStatusPromise(run, id).Some? ==> LastStatusPromise(run, id).value.at <= t
    ensures LastAttentionPromise(run, id).Some? ==> LastAttentionPromise(run, id).value.at <= t
  {
    if run != [] {
      assert run[|run| - 1].Apply? ==> run[|run| - 1].at <= t;
      PromisesAreTakenBy(run[..|run| - 1], id, t);
    }
  }

  lemma HoldsAreTakenBy(run: seq<Op>, ttl: int, id: BookingId, t: Instant)
    requires AppliedBy(run, t)
    ensures TakenBy(EntryOf(Final(run, ttl), id), t)
  {
    HoldsAreLastPromises(run, ttl, id);
    PromisesAreTakenBy(run, id, t);
  }

  /** Once every patch is older than the deadline, the server is shown as it is and any prune empties the store. */
  lemma NothingOutlivesTheDeadline(run: seq<Op>, ttl: int, t: Instant, at: Instant, servers: Batch)
    requires AppliedBy(run, t) && at - t > ttl
    ensures forall id, server :: ResolveFn(Final(run, ttl), id, server, at, ttl) == server
    ensures PruneFn(Final(run, ttl), servers, at, ttl) == map[]
  {
    var entries := Final(run, ttl);
    forall id, server ensures ResolveFn(entries, id, server, at, ttl) == server {
      HoldsAreTakenBy(run, ttl, id, t);
    }
    forall id ensures id !in PruneFn(entries, servers, at, ttl) {
      HoldsAreTakenBy(run, ttl, id, t);
      PruneDropsExactly(entries, servers, id, at, ttl);
    }
  }
}

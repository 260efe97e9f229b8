/**
 * Booking state the admin shows ahead of the server. A hold remembers what it expects and
 * what it replaced, counts only while the server still reports the latter, and expires.
 */
module OptimisticStore {
  import opened Common

  type BookingId = nat

  datatype Status = Pending | Confirmed | Cancelled | NoShow

  datatype BookingState = BookingState(status: Status, needsAttention: bool)

  datatype Patch = Patch(status: Option<Status>, needsAttention: Option<bool>)

  datatype Hold<T> = Hold(expected: T, base: T, at: Instant)

  datatype Entry = Entry(status: Option<Hold<Status>>, needsAttention: Option<Hold<bool>>)
  {
    predicate Empty() {
      status.None? && needsAttention.None?
    }
  }

  type Entries = map<BookingId, Entry>

  const DEFAULT_TTL_MS := 60_000

  const NO_HOLDS := Entry(None, None)

  function EntryOf(entries: Entries, id: BookingId): Entry {
    if id in entries then entries[id] else NO_HOLDS
  }

  // ---------------------------------------------------------------------------
  // One field
  // ---------------------------------------------------------------------------

  predicate Expired<T>(hold: Hold<T>, at: Instant, ttl: int) {
    at - hold.at > ttl
  }

  predicate Alive<T(==)>(hold: Hold<T>, serverValue: T, at: Instant, ttl: int) {
    !Expired(hold, at, ttl) && serverValue == hold.base
  }

  /** The value to show for one field. */
  function Shown<T(==)>(held: Option<Hold<T>>, serverValue: T, at: Instant, ttl: int): T {
    if held.Some? && Alive(held.value, serverValue, at, ttl) then held.value.expected else serverValue
  }

  predicate Holding<T(==)>(held: Option<Hold<T>>, serverValue: T, at: Instant, ttl: int) {
    held.Some? && Alive(held.value, serverValue, at, ttl)
  }

  function Applied<T(==)>(held: Option<Hold<T>>, base: T, next: Option<T>, at: Instant): Option<Hold<T>> {
    match next
    case None => held
    case Some(v) => if v == base then None else Some(Hold(v, base, at))
  }

  function Settled<T(==)>(held: Option<Hold<T>>, serverValue: T, at: Instant, ttl: int): Option<Hold<T>> {
    if held.Some? && Alive(held.value, serverValue, at, ttl) then held else None
  }

  function Unexpired<T>(held: Option<Hold<T>>, at: Instant, ttl: int): Option<Hold<T>> {
    if held.Some? && !Expired(held.value, at, ttl) then held else None
  }

  // ---------------------------------------------------------------------------
  // The whole map
  // ---------------------------------------------------------------------------

  /** An entry without holds is deleted rather than kept. */
  function Put(entries: Entries, id: BookingId, e: Entry): Entries {
    if e.Empty() then entries - {id} else entries[id := e]
  }

  function ApplyEntry(e: Entry, base: BookingState, patch: Patch, at: Instant): Entry {
    Entry(Applied(e.status, base.status, patch.status, at),
          Applied(e.needsAttention, base.needsAttention, patch.needsAttention, at))
  }

  function ApplyFn(entries: Entries, id: BookingId, base: BookingState, patch: Patch, at: Instant): Entries {
    Put(entries, id, ApplyEntry(EntryOf(entries, id), base, patch, at))
  }

  function ResolveFn(entries: Entries, id: BookingId, server: BookingState, at: Instant, ttl: int): BookingState {
    var e := EntryOf(entries, id);
    BookingState(Shown(e.status, server.status, at, ttl), Shown(e.needsAttention, server.needsAttention, at, ttl))
  }

  function SettleEntry(e: Entry, server: BookingState, at: Instant, ttl: int): Entry {
    Entry(Settled(e.status, server.status, at, ttl), Settled(e.needsAttention, server.needsAttention, at, ttl))
  }

  function SettleOne(entries: Entries, id: BookingId, server: BookingState, at: Instant, ttl: int): Entries {
    if id in entries then Put(entries, id, SettleEntry(entries[id], server, at, ttl)) else entries
  }

  type Batch = seq<(BookingId, BookingState)>

  function SettleAll(entries: Entries, servers: Batch, at: Instant, ttl: int): Entries {
    if servers == [] then entries
    else
      var last := servers[|servers| - 1];
      SettleOne(SettleAll(entries, servers[..|servers| - 1], at, ttl), last.0, last.1, at, ttl)
  }

  function ExpireEntry(e: Entry, at: Instant, ttl: int): Entry {
    Entry(Unexpired(e.status, at, ttl), Unexpired(e.needsAttention, at, ttl))
  }

  function ExpireAll(entries: Entries, at: Instant, ttl: int): Entries {
    map id | id in entries && !ExpireEntry(entries[id], at, ttl).Empty() :: ExpireEntry(entries[id], at, ttl)
  }

  function PruneFn(entries: Entries, servers: Batch, at: Instant, ttl: int): Entries {
    ExpireAll(SettleAll(entries, servers, at, ttl), at, ttl)
  }

  // ---------------------------------------------------------------------------
  // Invariant: no empty entry, and no hold that expects what it replaced
  // ---------------------------------------------------------------------------

  predicate Meaningful<T(==)>(held: Option<Hold<T>>) {
    held.Some? ==> held.value.expected != held.value.base
  }

  predicate EntryOk(e: Entry) {
    !e.Empty() && Meaningful(e.status) && Meaningful(e.needsAttention)
  }

  ghost predicate EntriesOk(entries: Entries) {
    forall id :: id in entries ==> EntryOk(entries[id])
  }

  lemma ApplyKeepsOk(entries: Entries, id: BookingId, base: BookingState, patch: Patch, at: Instant)
    requires EntriesOk(entries)
    ensures EntriesOk(ApplyFn(entries, id, base, patch, at))
  {
    var e := EntryOf(entries, id);
    assert Meaningful(e.status) && Meaningful(e.needsAttention);
    assert Meaningful(ApplyEntry(e, base, patch, at).status);
  }

  lemma {:induction false} SettleKeepsOk(entries: Entries, servers: Batch, at: Instant, ttl: int)
    requires EntriesOk(entries)
    ensures EntriesOk(SettleAll(entries, servers, at, ttl))
  {
    if servers != [] {
      SettleKeepsOk(entries, servers[..|servers| - 1], at, ttl);
    }
  }

  lemma PruneKeepsOk(entries: Entries, servers: Batch, at: Instant, ttl: int)
    requires EntriesOk(entries)
    ensures EntriesOk(PruneFn(entries, servers, at, ttl))
  {
    SettleKeepsOk(entries, servers, at, ttl);
  }

  // ---------------------------------------------------------------------------
  // Pruning only ever drops holds
  // ---------------------------------------------------------------------------

  predicate FewerHeld<T(==)>(before: Option<Hold<T>>, after: Option<Hold<T>>) {
    after.None? || after == before
  }

  predicate FewerIn(before: Entry, after: Entry) {
    FewerHeld(before.status, after.status) && FewerHeld(before.needsAttention, after.needsAttention)
  }

  /** Every hold of `after` is a hold of `before`. */
  ghost predicate OnlyFewer(before: Entries, after: Entries) {
    forall id :: FewerIn(EntryOf(before, id), EntryOf(after, id))
  }

  predicate LostIn(before: Entry, after: Entry) {
    (before.status.Some? && after.status.None?) || (before.needsAttention.Some? && after.needsAttention.None?)
  }

  /** Some booking had a hold before that it has no longer. */
  ghost predicate Lost(before: Entries, after: Entries) {
    exists id :: LostIn(EntryOf(before, id), EntryOf(after, id))
  }

  lemma DroppingLoses(before: Entries, entries: Entries, id: BookingId, e: Entry)
    requires OnlyFewer(before, entries) && FewerIn(EntryOf(entries, id), e)
    ensures OnlyFewer(before, Put(entries, id, e))
    ensures Lost(before, Put(entries, id, e)) <==> Lost(before, entries) || e != EntryOf(entries, id)
  {
    var after := Put(entries, id, e);
    assert forall k :: EntryOf(after, k) == if k == id then e else EntryOf(entries, k);
    assert FewerIn(EntryOf(before, id), EntryOf(entries, id));
    if e != EntryOf(entries, id) {
      assert LostIn(EntryOf(before, id), EntryOf(after, id));
    } else if k :| LostIn(EntryOf(before, k), EntryOf(entries, k)) {
      assert LostIn(EntryOf(before, k), EntryOf(after, k));
    }
    if Lost(before, entries) {
      var k :| LostIn(EntryOf(before, k), EntryOf(entries, k));
      assert LostIn(EntryOf(before, k), EntryOf(after, k));
    }
    if Lost(before, after) && e == EntryOf(entries, id) {
      var k :| LostIn(EntryOf(before, k), EntryOf(after, k));
      assert LostIn(EntryOf(before, k), EntryOf(entries, k));
    }
  }

  lemma LosingChains(a: Entries, b: Entries, c: Entries)
    requires OnlyFewer(a, b) && OnlyFewer(b, c)
    ensures OnlyFewer(a, c)
    ensures Lost(a, c) <==> Lost(a, b) || Lost(b, c)
  {
    forall id ensures FewerIn(EntryOf(a, id), EntryOf(c, id))
      ensures LostIn(EntryOf(a, id), EntryOf(c, id)) <==>
                LostIn(EntryOf(a, id), EntryOf(b, id)) || LostIn(EntryOf(b, id), EntryOf(c, id))
    {
      assert FewerIn(EntryOf(a, id), EntryOf(b, id)) && FewerIn(EntryOf(b, id), EntryOf(c, id));
    }
  }

  lemma SettledIsFewer(e: Entry, server: BookingState, at: Instant, ttl: int)
    ensures FewerIn(e, SettleEntry(e, server, at, ttl)) && FewerIn(e, ExpireEntry(e, at, ttl))
  {
  }

  lemma NothingIsLost(entries: Entries)
    ensures OnlyFewer(entries, entries) && !Lost(entries, entries)
  {
  }

  /** Expiry carried out for these bookings only. */
  function ExpireSome(entries: Entries, done: set<BookingId>, at: Instant, ttl: int): Entries {
    map id | id in entries && (id in done ==> !ExpireEntry(entries[id], at, ttl).Empty()) ::
      if id in done then ExpireEntry(entries[id], at, ttl) else entries[id]
  }

  lemma ExpireNext(entries: Entries, done: set<BookingId>, id: BookingId, at: Instant, ttl: int)
    requires id in entries && id !in done
    ensures id in ExpireSome(entries, done, at, ttl) && ExpireSome(entries, done, at, ttl)[id] == entries[id]
    ensures ExpireSome(entries, done + {id}, at, ttl)
         == Put(ExpireSome(entries, done, at, ttl), id, ExpireEntry(entries[id], at, ttl))
  {
  }

  lemma ExpireNone(entries: Entries, at: Instant, ttl: int)
    ensures ExpireSome(entries, {}, at, ttl) == entries
  {
  }

  lemma ExpireEvery(entries: Entries, at: Instant, ttl: int)
    ensures ExpireSome(entries, entries.Keys, at, ttl) == ExpireAll(entries, at, ttl)
  {
  }

  // ---------------------------------------------------------------------------
  // The store
  // ---------------------------------------------------------------------------

  class Store {
    const ttlMs: int
    var entries: Entries
    var version: nat

    ghost predicate Valid()
      reads this
    {
      EntriesOk(entries)
    }

    constructor (ttlMs: Option<int>)
      ensures Valid() && entries == map[] && version == 0
      ensures this.ttlMs == if ttlMs.Some? then ttlMs.value else 60_000
    {
      this.ttlMs := match ttlMs case Some(n) => n case None => DEFAULT_TTL_MS;
      entries, version := map[], 0;
    }

    method Apply(id: BookingId, base: BookingState, patch: Patch, at: Instant)
      requires Valid()
      modifies this
      ensures Valid() && entries == ApplyFn(old(entries), id, base, patch, at)
      ensures forall k :: k != id ==> EntryOf(entries, k) == EntryOf(old(entries), k)
      ensures var was := EntryOf(old(entries), id);
        && EntryOf(entries, id).status
           == (if patch.status.None? then was.status
               else if patch.status.value == base.status then None
               else Some(Hold(patch.status.value, base.status, at)))
        && EntryOf(entries, id).needsAttention
           == (if patch.needsAttention.None? then was.needsAttention
               else if patch.needsAttention.value == base.needsAttention then None
               else Some(Hold(patch.needsAttention.value, base.needsAttention, at)))
        && version == old(version)
             + if || (patch.status.Some? && (patch.status.value != base.status || was.status.Some?))
                  || (patch.needsAttention.Some?
                      && (patch.needsAttention.value != base.needsAttention || was.needsAttention.Some?))
               then 1 else 0
    {
      ApplyKeepsOk(entries, id, base, patch, at);
      var entry := EntryOf(entries, id);
      var changed := false;
      if patch.status.Some? {
        if patch.status.value == base.status {
          if entry.status.Some? {
            entry, changed := entry.(status := None), true;
          }
        } else {
          entry, changed := entry.(status := Some(Hold(patch.status.value, base.status, at))), true;
        }
      }
      if patch.needsAttention.Some? {
        if patch.needsAttention.value == base.needsAttention {
          if entry.needsAttention.Some? {
            entry, changed := entry.(needsAttention := None), true;
          }
        } else {
          entry, changed := entry.(needsAttention := Some(Hold(patch.needsAttention.value, base.needsAttention, at))), true;
        }
      }
      if !changed {
        return;
      }
      if entry.Empty() {
        entries := entries - {id};
      } else {
        entries := entries[id := entry];
      }
      version := version + 1;
    }

    method Resolve(id: BookingId, server: BookingState, at: Instant) returns (shown: BookingState)
      requires Valid()
      ensures shown == ResolveFn(entries, id, server, at, ttlMs)
      ensures var e := EntryOf(entries, id);
        && shown.status == (if e.status.Some? && at - e.status.value.at <= ttlMs && e.status.value.base == server.status
                            then e.status.value.expected else server.status)
        && shown.needsAttention
           == (if e.needsAttention.Some? && at - e.needsAttention.value.at <= ttlMs
                  && e.needsAttention.value.base == server.needsAttention
               then e.needsAttention.value.expected else server.needsAttention)
    {
      if id !in entries {
        return server;
      }
      var entry := entries[id];
      shown := server;
      if entry.status.Some? && Alive(entry.status.value, server.status, at, ttlMs) {
        shown := shown.(status := entry.status.value.expected);
      }
      if entry.needsAttention.Some? && Alive(entry.needsAttention.value, server.needsAttention, at, ttlMs) {
        shown := shown.(needsAttention := entry.needsAttention.value.expected);
      }
    }

    /** Pending exactly when what is shown is not what the server says. */
    method IsPending(id: BookingId, server: BookingState, at: Instant) returns (pending: bool)
      requires Valid()
      ensures pending <==> ResolveFn(entries, id, server, at, ttlMs) != server
    {
      if id !in entries {
        return false;
      }
      var entry := entries[id];
      assert EntryOk(entry);
      pending := Holding(entry.status, server.status, at, ttlMs)
                 || Holding(entry.needsAttention, server.needsAttention, at, ttlMs);
    }

    method SettleBatch(servers: Batch, at: Instant) returns (changed: bool)
      requires Valid()
      modifies this`entries
      ensures Valid() && entries == SettleAll(old(entries), servers, at, ttlMs)
      ensures OnlyFewer(old(entries), entries) && (changed <==> Lost(old(entries), entries))
    {
      changed := false;
      ghost var before := entries;
      NothingIsLost(entries);
      for i := 0 to |servers|
        invariant entries == SettleAll(before, servers[..i], at, ttlMs)
        invariant OnlyFewer(before, entries) && (changed <==> Lost(before, entries))
      {
        var (id, server) := servers[i];
        assert servers[..i + 1][..i] == servers[..i];
        if id in entries {
          var settled := SettleEntry(entries[id], server, at, ttlMs);
          SettledIsFewer(entries[id], server, at, ttlMs);
          DroppingLoses(before, entries, id, settled);
          changed := changed || settled != entries[id];
          entries := Put(entries, id, settled);
        }
      }
      assert servers[..|servers|] == servers;
      SettleKeepsOk(before, servers, at, ttlMs);
    }

    /** Holds for bookings outside the batch still expire on time. */
    method ExpireRest(at: Instant) returns (changed: bool)
      requires Valid()
      modifies this`entries
      ensures Valid() && entries == ExpireAll(old(entries), at, ttlMs)
      ensures OnlyFewer(old(entries), entries) && (changed <==> Lost(old(entries), entries))
    {
      changed := false;
      ghost var before := entries;
      NothingIsLost(entries);
      ExpireNone(entries, at, ttlMs);
      var left := entries.Keys;
      while left != {}
        invariant left <= before.Keys
        invariant entries == ExpireSome(before, before.Keys - left, at, ttlMs)
        invariant OnlyFewer(before, entries) && (changed <==> Lost(before, entries))
        decreases left
      {
        var id :| id in left;
        ExpireNext(before, before.Keys - left, id, at, ttlMs);
        assert before.Keys - (left - {id}) == before.Keys - left + {id};
        var kept := ExpireEntry(entries[id], at, ttlMs);
        SettledIsFewer(entries[id], BookingState(Pending, false), at, ttlMs);
        DroppingLoses(before, entries, id, kept);
        changed := changed || kept != entries[id];
        entries := Put(entries, id, kept);
        left := left - {id};
      }
      assert before.Keys - left == before.Keys;
      ExpireEvery(before, at, ttlMs);
    }

    /** Returns true, and notifies, exactly when some hold was dropped. */
    method Prune(servers: Batch, at: Instant) returns (changed: bool)
      requires Valid()
      modifies this
      ensures Valid() && entries == PruneFn(old(entries), servers, at, ttlMs)
      ensures OnlyFewer(old(entries), entries) && (changed <==> Lost(old(entries), entries))
      ensures version == old(version) + if changed then 1 else 0
    {
      var settled := SettleBatch(servers, at);
      ghost var between := entries;
      var expired := ExpireRest(at);
      LosingChains(old(entries), between, entries);
      changed := settled || expired;
      if changed {
        version := version + 1;
      }
    }

    method Forget(id: BookingId)
      requires Valid()
      modifies this
      ensures Valid() && entries == old(entries) - {id}
      ensures version == old(version) + if id in old(entries) then 1 else 0
    {
      if id in entries {
        entries := entries - {id};
        version := version + 1;
      }
    }

    method Reset()
      modifies this
      ensures Valid() && entries == map[] && version == 0
    {
      entries, version := map[], 0;
    }

    method Size() returns (n: nat)
      ensures n == |entries|
    {
      n := |entries|;
    }
  }
}

/**
 * The sliding-window limiter on the public booking surface: a map of recent hits that is
 * compacted on every check, swept once a window and capped in size, against the plain rule
 * it stands for: keep every allowed hit and count the ones inside the window.
 */
module RateLimiter {
  import opened Common

  /** Keys are only ever compared for equality, so any identifier will do. */
  type Key = nat

  type Hits = map<Key, seq<Instant>>

  datatype Options = Options(limit: int, windowMs: int, maxKeys: int)
  {
    predicate Valid() {
      limit >= 1 && windowMs >= 1
    }
  }

  const DEFAULT_MAX_KEYS := 20_000

  datatype Answer = Answer(allowed: bool, remaining: int, retryAfterMs: int)

  datatype OptionsError = LimitTooSmall | WindowNotPositive

  // ---------------------------------------------------------------------------
  // Timestamps
  // ---------------------------------------------------------------------------

  function Get(hits: Hits, key: Key): seq<Instant> {
    if key in hits then hits[key] else []
  }

  /** The hits later than the cutoff. */
  function After(ts: seq<Instant>, cutoff: Instant): seq<Instant> {
    if ts == [] then []
    else if ts[|ts| - 1] > cutoff then After(ts[..|ts| - 1], cutoff) + [ts[|ts| - 1]]
    else After(ts[..|ts| - 1], cutoff)
  }

  predicate Stale(ts: seq<Instant>, cutoff: Instant) {
    ts == [] || ts[|ts| - 1] <= cutoff
  }

  /** In order, and none later than `now`. */
  ghost predicate Past(ts: seq<Instant>, now: Instant) {
    ts == [] || (ts[|ts| - 1] <= now && Past(ts[..|ts| - 1], ts[|ts| - 1]))
  }

  lemma AfterAppends(ts: seq<Instant>, t: Instant, c: Instant)
    ensures After(ts + [t], c) == if t > c then After(ts, c) + [t] else After(ts, c)
  {
    assert (ts + [t])[..|ts + [t]| - 1] == ts;
  }

  lemma {:induction false} AfterAfter(ts: seq<Instant>, c: Instant, d: Instant)
    requires c <= d
    ensures After(After(ts, c), d) == After(ts, d)
  {
    if ts != [] {
      var front, last := ts[..|ts| - 1], ts[|ts| - 1];
      AfterAfter(front, c, d);
      if last > c {
        AfterAppends(After(front, c), last, d);
      } else {
        assert After(ts, c) == After(front, c);
      }
    }
  }

  lemma PastHit(ts: seq<Instant>, t: Instant, now: Instant)
    requires Past(ts, t) && t <= now
    ensures Past(ts + [t], now)
  {
    assert (ts + [t])[..|ts + [t]| - 1] == ts;
  }

  lemma PastLater(ts: seq<Instant>, prev: Instant, now: Instant)
    requires Past(ts, prev) && prev <= now
    ensures Past(ts, now)
  {
  }

  lemma {:induction false} PastHasNothingAfter(ts: seq<Instant>, now: Instant, c: Instant)
    requires Past(ts, now) && now <= c
    ensures After(ts, c) == []
  {
    if ts != [] {
      PastHasNothingAfter(ts[..|ts| - 1], ts[|ts| - 1], c);
    }
  }

  lemma StaleHasNothingAfter(ts: seq<Instant>, cutoff: Instant, now: Instant)
    requires Past(ts, now) && Stale(ts, cutoff)
    ensures After(ts, cutoff) == []
  {
    if ts != [] {
      PastHasNothingAfter(ts, ts[|ts| - 1], cutoff);
    }
  }

  lemma {:induction false} RecentIsPast(ts: seq<Instant>, c: Instant, now: Instant)
    requires Past(ts, now)
    ensures Past(After(ts, c), now)
  {
    if ts != [] {
      var front, last := ts[..|ts| - 1], ts[|ts| - 1];
      RecentIsPast(front, c, last);
      if last > c {
        PastHit(After(front, c), last, now);
      } else {
        assert After(ts, c) == After(front, c);
      }
    }
  }

  lemma {:induction false} PastBounds(ts: seq<Instant>, now: Instant, i: nat)
    requires Past(ts, now) && i < |ts|
    ensures ts[i] <= now
  {
    if i < |ts| - 1 {
      PastBounds(ts[..|ts| - 1], ts[|ts| - 1], i);
    }
  }

  /** The hit at `i` is recent exactly when it and all that follow it are counted. */
  lemma {:induction false} RecentFrom(ts: seq<Instant>, now: Instant, c: Instant, i: nat)
    requires Past(ts, now) && i < |ts|
    ensures ts[i] > c <==> |After(ts, c)| >= |ts| - i
  {
    var front, last := ts[..|ts| - 1], ts[|ts| - 1];
    if last <= c {
      PastHasNothingAfter(ts, last, c);
      PastBounds(ts, last, i);
    } else if i < |ts| - 1 {
      RecentFrom(front, last, c, i);
    }
  }

  lemma {:induction false} AfterIsShorter(ts: seq<Instant>, c: Instant)
    ensures |After(ts, c)| <= |ts|
    ensures forall i :: 0 <= i < |After(ts, c)| ==> After(ts, c)[i] > c
  {
    if ts != [] {
      AfterIsShorter(ts[..|ts| - 1], c);
    }
  }

  // ---------------------------------------------------------------------------
  // The state: the map and the order in which its keys were inserted
  // ---------------------------------------------------------------------------

  datatype Tracked = Tracked(hits: Hits, order: seq<Key>, lastEviction: Instant)
  {
    ghost predicate Valid() {
      Distinct(order) && (forall k :: k in order <==> k in hits)
    }
  }

  ghost predicate Distinct(order: seq<Key>) {
    order == [] || (order[0] !in order[1..] && Distinct(order[1..]))
  }

  function Fresh(now: Instant): Tracked {
    Tracked(map[], [], now)
  }

  /** The keys, in order, that are not stale. */
  function Fresher(hits: Hits, order: seq<Key>, cutoff: Instant): seq<Key> {
    if order == [] then []
    else if Stale(Get(hits, order[0]), cutoff) then Fresher(hits, order[1..], cutoff)
    else [order[0]] + Fresher(hits, order[1..], cutoff)
  }

  function Sweep(t: Tracked, cutoff: Instant): Tracked {
    t.(hits := map k | k in t.hits && !Stale(t.hits[k], cutoff) :: t.hits[k],
       order := Fresher(t.hits, t.order, cutoff))
  }

  /** A key keeps its place when it is set again. */
  function Put(t: Tracked, key: Key, ts: seq<Instant>): Tracked {
    t.(hits := t.hits[key := ts], order := if key in t.hits then t.order else t.order + [key])
  }

  /** Drops the longest-tracked keys, up to `excess` of them and never `spare`. */
  function Shed(order: seq<Key>, spare: Key, excess: int): seq<Key> {
    if order == [] || excess <= 0 then order
    else if order[0] == spare then [spare] + Shed(order[1..], spare, excess)
    else Shed(order[1..], spare, excess - 1)
  }

  function Only(hits: Hits, order: seq<Key>): Hits {
    map k | k in hits && k in order :: hits[k]
  }

  function Force(t: Tracked, spare: Key, maxKeys: int): Tracked {
    var order := Shed(t.order, spare, |t.order| - maxKeys);
    t.(hits := Only(t.hits, order), order := order)
  }

  function Due(o: Options, t: Tracked, now: Instant): Tracked {
    if now - t.lastEviction >= o.windowMs then Sweep(t, now - o.windowMs).(lastEviction := now) else t
  }

  function Recent(o: Options, t: Tracked, key: Key, now: Instant): seq<Instant> {
    After(Get(Due(o, t, now).hits, key), now - o.windowMs)
  }

  function Rejection(o: Options, recent: seq<Instant>, now: Instant): Answer
    requires recent != []
  {
    Answer(false, 0, Max(1, recent[0] + o.windowMs - now))
  }

  function Capped(o: Options, t: Tracked, key: Key, cutoff: Instant): Tracked {
    if |t.order| > o.maxKeys then Force(Sweep(t, cutoff), key, o.maxKeys) else t
  }

  /** The state with this check's hit recorded, before the size guard. */
  function WithHit(o: Options, t: Tracked, key: Key, now: Instant): Tracked {
    Put(Due(o, t, now), key, Recent(o, t, key, now) + [now])
  }

  function CheckFn(o: Options, t: Tracked, key: Key, now: Instant): (Tracked, Answer)
    requires o.Valid()
  {
    var recent := Recent(o, t, key, now);
    if |recent| >= o.limit then
      (Put(Due(o, t, now), key, recent), Rejection(o, recent, now))
    else
      (Capped(o, WithHit(o, t, key, now), key, now - o.windowMs), Answer(true, o.limit - (|recent| + 1), 0))
  }

  function Without(order: seq<Key>, key: Key): seq<Key> {
    if order == [] then []
    else if order[0] == key then Without(order[1..], key)
    else [order[0]] + Without(order[1..], key)
  }

  function ResetFn(t: Tracked, key: Option<Key>): Tracked {
    match key
    case None => t.(hits := map[], order := [])
    case Some(k) => t.(hits := t.hits - {k}, order := Without(t.order, k))
  }

  // ---------------------------------------------------------------------------
  // The limiter itself
  // ---------------------------------------------------------------------------

  lemma {:induction false} DistinctAppends(order: seq<Key>, key: Key)
    requires Distinct(order) && key !in order
    ensures Distinct(order + [key])
  {
    if order != [] {
      assert (order + [key])[1..] == order[1..] + [key];
      DistinctAppends(order[1..], key);
    }
  }

  lemma {:induction false} NotAmongEarlier(order: seq<Key>, i: nat)
    requires Distinct(order) && i < |order|
    ensures order[i] !in order[..i]
  {
    if i > 0 {
      NotAmongEarlier(order[1..], i - 1);
      assert order[..i] == [order[0]] + order[1..][..i - 1];
      assert order[i] in order[1..];
    }
  }

  lemma {:induction false} FresherAppends(hits: Hits, a: seq<Key>, k: Key, cutoff: Instant)
    ensures Fresher(hits, a + [k], cutoff)
         == if Stale(Get(hits, k), cutoff) then Fresher(hits, a, cutoff) else Fresher(hits, a, cutoff) + [k]
  {
    if a == [] {
      assert [] + [k] == [k];
    } else {
      assert (a + [k])[1..] == a[1..] + [k];
      FresherAppends(hits, a[1..], k, cutoff);
    }
  }

  lemma {:induction false} FresherKeeps(hits: Hits, order: seq<Key>, cutoff: Instant)
    requires Distinct(order)
    ensures Distinct(Fresher(hits, order, cutoff))
    ensures forall k :: k in Fresher(hits, order, cutoff) <==> k in order && !Stale(Get(hits, k), cutoff)
  {
    if order != [] {
      var rest := Fresher(hits, order[1..], cutoff);
      FresherKeeps(hits, order[1..], cutoff);
      assert Fresher(hits, order, cutoff) == if Stale(Get(hits, order[0]), cutoff) then rest else [order[0]] + rest;
      assert ([order[0]] + rest)[1..] == rest;
    }
  }

  lemma {:induction false} WithoutKeeps(order: seq<Key>, key: Key)
    requires Distinct(order)
    ensures Distinct(Without(order, key))
    ensures forall k :: k in Without(order, key) <==> k in order && k != key
    ensures |Without(order, key)| <= |order|
  {
    if order != [] {
      var rest := Without(order[1..], key);
      WithoutKeeps(order[1..], key);
      assert order[0] !in rest by { assert order[0] !in order[1..]; }
      assert Without(order, key) == if order[0] == key then rest else [order[0]] + rest;
    }
  }

  /** Exactly the excess goes, as long as there is anything but the spared key to drop. */
  lemma {:induction false} ShedKeeps(order: seq<Key>, spare: Key, excess: int)
    requires Distinct(order)
    ensures Distinct(Shed(order, spare, excess))
    ensures forall k :: k in Shed(order, spare, excess) ==> k in order
    ensures spare in order ==> spare in Shed(order, spare, excess)
    ensures var droppable := |order| - (if spare in order then 1 else 0);
            |Shed(order, spare, excess)| == |order| - Max(0, Min(excess, droppable))
  {
    if order != [] && excess > 0 {
      if order[0] == spare {
        ShedKeeps(order[1..], spare, excess);
      } else {
        ShedKeeps(order[1..], spare, excess - 1);
      }
    }
  }

  lemma SweepKeepsValid(t: Tracked, cutoff: Instant)
    requires t.Valid()
    ensures Sweep(t, cutoff).Valid()
  {
    FresherKeeps(t.hits, t.order, cutoff);
  }

  lemma ForceKeepsValid(t: Tracked, spare: Key, maxKeys: int)
    requires t.Valid()
    ensures Force(t, spare, maxKeys).Valid()
  {
    ShedKeeps(t.order, spare, |t.order| - maxKeys);
  }

  lemma DueKeepsValid(o: Options, t: Tracked, now: Instant)
    requires t.Valid()
    ensures Due(o, t, now).Valid()
  {
    SweepKeepsValid(t, now - o.windowMs);
  }

  lemma CappedKeepsValid(o: Options, t: Tracked, key: Key, cutoff: Instant)
    requires t.Valid()
    ensures Capped(o, t, key, cutoff).Valid()
  {
    SweepKeepsValid(t, cutoff);
    ForceKeepsValid(Sweep(t, cutoff), key, o.maxKeys);
  }

  lemma PutKeepsValid(t: Tracked, key: Key, ts: seq<Instant>)
    requires t.Valid()
    ensures Put(t, key, ts).Valid()
  {
    if key !in t.hits {
      DistinctAppends(t.order, key);
    }
  }

  lemma WithHitIsValid(o: Options, t: Tracked, key: Key, now: Instant)
    requires t.Valid()
    ensures WithHit(o, t, key, now).Valid()
  {
    DueKeepsValid(o, t, now);
    PutKeepsValid(Due(o, t, now), key, Recent(o, t, key, now) + [now]);
  }

  lemma CheckKeepsValid(o: Options, t: Tracked, key: Key, now: Instant)
    requires o.Valid() && t.Valid()
    ensures CheckFn(o, t, key, now).0.Valid()
  {
    DueKeepsValid(o, t, now);
    PutKeepsValid(Due(o, t, now), key, Recent(o, t, key, now));
    WithHitIsValid(o, t, key, now);
    CappedKeepsValid(o, WithHit(o, t, key, now), key, now - o.windowMs);
  }

  lemma ResetKeepsValid(t: Tracked, key: Option<Key>)
    requires t.Valid()
    ensures ResetFn(t, key).Valid()
  {
    if key.Some? {
      WithoutKeeps(t.order, key.value);
    }
  }

  lemma {:induction false} DistinctHasAsManyKeys(order: seq<Key>, keys: set<Key>)
    requires Distinct(order) && forall k :: k in order ==> k in keys
    ensures |order| <= |keys|
    ensures (forall k :: k in keys ==> k in order) ==> |order| == |keys|
  {
    if order != [] {
      DistinctHasAsManyKeys(order[1..], keys - {order[0]});
    }
  }

  /** What is left of the map once the stale ones of these keys are deleted. */
  function Pruned(hits: Hits, keys: seq<Key>, cutoff: Instant): Hits {
    map k | k in hits && (k in keys ==> !Stale(hits[k], cutoff)) :: hits[k]
  }

  lemma PrunedNothing(hits: Hits, cutoff: Instant)
    ensures Pruned(hits, [], cutoff) == hits
  {
  }

  lemma PrunedAppends(hits: Hits, keys: seq<Key>, k: Key, cutoff: Instant)
    requires k in hits && k !in keys
    ensures Pruned(hits, keys + [k], cutoff)
         == if Stale(hits[k], cutoff) then Pruned(hits, keys, cutoff) - {k} else Pruned(hits, keys, cutoff)
    ensures Get(Pruned(hits, keys, cutoff), k) == hits[k]
  {
  }

  lemma PrunedIsSweep(t: Tracked, cutoff: Instant)
    requires t.Valid()
    ensures Pruned(t.hits, t.order, cutoff) == Sweep(t, cutoff).hits
  {
  }

  method KeepNewest(order: seq<Key>, spare: Key, maxKeys: int) returns (kept: seq<Key>)
    ensures kept == Shed(order, spare, |order| - maxKeys)
  {
    kept := [];
    var i := 0;
    while i < |order| && |kept| + (|order| - i) > maxKeys
      invariant 0 <= i <= |order|
      invariant kept + Shed(order[i..], spare, |kept| + (|order| - i) - maxKeys) == Shed(order, spare, |order| - maxKeys)
    {
      ghost var rest := Shed(order[i + 1..], spare, |kept| + (|order| - i) - maxKeys);
      assert order[i..][1..] == order[i + 1..];
      assert kept + ([spare] + rest) == (kept + [spare]) + rest;
      if order[i] == spare {
        kept := kept + [spare];
      }
      i := i + 1;
    }
    kept := kept + order[i..];
  }

  class Limiter {
    const options: Options
    var hits: Hits
    var order: seq<Key>
    var lastEviction: Instant

    function State(): Tracked
      reads this
    {
      Tracked(hits, order, lastEviction)
    }

    ghost predicate Valid()
      reads this
    {
      options.Valid() && State().Valid()
    }

    constructor (options: Options, now: Instant)
      requires options.Valid()
      ensures Valid() && this.options == options && State() == Fresh(now)
    {
      this.options := options;
      hits, order, lastEviction := map[], [], now;
    }

    /** Deleting while iterating a `Map` visits every other key once, in insertion order. */
    method EvictStale(cutoff: Instant)
      requires Valid()
      modifies this`hits, this`order
      ensures Valid() && State() == Sweep(old(State()), cutoff)
      ensures forall k :: k in hits <==>
                k in old(hits) && old(hits)[k] != [] && old(hits)[k][|old(hits)[k]| - 1] > cutoff
      ensures forall k :: k in hits ==> hits[k] == old(hits)[k]
    {
      ghost var all := hits;
      var kept: seq<Key> := [];
      PrunedNothing(hits, cutoff);
      for i := 0 to |order|
        invariant order == old(order)
        invariant kept == Fresher(all, order[..i], cutoff)
        invariant hits == Pruned(all, order[..i], cutoff)
      {
        FresherAppends(all, order[..i], order[i], cutoff);
        NotAmongEarlier(order, i);
        PrunedAppends(all, order[..i], order[i], cutoff);
        assert order[..i + 1] == order[..i] + [order[i]];
        if Stale(Get(hits, order[i]), cutoff) {
          hits := hits - {order[i]};
        } else {
          kept := kept + [order[i]];
        }
      }
      assert order[..|order|] == order;
      SweepKeepsValid(old(State()), cutoff);
      PrunedIsSweep(old(State()), cutoff);
      order := kept;
    }

    /** `hits.set(key, ts)`. */
    method Store(key: Key, ts: seq<Instant>)
      requires Valid()
      modifies this`hits, this`order
      ensures Valid() && State() == Put(old(State()), key, ts)
    {
      PutKeepsValid(State(), key, ts);
      if key !in hits {
        order := order + [key];
      }
      hits := hits[key := ts];
    }

    /** The second half of the size guard: oldest keys first, never the one being checked. */
    method EvictOldest(key: Key)
      requires Valid()
      modifies this`hits, this`order
      ensures Valid() && State() == Force(old(State()), key, options.maxKeys)
    {
      ForceKeepsValid(State(), key, options.maxKeys);
      order := KeepNewest(order, key, options.maxKeys);
      hits := map k | k in hits && k in order :: hits[k];
    }

    /** Sweep occasionally rather than on every check. */
    method SweepIfDue(now: Instant)
      requires Valid()
      modifies this
      ensures Valid() && State() == Due(options, old(State()), now)
    {
      if now - lastEviction >= options.windowMs {
        EvictStale(now - options.windowMs);
        lastEviction := now;
      }
    }

    method EnforceCap(key: Key, cutoff: Instant)
      requires Valid()
      modifies this`hits, this`order
      ensures Valid() && State() == Capped(options, old(State()), key, cutoff)
    {
      if |order| > options.maxKeys {
        EvictStale(cutoff);
        EvictOldest(key);
      }
    }

    method Check(key: Key, now: Instant) returns (a: Answer)
      requires Valid()
      modifies this
      ensures Valid() && (State(), a) == CheckFn(options, old(State()), key, now)
      ensures a.allowed ==> 0 <= a.remaining < options.limit && a.retryAfterMs == 0
      ensures !a.allowed ==> a.remaining == 0 && a.retryAfterMs >= 1
    {
      SweepIfDue(now);
      var cutoff := now - options.windowMs;
      var recent := After(Get(hits, key), cutoff);
      if |recent| >= options.limit {
        Store(key, recent);
        return Rejection(options, recent, now);
      }
      Store(key, recent + [now]);
      EnforceCap(key, cutoff);
      a := Answer(true, options.limit - |recent + [now]|, 0);
    }

    method Reset(key: Option<Key>)
      requires Valid()
      modifies this`hits, this`order
      ensures Valid() && State() == ResetFn(old(State()), key)
      ensures hits == if key.Some? then old(hits) - {key.value} else map[]
    {
      ResetKeepsValid(State(), key);
      if key.None? {
        hits, order := map[], [];
      } else {
        hits, order := hits - {key.value}, Without(order, key.value);
      }
    }

    method Size() returns (n: nat)
      requires Valid()
      ensures n == |hits| == |order|
    {
      assert forall k :: k in order ==> k in hits.Keys;
      DistinctHasAsManyKeys(order, hits.Keys);
      n := |hits|;
    }
  }

  method CreateRateLimiter(limit: int, windowMs: int, maxKeys: Option<int>, now: Instant)
    returns (r: Result<Limiter, OptionsError>)
    ensures limit < 1 ==> r == Err(LimitTooSmall)
    ensures limit >= 1 && windowMs < 1 ==> r == Err(WindowNotPositive)
    ensures limit >= 1 && windowMs >= 1 ==>
      && r.Ok? && fresh(r.value) && r.value.Valid() && r.value.State() == Fresh(now)
      && r.value.options == Options(limit, windowMs, if maxKeys.Some? then maxKeys.value else 20_000)
  {
    if limit < 1 {
      return Err(LimitTooSmall);
    }
    if windowMs < 1 {
      return Err(WindowNotPositive);
    }
    var cap := match maxKeys case Some(n) => n case None => DEFAULT_MAX_KEYS;
    var limiter := new Limiter(Options(limit, windowMs, cap), now);
    r := Ok(limiter);
  }
}

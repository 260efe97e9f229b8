/** What a check, a reset and the size guard do, spelled out over the hits and the clock. */
module RateLimiterEffects {
  import opened Common
  import opened RateLimiter
  import opened RateLimiterTheorems
  import opened RateLimiterBounds

  // ---------------------------------------------------------------------------
  // One check
  // ---------------------------------------------------------------------------

  /** Where the hits later than the cutoff are. */
  function Later(ts: seq<Instant>, cutoff: Instant): set<nat> {
    set i: nat | i < |ts| && ts[i] > cutoff
  }

  lemma {:induction false} AfterCounts(ts: seq<Instant>, cutoff: Instant)
    ensures |After(ts, cutoff)| == |Later(ts, cutoff)|
  {
    if ts == [] {
      assert Later(ts, cutoff) == {};
    } else {
      var front, last := ts[..|ts| - 1], |ts| - 1;
      AfterCounts(front, cutoff);
      assert Later(ts, cutoff) == if ts[last] > cutoff then Later(front, cutoff) + {last} else Later(front, cutoff);
    }
  }

  lemma {:induction false} AfterStartsAtTheFirst(ts: seq<Instant>, cutoff: Instant, i: nat)
    requires i < |ts| && ts[i] > cutoff && forall j :: 0 <= j < i ==> ts[j] <= cutoff
    ensures After(ts, cutoff) != [] && After(ts, cutoff)[0] == ts[i]
  {
    var front := ts[..|ts| - 1];
    if i < |ts| - 1 {
      AfterStartsAtTheFirst(front, cutoff, i);
    } else {
      NothingAfter(front, cutoff);
    }
  }

  lemma {:induction false} NothingAfter(ts: seq<Instant>, cutoff: Instant)
    requires forall j :: 0 <= j < |ts| ==> ts[j] <= cutoff
    ensures After(ts, cutoff) == []
  {
    if ts != [] {
      NothingAfter(ts[..|ts| - 1], cutoff);
    }
  }

  lemma AnswerCounts(o: Options, ts: seq<Instant>, now: Instant, used: set<nat>)
    requires used == Later(ts, now - o.windowMs)
    ensures |After(ts, now - o.windowMs)| == |used|
    ensures forall i :: i in used && (forall j :: j in used ==> i <= j)
              ==> After(ts, now - o.windowMs) != [] && After(ts, now - o.windowMs)[0] == ts[i]
  {
    var cutoff := now - o.windowMs;
    AfterCounts(ts, cutoff);
    forall i | i in used && (forall j :: j in used ==> i <= j)
      ensures After(ts, cutoff) != [] && After(ts, cutoff)[0] == ts[i]
    {
      forall j: nat | j < i ensures ts[j] <= cutoff {
        assert j !in used;
      }
      AfterStartsAtTheFirst(ts, cutoff, i);
    }
  }

  /** The key's hits a check at `now` looks at: none when the sweep, due now, drops the key. */
  function Seen(o: Options, t: Tracked, key: Key, now: Instant): seq<Instant> {
    if key !in t.hits then []
    else
      var ts := t.hits[key];
      if now - t.lastEviction >= o.windowMs && (ts == [] || ts[|ts| - 1] <= now - o.windowMs) then [] else ts
  }

  lemma SeenExactly(o: Options, t: Tracked, key: Key, now: Instant)
    ensures Recent(o, t, key, now) == After(Seen(o, t, key, now), now - o.windowMs)
  {
  }

  /**
   * A check is allowed if and only if fewer than `limit` of the hits it looks at are inside
   * the window. It then leaves what is left of the limit; a rejection leaves nothing and
   * names the moment the first of those hits leaves the window.
   */
  lemma CheckExactly(o: Options, t: Tracked, key: Key, now: Instant)
    requires o.Valid()
    ensures var (a, ts) := (CheckFn(o, t, key, now).1, Seen(o, t, key, now));
            var used := set i: nat | i < |ts| && ts[i] > now - o.windowMs;
            && (a.allowed <==> |used| < o.limit)
            && (a.allowed ==> a.remaining == o.limit - |used| - 1 && a.retryAfterMs == 0)
            && (!a.allowed ==> a.remaining == 0 && a.retryAfterMs >= 1)
            && (!a.allowed ==> forall i :: i in used && (forall j :: j in used ==> i <= j)
                                 ==> a.retryAfterMs == Max(1, ts[i] + o.windowMs - now))
  {
    SeenExactly(o, t, key, now);
    AnswerCounts(o, Seen(o, t, key, now), now, Later(Seen(o, t, key, now), now - o.windowMs));
  }

  /** A tracked key keeps its hits, unless its newest one has left the window. */
  ghost predicate Live(t: Tracked, key: Key, cutoff: Instant) {
    key in t.hits && t.hits[key] != [] && t.hits[key][|t.hits[key]| - 1] > cutoff
  }

  /** Of the other keys, those with a live hit stay where a sweep ran, and all of them where none did. */
  ghost predicate OthersSwept(t: Tracked, u: Tracked, key: Key, cutoff: Instant, swept: bool) {
    && (forall k :: k != key ==> (k in u.hits <==> k in t.hits && (swept ==> Live(t, k, cutoff))))
    && (forall k :: k != key && k in u.hits && k in t.hits ==> u.hits[k] == t.hits[k])
  }

  lemma DueExactly(o: Options, t: Tracked, key: Key, now: Instant)
    ensures var due := now - t.lastEviction >= o.windowMs;
            && OthersSwept(t, Due(o, t, now), key, now - o.windowMs, due)
            && Due(o, t, now).lastEviction == if due then now else t.lastEviction
  {
  }

  /** A rejection records nothing new, and touches another key only by a sweep that is due. */
  lemma RejectionLeaves(o: Options, t: Tracked, key: Key, now: Instant)
    requires o.Valid() && !CheckFn(o, t, key, now).1.allowed
    ensures var (u, due) := (CheckFn(o, t, key, now).0, now - t.lastEviction >= o.windowMs);
            && u.lastEviction == (if due then now else t.lastEviction)
            && key in u.hits && u.hits[key] == After(Seen(o, t, key, now), now - o.windowMs)
            && OthersSwept(t, u, key, now - o.windowMs, due)
  {
    DueExactly(o, t, key, now);
    SeenExactly(o, t, key, now);
  }

  /** How many keys are tracked once the hit is recorded. */
  function Crowd(o: Options, t: Tracked, key: Key, now: Instant): nat {
    |WithHit(o, t, key, now).hits|
  }

  lemma CrowdIsOrder(o: Options, t: Tracked, key: Key, now: Instant)
    requires t.Valid()
    ensures Crowd(o, t, key, now) == |WithHit(o, t, key, now).order|
  {
    var hit := WithHit(o, t, key, now);
    WithHitIsValid(o, t, key, now);
    DistinctHasAsManyKeys(hit.order, hit.hits.Keys);
  }

  lemma CappedHit(o: Options, hit: Tracked, key: Key, cutoff: Instant, ts: seq<Instant>, u: Tracked)
    requires hit.Valid() && key in hit.hits && hit.hits[key] == ts && !Stale(ts, cutoff)
    requires u == Capped(o, hit, key, cutoff)
    ensures key in u.hits && u.hits[key] == ts
  {
    CappedKeepsTheHit(o, hit, key, cutoff);
  }

  lemma AdmissionKeepsTheHit(o: Options, t: Tracked, key: Key, now: Instant, u: Tracked)
    requires o.Valid() && t.Valid() && u == Capped(o, WithHit(o, t, key, now), key, now - o.windowMs)
    ensures key in u.hits && u.hits[key] == Recent(o, t, key, now) + [now]
  {
    WithHitHolds(o, t, key, now);
    WithHitIsValid(o, t, key, now);
    CappedHit(o, WithHit(o, t, key, now), key, now - o.windowMs, Recent(o, t, key, now) + [now], u);
  }

  lemma CappedDropsOnlyOverTheCap(o: Options, hit: Tracked, key: Key, cutoff: Instant)
    ensures |hit.order| <= o.maxKeys ==> Capped(o, hit, key, cutoff) == hit
    ensures |hit.order| > o.maxKeys ==> forall k :: k in Capped(o, hit, key, cutoff).hits ==>
              Live(hit, k, cutoff) && Capped(o, hit, key, cutoff).hits[k] == hit.hits[k]
  {
  }

  lemma HitTouchesOneKey(o: Options, t: Tracked, key: Key, now: Instant)
    ensures var (hit, due) := (WithHit(o, t, key, now), Due(o, t, now));
            && hit.lastEviction == due.lastEviction
            && forall k :: k != key ==> (k in hit.hits <==> k in due.hits) && (k in due.hits ==> hit.hits[k] == due.hits[k])
  {
  }

  lemma OthersAfterTheCap(o: Options, t: Tracked, key: Key, cutoff: Instant, swept: Tracked, hit: Tracked, u: Tracked,
                          due: bool)
    requires OthersSwept(t, swept, key, cutoff, due) && u == Capped(o, hit, key, cutoff)
    requires forall k :: k != key ==>
               (k in hit.hits <==> k in swept.hits) && (k in swept.hits ==> hit.hits[k] == swept.hits[k])
    ensures |hit.order| <= o.maxKeys ==> OthersSwept(t, u, key, cutoff, due)
    ensures |hit.order| > o.maxKeys ==> forall k :: k in u.hits && k != key ==>
              Live(t, k, cutoff) && u.hits[k] == t.hits[k]
  {
    CappedDropsOnlyOverTheCap(o, hit, key, cutoff);
  }

  /** An allowed check adds its hit to the ones inside the window, and remembers a sweep that was due. */
  lemma AdmissionRecords(o: Options, t: Tracked, key: Key, now: Instant)
    requires o.Valid() && t.Valid() && CheckFn(o, t, key, now).1.allowed
    ensures var u := CheckFn(o, t, key, now).0;
            && u.lastEviction == (if now - t.lastEviction >= o.windowMs then now else t.lastEviction)
            && key in u.hits && u.hits[key] == After(Seen(o, t, key, now), now - o.windowMs) + [now]
  {
    AllowedGoesTo(o, t, key, now);
    CappedKeepsTheClock(o, WithHit(o, t, key, now), key, now - o.windowMs);
    WithHitHolds(o, t, key, now);
    DueExactly(o, t, key, now);
    SeenExactly(o, t, key, now);
    AdmissionKeepsTheHit(o, t, key, now, CheckFn(o, t, key, now).0);
  }

  lemma CappedSpares(o: Options, t: Tracked, key: Key, now: Instant, hit: Tracked, u: Tracked, due: bool)
    requires hit == WithHit(o, t, key, now) && u == Capped(o, hit, key, now - o.windowMs)
    requires due == (now - t.lastEviction >= o.windowMs)
    ensures |hit.order| <= o.maxKeys ==> OthersSwept(t, u, key, now - o.windowMs, due)
    ensures |hit.order| > o.maxKeys ==> forall k :: k in u.hits && k != key ==>
              Live(t, k, now - o.windowMs) && u.hits[k] == t.hits[k]
  {
    DueExactly(o, t, key, now);
    HitTouchesOneKey(o, t, key, now);
    OthersAfterTheCap(o, t, key, now - o.windowMs, Due(o, t, now), hit, u, due);
  }

  /** Another key goes only by a sweep that is due or when the hit brings the map over the cap. */
  lemma AdmissionSpares(o: Options, t: Tracked, key: Key, now: Instant, u: Tracked, due: bool)
    requires o.Valid() && t.Valid() && CheckFn(o, t, key, now).1.allowed
    requires u == CheckFn(o, t, key, now).0 && due == (now - t.lastEviction >= o.windowMs)
    ensures Crowd(o, t, key, now) <= o.maxKeys ==> OthersSwept(t, u, key, now - o.windowMs, due)
    ensures Crowd(o, t, key, now) > o.maxKeys ==> forall k :: k in u.hits && k != key ==>
              Live(t, k, now - o.windowMs) && u.hits[k] == t.hits[k]
  {
    AllowedGoesTo(o, t, key, now);
    CrowdIsOrder(o, t, key, now);
    CappedSpares(o, t, key, now, WithHit(o, t, key, now), u, due);
  }

  // ---------------------------------------------------------------------------
  // The answer of any check of any run
  // ---------------------------------------------------------------------------

  /** The run before `key`'s hits start to count: nothing yet, or up to its last reset. */
  predicate StartsOver(before: seq<Call>, key: Key) {
    before == [] || Touches(before[|before| - 1], key)
  }

  lemma {:induction false} NothingCountedAfterReset(o: Options, ledger: Ledger, before: seq<Call>, key: Key)
    requires o.Valid() && StartsOver(before, key) && (before == [] ==> Get(ledger, key) == [])
    ensures Get(FinalLedger(o, ledger, before), key) == []
    decreases |before|
  {
    if before != [] {
      NothingCountedAfterReset(o, LedgerNext(o, ledger, before[0]), before[1..], key);
    }
  }

  lemma CountedExactly(o: Options, times: seq<Instant>, key: Key, now: Instant)
    requires o.Valid() && Past(times, now)
    ensures var a := PlainAnswer(o, map[key := times], key, now);
            var used := set i: nat | i < |times| && times[i] > now - o.windowMs;
            && (|used| < o.limit ==> a == Answer(true, o.limit - |used| - 1, 0))
            && (|used| >= o.limit ==> !a.allowed && a.remaining == 0 && a.retryAfterMs >= 1)
            && (|used| >= o.limit ==> forall i :: i in used && (forall j :: j in used ==> i <= j)
                                        ==> now + a.retryAfterMs == times[i] + o.windowMs)
  {
    AnswerCounts(o, times, now, Later(times, now - o.windowMs));
  }

  lemma AnswerFromHere(o: Options, t: Tracked, ledger: Ledger, run: seq<Call>, key: Key, prev: Instant, now: Instant)
    requires o.Valid() && Tracks(o, t, ledger, key, prev) && Get(ledger, key) == []
    requires Monotone(run, prev) && NeverForces(o, t, run) && NotReset(run, key) && EndClock(run, prev) <= now
    ensures var times := AllowedTimes(run, Answers(o, t, run), key);
            Past(times, now) && CheckFn(o, Final(o, t, run), key, now).1 == PlainAnswer(o, map[key := times], key, now)
  {
    var times, last := AllowedTimes(run, Answers(o, t, run), key), FinalLedger(o, ledger, run);
    RunRefines(o, t, ledger, run, prev);
    LedgerIsAllowedTimes(o, ledger, run, key);
    assert Get(last, key) == [] + times == times;
    LedgerStaysSpaced(o, ledger, run, key, prev);
    PastLater(times, EndClock(run, prev), now);
    RunKeepsRefining(o, t, ledger, run, prev);
    AgreesLater(o, Final(o, t, run).hits, last, key, EndClock(run, prev), now);
    AnswerIsPlain(o, Final(o, t, run), last, key, now);
    PlainAnswerFollowsTheHits(o, last, map[key := times], key, now);
  }

  /**
   * What any check of any such run answers, by the checks allowed since the key was last
   * reset: it is allowed if and only if fewer than `limit` of them are later than
   * `now - windowMs`, what remains is the rest of the limit, and a rejected caller waits
   * until the first of them leaves the window.
   */
  lemma AnswerExactly(o: Options, start: Instant, before: seq<Call>, t: Tracked, run: seq<Call>, key: Key, now: Instant)
    requires o.Valid() && Monotone(before, start) && NeverForces(o, Fresh(start), before) && StartsOver(before, key)
    requires t == Final(o, Fresh(start), before) && Monotone(run, EndClock(before, start)) && NeverForces(o, t, run)
    requires NotReset(run, key) && EndClock(run, EndClock(before, start)) <= now
    ensures var (a, times) := (CheckFn(o, Final(o, t, run), key, now).1, AllowedTimes(run, Answers(o, t, run), key));
            var used := set i: nat | i < |times| && times[i] > now - o.windowMs;
            && (|used| < o.limit ==> a == Answer(true, o.limit - |used| - 1, 0))
            && (|used| >= o.limit ==> !a.allowed && a.remaining == 0 && a.retryAfterMs >= 1)
            && (|used| >= o.limit ==> forall i :: i in used && (forall j :: j in used ==> i <= j)
                                        ==> now + a.retryAfterMs == times[i] + o.windowMs)
  {
    var ledger := FinalLedger(o, map[], before);
    RunTracks(o, start, before, key);
    NothingCountedAfterReset(o, map[], before, key);
    AnswerFromHere(o, t, ledger, run, key, EndClock(before, start), now);
    CountedExactly(o, AllowedTimes(run, Answers(o, t, run), key), key, now);
  }

  // ---------------------------------------------------------------------------
  // A reset and the size guard, by the order of the keys
  // ---------------------------------------------------------------------------

  /** A reset takes one key out of the order and leaves the others as they stood. */
  lemma {:induction false} WithoutExactly(a: seq<Key>, key: Key, b: seq<Key>)
    requires key !in a && key !in b
    ensures Without(a + [key] + b, key) == a + b == Without(a + b, key)
  {
    if a == [] {
      WithoutAbsent(b, key);
      assert ([] + [key] + b)[1..] == b && [] + b == b;
    } else {
      assert (a + [key] + b)[1..] == a[1..] + [key] + b;
      assert (a + b)[1..] == a[1..] + b;
      WithoutExactly(a[1..], key, b);
    }
  }

  lemma {:induction false} WithoutAbsent(order: seq<Key>, key: Key)
    requires key !in order
    ensures Without(order, key) == order
  {
    if order != [] {
      WithoutAbsent(order[1..], key);
    }
  }

  /** The longest-tracked keys go, the spared one keeping its place before those that stay. */
  lemma {:induction false} ShedExactly(order: seq<Key>, spare: Key, e: nat)
    requires Distinct(order) && e < |order|
    ensures spare !in order[..e] ==> Shed(order, spare, e) == order[e..]
    ensures spare in order[..e] ==> Shed(order, spare, e) == [spare] + order[e + 1..]
  {
    if e > 0 {
      assert order[..e] == [order[0]] + order[1..][..e - 1];
      if order[0] == spare {
        ShedSpareless(order[1..], spare, e);
      } else {
        ShedExactly(order[1..], spare, e - 1);
      }
    }
  }

  lemma {:induction false} ShedSpareless(order: seq<Key>, spare: Key, e: nat)
    requires spare !in order && e <= |order|
    ensures Shed(order, spare, e) == order[e..]
  {
    if e > 0 {
      ShedSpareless(order[1..], spare, e - 1);
    }
  }
}

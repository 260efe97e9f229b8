/** How long a rejected caller waits, and how large the limiter's map can grow. */
module RateLimiterBounds {
  import opened Common
  import opened RateLimiter
  import opened RateLimiterTheorems

  // ---------------------------------------------------------------------------
  // A rejection says exactly how long to wait
  // ---------------------------------------------------------------------------

  /** No check of `key` in the run is allowed. */
  predicate AllRejected(run: seq<Call>, answers: seq<Answer>, key: Key) {
    AllowedTimes(run, answers, key) == []
  }

  /** Every check in the run reads a clock earlier than `until`. */
  predicate Before(run: seq<Call>, until: Instant) {
    forall i :: 0 <= i < |run| && run[i].Check? ==> run[i].now < until
  }

  lemma {:induction false} AfterShrinks(ts: seq<Instant>, now: Instant, c: Instant, d: Instant, limit: nat)
    requires Past(ts, now) && 1 <= limit <= |After(ts, c)|
    requires d < After(ts, c)[|After(ts, c)| - limit]
    ensures |After(ts, d)| >= limit
  {
    var front, last := ts[..|ts| - 1], ts[|ts| - 1];
    var recent := After(ts, c);
    if last <= c {
      PastHasNothingAfter(front, last, c);
    } else {
      assert recent == After(front, c) + [last];
      RecentIsPast(ts, c, now);
      PastBounds(recent, last, |recent| - limit);
      if limit > 1 {
        assert recent[|recent| - limit] == After(front, c)[|After(front, c)| - (limit - 1)];
        AfterShrinks(front, last, c, d, limit - 1);
      }
    }
  }

  lemma OldestAges(ts: seq<Instant>)
    requires ts != []
    ensures |After(ts, ts[0])| < |ts|
  {
    var rest := ts[1..];
    assert ts == [ts[0]] + rest;
    AfterSplits([ts[0]], rest, ts[0]);
    AfterIsShorter(rest, ts[0]);
  }

  lemma {:induction false} AfterSplits(a: seq<Instant>, b: seq<Instant>, c: Instant)
    ensures After(a + b, c) == After(a, c) + After(b, c)
  {
    if b == [] {
      assert a + b == a;
    } else {
      AfterSplits(a, b[..|b| - 1], c);
      assert (a + b)[..|a + b| - 1] == a + b[..|b| - 1];
    }
  }

  lemma {:induction false} RunKeepsRefining(o: Options, t: Tracked, ledger: Ledger, run: seq<Call>, prev: Instant)
    requires o.Valid() && t.Valid() && Refines(o, t.hits, ledger, prev)
    requires Monotone(run, prev) && NeverForces(o, t, run)
    ensures Final(o, t, run).Valid()
    ensures Refines(o, Final(o, t, run).hits, FinalLedger(o, ledger, run), EndClock(run, prev))
    decreases |run|
  {
    if run != [] {
      NextRefines(o, t, ledger, run[0], prev);
      RunKeepsRefining(o, Next(o, t, run[0]), LedgerNext(o, ledger, run[0]), run[1..], Clock(run[0], prev));
    }
  }

  /** The moment the oldest of the `limit` newest hits leaves the window. */
  function Reopens(o: Options, ts: seq<Instant>, now: Instant): Instant
    requires o.Valid() && |After(ts, now - o.windowMs)| >= o.limit
  {
    var recent := After(ts, now - o.windowMs);
    recent[|recent| - o.limit] + o.windowMs
  }

  lemma BeforeLater(run: seq<Call>, until: Instant)
    requires run != [] && Before(run, until)
    ensures Before(run[1..], until)
  {
    assert forall i :: 0 <= i < |run[1..]| ==> run[1..][i] == run[i + 1];
  }

  lemma {:induction false} RejectedUntilReopens(o: Options, ledger: Ledger, ts: seq<Instant>, run: seq<Call>, key: Key,
                                                now: Instant, prev: Instant)
    requires o.Valid() && Past(ts, now) && |After(ts, now - o.windowMs)| >= o.limit
    requires Get(ledger, key) == ts && now <= prev && Monotone(run, prev)
    requires NotReset(run, key) && Before(run, Reopens(o, ts, now))
    ensures AllRejected(run, PlainAnswers(o, ledger, run), key)
    ensures Get(FinalLedger(o, ledger, run), key) == ts
    decreases |run|
  {
    if run != [] {
      if run[0].Check? && run[0].key == key {
        AfterShrinks(ts, now, now - o.windowMs, run[0].now - o.windowMs, o.limit);
      }
      NotResetLater(run, key);
      BeforeLater(run, Reopens(o, ts, now));
      AllowedTimesStep(o, ledger, run, key);
      RejectedUntilReopens(o, LedgerNext(o, ledger, run[0]), ts, run[1..], key, now, Clock(run[0], prev));
    }
  }

  lemma FewerAfterTheOldest(ts: seq<Instant>, c: Instant)
    requires After(ts, c) != []
    ensures After(ts, c)[0] > c && |After(ts, After(ts, c)[0])| < |After(ts, c)|
  {
    var recent := After(ts, c);
    AfterIsShorter(ts, c);
    assert recent[0] > c;
    AfterAfter(ts, c, recent[0]);
    OldestAges(recent);
  }

  /** Exactly `limit` hits are counted against a rejected check, so the oldest one decides. */
  lemma OldestDecides(o: Options, ts: seq<Instant>, now: Instant, recent: seq<Instant>)
    requires o.Valid() && Past(ts, now) && Spaced(o, ts)
    requires recent == After(ts, now - o.windowMs) && |recent| >= o.limit
    ensures Reopens(o, ts, now) == recent[0] + o.windowMs > now
    ensures |After(ts, recent[0])| < o.limit
  {
    FewAreCounted(o, ts, now);
    FewerAfterTheOldest(ts, now - o.windowMs);
  }

  lemma AllowedOnceReopened(o: Options, ledger: Ledger, key: Key, now: Instant)
    requires o.Valid() && LedgerFor(o, ledger, key, now)
    requires !PlainAnswer(o, ledger, key, now).allowed
    ensures var a := PlainAnswer(o, ledger, key, now);
            && a.retryAfterMs >= 1
            && now + a.retryAfterMs == Reopens(o, Get(ledger, key), now)
            && PlainAnswer(o, ledger, key, now + a.retryAfterMs).allowed
  {
    OldestDecides(o, Get(ledger, key), now, Counted(o, ledger, key, now));
  }

  lemma PlainAnswerFollowsTheHits(o: Options, one: Ledger, two: Ledger, key: Key, now: Instant)
    requires o.Valid() && Get(one, key) == Get(two, key)
    ensures PlainAnswer(o, one, key, now) == PlainAnswer(o, two, key, now)
  {
  }

  lemma {:induction false} EndsInTime(run: seq<Call>, prev: Instant, until: Instant)
    requires Before(run, until) && prev <= until
    ensures EndClock(run, prev) <= until
    decreases |run|
  {
    if run != [] {
      BeforeLater(run, until);
      EndsInTime(run[1..], Clock(run[0], prev), until);
    }
  }

  /** The limiter has lost nothing that counts, and the key's hits are spaced as they should be. */
  ghost predicate Tracks(o: Options, t: Tracked, ledger: Ledger, key: Key, now: Instant)
    requires o.Valid()
  {
    t.Valid() && Refines(o, t.hits, ledger, now) && LedgerFor(o, ledger, key, now)
  }

  predicate Waits(o: Options, t: Tracked, key: Key, now: Instant, until: Instant, wait: seq<Call>)
    requires o.Valid()
  {
    NotReset(wait, key) && Monotone(wait, now) && NeverForces(o, t, wait) && Before(wait, until)
  }

  lemma RejectedWhileWaiting(o: Options, t: Tracked, ledger: Ledger, key: Key, now: Instant, until: Instant,
                             wait: seq<Call>)
    requires o.Valid() && Tracks(o, t, ledger, key, now) && !PlainAnswer(o, ledger, key, now).allowed
    requires until == now + PlainAnswer(o, ledger, key, now).retryAfterMs && Waits(o, t, key, now, until, wait)
    ensures AllRejected(wait, Answers(o, t, wait), key)
  {
    AllowedOnceReopened(o, ledger, key, now);
    RunRefines(o, t, ledger, wait, now);
    RejectedUntilReopens(o, ledger, Get(ledger, key), wait, key, now, now);
  }

  lemma AllowedAfterWaiting(o: Options, t: Tracked, ledger: Ledger, key: Key, now: Instant, until: Instant,
                            wait: seq<Call>)
    requires o.Valid() && Tracks(o, t, ledger, key, now) && !PlainAnswer(o, ledger, key, now).allowed
    requires until == now + PlainAnswer(o, ledger, key, now).retryAfterMs && Waits(o, t, key, now, until, wait)
    ensures CheckFn(o, Final(o, t, wait), key, until).1.allowed
  {
    AllowedOnceReopened(o, ledger, key, now);
    RejectedUntilReopens(o, ledger, Get(ledger, key), wait, key, now, now);
    PlainAnswerFollowsTheHits(o, ledger, FinalLedger(o, ledger, wait), key, until);
    RunKeepsRefining(o, t, ledger, wait, now);
    EndsInTime(wait, now, until);
    AgreesLater(o, Final(o, t, wait).hits, FinalLedger(o, ledger, wait), key, EndClock(wait, now), until);
    AnswerIsPlain(o, Final(o, t, wait), FinalLedger(o, ledger, wait), key, until);
  }

  /** Every state a run reaches tracks the ledger of that run. */
  lemma RunTracks(o: Options, start: Instant, before: seq<Call>, key: Key)
    requires o.Valid() && Monotone(before, start) && NeverForces(o, Fresh(start), before)
    ensures Tracks(o, Final(o, Fresh(start), before), FinalLedger(o, map[], before), key, EndClock(before, start))
  {
    RunKeepsRefining(o, Fresh(start), map[], before, start);
    LedgerStaysSpaced(o, map[], before, key, start);
  }

  lemma RejectionTracks(o: Options, t: Tracked, ledger: Ledger, key: Key, prev: Instant, now: Instant,
                        after: Tracked, a: Answer)
    requires o.Valid() && Tracks(o, t, ledger, key, prev) && prev <= now
    requires CheckFn(o, t, key, now) == (after, a) && !a.allowed
    ensures a == PlainAnswer(o, ledger, key, now)
    ensures Tracks(o, after, ledger, key, now)
  {
    PastLater(Get(ledger, key), prev, now);
    CheckRefines(o, t, ledger, key, prev, now);
    CheckKeepsValid(o, t, key, now);
  }

  lemma RetryIsExactFrom(o: Options, t: Tracked, ledger: Ledger, key: Key, now: Instant, a: Answer, wait: seq<Call>)
    requires o.Valid() && Tracks(o, t, ledger, key, now) && a == PlainAnswer(o, ledger, key, now) && !a.allowed
    requires Waits(o, t, key, now, now + a.retryAfterMs, wait)
    ensures AllRejected(wait, Answers(o, t, wait), key)
    ensures CheckFn(o, Final(o, t, wait), key, now + a.retryAfterMs).1.allowed
  {
    RejectedWhileWaiting(o, t, ledger, key, now, now + a.retryAfterMs, wait);
    AllowedAfterWaiting(o, t, ledger, key, now, now + a.retryAfterMs, wait);
  }

  /**
   * After a rejection, whatever other checks come in between, every check of the key before
   * the promised delay is rejected and one made at that moment is allowed.
   */
  lemma RetryAfterIsExact(o: Options, start: Instant, before: seq<Call>, t: Tracked, key: Key, now: Instant,
                          after: Tracked, a: Answer, wait: seq<Call>)
    requires o.Valid() && Monotone(before, start) && NeverForces(o, Fresh(start), before)
    requires t == Final(o, Fresh(start), before) && EndClock(before, start) <= now
    requires CheckFn(o, t, key, now) == (after, a) && !a.allowed
    requires Waits(o, after, key, now, now + a.retryAfterMs, wait)
    ensures AllRejected(wait, Answers(o, after, wait), key)
    ensures CheckFn(o, Final(o, after, wait), key, now + a.retryAfterMs).1.allowed
  {
    var ledger := FinalLedger(o, map[], before);
    RunTracks(o, start, before, key);
    RejectionTracks(o, t, ledger, key, EndClock(before, start), now, after, a);
    RetryIsExactFrom(o, after, ledger, key, now, a, wait);
  }

  // ---------------------------------------------------------------------------
  // What remains
  // ---------------------------------------------------------------------------

  lemma CappedKeepsTheHit(o: Options, t: Tracked, key: Key, cutoff: Instant)
    requires t.Valid() && key in t.hits && !Stale(t.hits[key], cutoff)
    ensures Get(Capped(o, t, key, cutoff).hits, key) == t.hits[key]
  {
    var swept := Sweep(t, cutoff);
    FresherKeeps(t.hits, t.order, cutoff);
    ShedKeeps(swept.order, key, |swept.order| - o.maxKeys);
  }

  lemma CappedKeepsTheClock(o: Options, t: Tracked, key: Key, cutoff: Instant)
    ensures Capped(o, t, key, cutoff).lastEviction == t.lastEviction
  {
  }

  lemma WithHitHolds(o: Options, t: Tracked, key: Key, now: Instant)
    requires o.Valid()
    ensures key in WithHit(o, t, key, now).hits
    ensures WithHit(o, t, key, now).hits[key] == Recent(o, t, key, now) + [now]
    ensures !Stale(WithHit(o, t, key, now).hits[key], now - o.windowMs)
    ensures WithHit(o, t, key, now).lastEviction == Due(o, t, now).lastEviction
  {
  }

  lemma CappedKeeps(o: Options, hit: Tracked, key: Key, cutoff: Instant, u: Tracked,
                                      ts: seq<Instant>, last: Instant)
    requires hit.Valid() && key in hit.hits && hit.hits[key] == ts && !Stale(ts, cutoff)
    requires hit.lastEviction == last && u == Capped(o, hit, key, cutoff)
    ensures Get(u.hits, key) == ts && u.lastEviction == last
  {
    CappedKeepsTheHit(o, hit, key, cutoff);
    CappedKeepsTheClock(o, hit, key, cutoff);
  }

  /** A second check at the same moment never sweeps. */
  lemma SweepsOnce(o: Options, t: Tracked, now: Instant, u: Tracked)
    requires o.Valid() && u.lastEviction == Due(o, t, now).lastEviction
    ensures Due(o, u, now) == u
  {
  }

  lemma HitStaysRecent(recent: seq<Instant>, now: Instant, c: Instant)
    requires After(recent, c) == recent && c < now
    ensures After(recent + [now], c) == recent + [now]
  {
    AfterAppends(recent, now, c);
  }

  lemma AllowedGoesTo(o: Options, t: Tracked, key: Key, now: Instant)
    requires o.Valid() && CheckFn(o, t, key, now).1.allowed
    ensures |Recent(o, t, key, now)| < o.limit
    ensures CheckFn(o, t, key, now).0 == Capped(o, WithHit(o, t, key, now), key, now - o.windowMs)
    ensures CheckFn(o, t, key, now).1.remaining == o.limit - |Recent(o, t, key, now)| - 1
  {
  }

  lemma AnswerFollowsRecent(o: Options, u: Tracked, key: Key, now: Instant, recent: seq<Instant>)
    requires o.Valid() && Recent(o, u, key, now) == recent
    ensures CheckFn(o, u, key, now).1.allowed <==> |recent| < o.limit
    ensures CheckFn(o, u, key, now).1.allowed ==> CheckFn(o, u, key, now).1.remaining == o.limit - |recent| - 1
  {
  }

  lemma RecentIsStable(o: Options, t: Tracked, key: Key, now: Instant)
    ensures After(Recent(o, t, key, now), now - o.windowMs) == Recent(o, t, key, now)
  {
    AfterAfter(Get(Due(o, t, now).hits, key), now - o.windowMs, now - o.windowMs);
  }

  lemma FromHit(o: Options, t: Tracked, key: Key, now: Instant, u: Tracked, recent: seq<Instant>)
    requires o.Valid() && u.lastEviction == Due(o, t, now).lastEviction
    requires Get(u.hits, key) == recent + [now] && After(recent, now - o.windowMs) == recent
    ensures Recent(o, u, key, now) == recent + [now]
  {
    SweepsOnce(o, t, now, u);
    HitStaysRecent(recent, now, now - o.windowMs);
  }

  lemma RecentAgain(o: Options, t: Tracked, key: Key, now: Instant, u: Tracked, recent: seq<Instant>)
    requires o.Valid() && t.Valid() && u == Capped(o, WithHit(o, t, key, now), key, now - o.windowMs)
    requires recent == Recent(o, t, key, now)
    ensures Recent(o, u, key, now) == recent + [now]
  {
    WithHitHolds(o, t, key, now);
    WithHitIsValid(o, t, key, now);
    CappedKeeps(o, WithHit(o, t, key, now), key, now - o.windowMs, u, recent + [now], Due(o, t, now).lastEviction);
    RecentIsStable(o, t, key, now);
    FromHit(o, t, key, now, u, recent);
  }

  /**
   * The promised remainder is exact, in any state at all: checking again at the same moment
   * is allowed if and only if something remained, and then one less remains.
   */
  lemma RemainingCountsDown(o: Options, t: Tracked, key: Key, now: Instant, u: Tracked, again: Answer)
    requires o.Valid() && t.Valid() && CheckFn(o, t, key, now).1.allowed
    requires u == CheckFn(o, t, key, now).0 && again == CheckFn(o, u, key, now).1
    ensures again.allowed <==> CheckFn(o, t, key, now).1.remaining > 0
    ensures again.allowed ==> again.remaining == CheckFn(o, t, key, now).1.remaining - 1
  {
    AllowedGoesTo(o, t, key, now);
    RecentAgain(o, t, key, now, u, Recent(o, t, key, now));
    AnswerFollowsRecent(o, u, key, now, Recent(o, t, key, now) + [now]);
  }

  // ---------------------------------------------------------------------------
  // The map stays small
  // ---------------------------------------------------------------------------

  lemma {:induction false} FresherIsShorter(hits: Hits, order: seq<Key>, cutoff: Instant)
    ensures |Fresher(hits, order, cutoff)| <= |order|
  {
    if order != [] {
      FresherIsShorter(hits, order[1..], cutoff);
    }
  }

  lemma CappedIsBounded(o: Options, t: Tracked, key: Key, cutoff: Instant)
    requires t.Valid() && key in t.hits && !Stale(t.hits[key], cutoff)
    ensures |Capped(o, t, key, cutoff).order| <= Max(1, o.maxKeys) && key in Capped(o, t, key, cutoff).order
  {
    var swept := Sweep(t, cutoff);
    FresherKeeps(t.hits, t.order, cutoff);
    ShedKeeps(swept.order, key, |swept.order| - o.maxKeys);
  }

  lemma AllowedCheckIsBounded(o: Options, t: Tracked, key: Key, now: Instant)
    requires o.Valid() && t.Valid()
    ensures var c := Capped(o, WithHit(o, t, key, now), key, now - o.windowMs);
            |c.order| <= Max(1, o.maxKeys) && key in c.order
  {
    WithHitIsValid(o, t, key, now);
    CappedIsBounded(o, WithHit(o, t, key, now), key, now - o.windowMs);
  }

  /** A key is only ever rejected while it is tracked, so a rejection adds no key. */
  lemma RejectedCheckIsBounded(o: Options, t: Tracked, key: Key, now: Instant)
    requires o.Valid() && t.Valid() && |Recent(o, t, key, now)| >= o.limit
    ensures key in Due(o, t, now).hits && |Due(o, t, now).order| <= |t.order|
  {
    FresherIsShorter(t.hits, t.order, now - o.windowMs);
  }

  lemma CheckIsBounded(o: Options, t: Tracked, key: Key, now: Instant)
    requires o.Valid() && t.Valid() && |t.order| <= Max(1, o.maxKeys)
    ensures |CheckFn(o, t, key, now).0.order| <= Max(1, o.maxKeys)
    ensures key in CheckFn(o, t, key, now).0.order
  {
    if |Recent(o, t, key, now)| >= o.limit {
      RejectedCheckIsBounded(o, t, key, now);
      DueKeepsValid(o, t, now);
    } else {
      AllowedCheckIsBounded(o, t, key, now);
    }
  }

  lemma {:induction false} WithoutIsShorter(order: seq<Key>, key: Key)
    ensures |Without(order, key)| <= |order|
  {
    if order != [] {
      WithoutIsShorter(order[1..], key);
    }
  }

  lemma {:induction false} RunIsBounded(o: Options, t: Tracked, run: seq<Call>)
    requires o.Valid() && t.Valid() && |t.order| <= Max(1, o.maxKeys)
    ensures Final(o, t, run).Valid() && |Final(o, t, run).order| <= Max(1, o.maxKeys)
    decreases |run|
  {
    if run != [] {
      match run[0] {
        case Check(key, now) =>
          CheckKeepsValid(o, t, key, now);
          CheckIsBounded(o, t, key, now);
        case Reset(which) =>
          ResetKeepsValid(t, which);
          if which.Some? {
            WithoutIsShorter(t.order, which.value);
          }
      }
      RunIsBounded(o, Next(o, t, run[0]), run[1..]);
    }
  }

  lemma {:induction false} FinalAppends(o: Options, t: Tracked, run: seq<Call>, c: Call)
    requires o.Valid()
    ensures Final(o, t, run + [c]) == Next(o, Final(o, t, run), c)
    decreases |run|
  {
    if run == [] {
      assert [] + [c] == [c];
      assert Final(o, t, [c]) == Final(o, Next(o, t, c), [c][1..]);
    } else {
      assert (run + [c])[1..] == run[1..] + [c];
      FinalAppends(o, Next(o, t, run[0]), run[1..], c);
    }
  }

  /** Whatever the run and the clock did, a check leaves at most the cap, and its own key among them. */
  lemma SizeIsCappedAndTheCheckedKeySurvives(o: Options, start: Instant, run: seq<Call>, key: Key, now: Instant)
    requires o.Valid()
    ensures var t := Final(o, Fresh(start), run + [Check(key, now)]);
            |t.hits| <= Max(1, o.maxKeys) && key in t.hits
  {
    var before := Final(o, Fresh(start), run);
    RunIsBounded(o, Fresh(start), run);
    FinalAppends(o, Fresh(start), run, Check(key, now));
    CheckIsBounded(o, before, key, now);
    CheckKeepsValid(o, before, key, now);
    var t := CheckFn(o, before, key, now).0;
    DistinctHasAsManyKeys(t.order, t.hits.Keys);
  }

  /** The size guard drops nobody before a longer-tracked key other than the one checked. */
  lemma {:induction false} ShedDropsTheOldest(order: seq<Key>, spare: Key, excess: int, i: nat, j: nat)
    requires Distinct(order) && i < j < |order| && order[i] != spare
    requires order[j] !in Shed(order, spare, excess)
    ensures order[i] !in Shed(order, spare, excess)
  {
    if i == 0 {
      ShedKeeps(order[1..], spare, excess - 1);
      assert order[0] !in order[1..];
    } else if order[0] == spare {
      ShedDropsTheOldest(order[1..], spare, excess, i - 1, j - 1);
      assert order[i] == order[1..][i - 1];
    } else {
      ShedDropsTheOldest(order[1..], spare, excess - 1, i - 1, j - 1);
      assert order[i] == order[1..][i - 1];
    }
  }

  predicate KeysAmong(run: seq<Call>, keys: set<Key>) {
    forall i :: 0 <= i < |run| && run[i].Check? ==> run[i].key in keys
  }

  predicate TrackedAmong(t: Tracked, keys: set<Key>) {
    forall k :: k in t.order ==> k in keys
  }

  lemma SweepStaysAmong(t: Tracked, keys: set<Key>, cutoff: Instant)
    requires t.Valid() && TrackedAmong(t, keys)
    ensures TrackedAmong(Sweep(t, cutoff), keys)
  {
    FresherKeeps(t.hits, t.order, cutoff);
  }

  lemma WithHitStaysAmong(o: Options, t: Tracked, key: Key, now: Instant, keys: set<Key>)
    requires t.Valid() && TrackedAmong(t, keys) && key in keys
    ensures TrackedAmong(WithHit(o, t, key, now), keys)
    ensures |Sweep(WithHit(o, t, key, now), now - o.windowMs).order| <= |keys|
  {
    SweepStaysAmong(t, keys, now - o.windowMs);
    WithHitIsValid(o, t, key, now);
    SweepStaysAmong(WithHit(o, t, key, now), keys, now - o.windowMs);
    SweepKeepsValid(WithHit(o, t, key, now), now - o.windowMs);
    DistinctHasAsManyKeys(Sweep(WithHit(o, t, key, now), now - o.windowMs).order, keys);
  }

  lemma RejectionStaysAmong(o: Options, t: Tracked, key: Key, now: Instant, keys: set<Key>)
    requires o.Valid() && t.Valid() && TrackedAmong(t, keys) && |Recent(o, t, key, now)| >= o.limit
    ensures TrackedAmong(CheckFn(o, t, key, now).0, keys)
  {
    RejectedCheckIsBounded(o, t, key, now);
    SweepStaysAmong(t, keys, now - o.windowMs);
  }

  lemma AdmissionStaysAmong(o: Options, t: Tracked, key: Key, now: Instant, keys: set<Key>)
    requires o.Valid() && t.Valid() && TrackedAmong(t, keys) && key in keys && |keys| <= o.maxKeys
    requires |Recent(o, t, key, now)| < o.limit
    ensures TrackedAmong(CheckFn(o, t, key, now).0, keys) && !Forces(o, t, key, now)
  {
    WithHitStaysAmong(o, t, key, now, keys);
    AllowedCheckKeeps(o, t, key, now);
    WithHitIsValid(o, t, key, now);
    SweepStaysAmong(WithHit(o, t, key, now), keys, now - o.windowMs);
  }

  lemma CheckStaysAmong(o: Options, t: Tracked, key: Key, now: Instant, keys: set<Key>)
    requires o.Valid() && t.Valid() && TrackedAmong(t, keys) && key in keys && |keys| <= o.maxKeys
    ensures TrackedAmong(CheckFn(o, t, key, now).0, keys) && !Forces(o, t, key, now)
    ensures CheckFn(o, t, key, now).0.Valid()
  {
    CheckKeepsValid(o, t, key, now);
    if |Recent(o, t, key, now)| >= o.limit {
      RejectionStaysAmong(o, t, key, now, keys);
    } else {
      AdmissionStaysAmong(o, t, key, now, keys);
    }
  }

  lemma NextStaysAmong(o: Options, t: Tracked, c: Call, keys: set<Key>)
    requires o.Valid() && t.Valid() && TrackedAmong(t, keys) && (c.Check? ==> c.key in keys) && |keys| <= o.maxKeys
    ensures TrackedAmong(Next(o, t, c), keys) && Next(o, t, c).Valid()
    ensures c.Check? ==> !Forces(o, t, c.key, c.now)
  {
    match c
    case Check(key, now) =>
      CheckStaysAmong(o, t, key, now, keys);
    case Reset(which) =>
      ResetKeepsValid(t, which);
      if which.Some? {
        WithoutKeeps(t.order, which.value);
      }
  }

  /** Checks of no more keys than may be tracked never force anything out. */
  lemma {:induction false} FewKeysNeverForce(o: Options, t: Tracked, run: seq<Call>, keys: set<Key>)
    requires o.Valid() && t.Valid() && TrackedAmong(t, keys) && KeysAmong(run, keys) && |keys| <= o.maxKeys
    ensures NeverForces(o, t, run)
    decreases |run|
  {
    if run != [] {
      NextStaysAmong(o, t, run[0], keys);
      assert KeysAmong(run[1..], keys) by {
        assert forall i :: 0 <= i < |run[1..]| ==> run[1..][i] == run[i + 1];
      }
      FewKeysNeverForce(o, Next(o, t, run[0]), run[1..], keys);
    }
  }
}

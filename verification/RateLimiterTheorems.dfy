/** Over whole runs, the compacting limiter answers as if it had kept every allowed hit. */
module RateLimiterTheorems {
  import opened Common
  import opened RateLimiter

  // ---------------------------------------------------------------------------
  // The plain rule
  // ---------------------------------------------------------------------------

  /** Every allowed hit of every key since it was last reset. */
  type Ledger = Hits

  function Counted(o: Options, ledger: Ledger, key: Key, now: Instant): seq<Instant> {
    After(Get(ledger, key), now - o.windowMs)
  }

  function PlainAnswer(o: Options, ledger: Ledger, key: Key, now: Instant): Answer
    requires o.Valid()
  {
    var counted := Counted(o, ledger, key, now);
    if |counted| >= o.limit then Rejection(o, counted, now) else Answer(true, o.limit - (|counted| + 1), 0)
  }

  function PlainNext(o: Options, ledger: Ledger, key: Key, now: Instant): Ledger
    requires o.Valid()
  {
    if PlainAnswer(o, ledger, key, now).allowed then ledger[key := Get(ledger, key) + [now]] else ledger
  }

  function PlainReset(ledger: Ledger, key: Option<Key>): Ledger {
    match key
    case None => map[]
    case Some(k) => ledger - {k}
  }

  // ---------------------------------------------------------------------------
  // Runs
  // ---------------------------------------------------------------------------

  datatype Call = Check(key: Key, now: Instant) | Reset(which: Option<Key>)

  function Next(o: Options, t: Tracked, c: Call): Tracked
    requires o.Valid()
  {
    match c
    case Check(key, now) => CheckFn(o, t, key, now).0
    case Reset(which) => ResetFn(t, which)
  }

  function LedgerNext(o: Options, ledger: Ledger, c: Call): Ledger
    requires o.Valid()
  {
    match c
    case Check(key, now) => PlainNext(o, ledger, key, now)
    case Reset(which) => PlainReset(ledger, which)
  }

  /** The limiter after the run. */
  function Final(o: Options, t: Tracked, run: seq<Call>): Tracked
    requires o.Valid()
    decreases |run|
  {
    if run == [] then t else Final(o, Next(o, t, run[0]), run[1..])
  }

  function FinalLedger(o: Options, ledger: Ledger, run: seq<Call>): Ledger
    requires o.Valid()
    decreases |run|
  {
    if run == [] then ledger else FinalLedger(o, LedgerNext(o, ledger, run[0]), run[1..])
  }

  function Answers(o: Options, t: Tracked, run: seq<Call>): seq<Answer>
    requires o.Valid()
    decreases |run|
  {
    if run == [] then []
    else
      var rest := Answers(o, Next(o, t, run[0]), run[1..]);
      if run[0].Check? then [CheckFn(o, t, run[0].key, run[0].now).1] + rest else rest
  }

  function PlainAnswers(o: Options, ledger: Ledger, run: seq<Call>): seq<Answer>
    requires o.Valid()
    decreases |run|
  {
    if run == [] then []
    else
      var rest := PlainAnswers(o, LedgerNext(o, ledger, run[0]), run[1..]);
      if run[0].Check? then [PlainAnswer(o, ledger, run[0].key, run[0].now)] + rest else rest
  }

  function Clock(c: Call, prev: Instant): Instant {
    if c.Check? then c.now else prev
  }

  /** No check reads an earlier clock than the one before it. */
  predicate Monotone(run: seq<Call>, prev: Instant)
    decreases |run|
  {
    run == [] || (prev <= Clock(run[0], prev) && Monotone(run[1..], Clock(run[0], prev)))
  }

  /** The size guard finds more keys in use than it may track, and drops live ones. */
  predicate Forces(o: Options, t: Tracked, key: Key, now: Instant) {
    && |Recent(o, t, key, now)| < o.limit
    && |Sweep(WithHit(o, t, key, now), now - o.windowMs).order| > o.maxKeys
  }

  predicate NeverForces(o: Options, t: Tracked, run: seq<Call>)
    requires o.Valid()
    decreases |run|
  {
    run == []
    || ((run[0].Check? ==> !Forces(o, t, run[0].key, run[0].now)) && NeverForces(o, Next(o, t, run[0]), run[1..]))
  }

  // ---------------------------------------------------------------------------
  // The limiter refines the plain rule
  // ---------------------------------------------------------------------------

  /** Two lists from which no check at `now` or later can count different hits. */
  ghost predicate Same(ts: seq<Instant>, us: seq<Instant>, now: Instant, windowMs: int) {
    Past(ts, now) && Past(us, now) && After(ts, now - windowMs) == After(us, now - windowMs)
  }

  lemma SameLater(ts: seq<Instant>, us: seq<Instant>, prev: Instant, now: Instant, windowMs: int)
    requires Same(ts, us, prev, windowMs) && prev <= now
    ensures Same(ts, us, now, windowMs)
  {
    AfterAfter(ts, prev - windowMs, now - windowMs);
    AfterAfter(us, prev - windowMs, now - windowMs);
    PastLater(ts, prev, now);
    PastLater(us, prev, now);
  }

  /** Keeping only the recent hits loses nothing a later check could count. */
  lemma SameCompacted(ts: seq<Instant>, us: seq<Instant>, now: Instant, windowMs: int)
    requires Same(ts, us, now, windowMs)
    ensures Same(After(ts, now - windowMs), us, now, windowMs)
  {
    AfterAfter(ts, now - windowMs, now - windowMs);
    RecentIsPast(ts, now - windowMs, now);
  }

  lemma SameHit(ts: seq<Instant>, us: seq<Instant>, now: Instant, windowMs: int)
    requires Same(ts, us, now, windowMs)
    ensures Same(ts + [now], us + [now], now, windowMs)
  {
    AfterAppends(ts, now, now - windowMs);
    AfterAppends(us, now, now - windowMs);
    PastHit(ts, now, now);
    PastHit(us, now, now);
  }

  ghost predicate Agrees(o: Options, hits: Hits, ledger: Ledger, key: Key, now: Instant) {
    Same(Get(hits, key), Get(ledger, key), now, o.windowMs)
  }

  ghost predicate Refines(o: Options, hits: Hits, ledger: Ledger, now: Instant) {
    forall key :: Agrees(o, hits, ledger, key, now)
  }

  lemma SweepAgrees(o: Options, t: Tracked, ledger: Ledger, key: Key, now: Instant)
    requires Agrees(o, t.hits, ledger, key, now)
    ensures Agrees(o, Sweep(t, now - o.windowMs).hits, ledger, key, now)
  {
    if key in t.hits && Stale(t.hits[key], now - o.windowMs) {
      StaleHasNothingAfter(t.hits[key], now - o.windowMs, now);
    }
  }

  lemma DueAgrees(o: Options, t: Tracked, ledger: Ledger, key: Key, now: Instant)
    requires Agrees(o, t.hits, ledger, key, now)
    ensures Agrees(o, Due(o, t, now).hits, ledger, key, now)
  {
    SweepAgrees(o, t, ledger, key, now);
  }

  lemma RecentIsCounted(o: Options, t: Tracked, ledger: Ledger, key: Key, now: Instant)
    requires Agrees(o, t.hits, ledger, key, now)
    ensures Recent(o, t, key, now) == Counted(o, ledger, key, now)
  {
    DueAgrees(o, t, ledger, key, now);
  }

  /** The size guard, when it drops nothing live, is a sweep at most. */
  lemma UnforcedIsSweep(o: Options, t: Tracked, key: Key, cutoff: Instant)
    requires t.Valid() && |Sweep(t, cutoff).order| <= o.maxKeys
    ensures Capped(o, t, key, cutoff) == t || Capped(o, t, key, cutoff) == Sweep(t, cutoff)
  {
    SweepKeepsValid(t, cutoff);
    assert Only(Sweep(t, cutoff).hits, Sweep(t, cutoff).order) == Sweep(t, cutoff).hits;
  }

  lemma SweptOrNotAgrees(o: Options, t: Tracked, hits: Hits, ledger: Ledger, key: Key, now: Instant)
    requires hits == t.hits || hits == Sweep(t, now - o.windowMs).hits
    requires Agrees(o, t.hits, ledger, key, now)
    ensures Agrees(o, hits, ledger, key, now)
  {
    SweepAgrees(o, t, ledger, key, now);
  }

  lemma PutAgrees(o: Options, hits: Hits, ledger: Ledger, key: Key, k: Key, ts: seq<Instant>, now: Instant)
    requires Agrees(o, hits, ledger, k, now) && Same(ts, Get(ledger, key), now, o.windowMs)
    ensures Agrees(o, hits[key := ts], ledger, k, now)
  {
    assert Get(hits[key := ts], k) == if k == key then ts else Get(hits, k);
  }

  lemma PutBothAgrees(o: Options, hits: Hits, ledger: Ledger, key: Key, k: Key, ts: seq<Instant>, us: seq<Instant>,
                      now: Instant)
    requires Agrees(o, hits, ledger, k, now) && Same(ts, us, now, o.windowMs)
    ensures Agrees(o, hits[key := ts], ledger[key := us], k, now)
  {
    assert Get(hits[key := ts], k) == if k == key then ts else Get(hits, k);
    assert Get(ledger[key := us], k) == if k == key then us else Get(ledger, k);
  }

  lemma RejectedAgrees(o: Options, hits: Hits, ledger: Ledger, key: Key, k: Key, recent: seq<Instant>, now: Instant)
    requires Agrees(o, hits, ledger, k, now) && Agrees(o, hits, ledger, key, now)
    requires recent == After(Get(hits, key), now - o.windowMs)
    ensures Agrees(o, hits[key := recent], ledger, k, now)
  {
    SameCompacted(Get(hits, key), Get(ledger, key), now, o.windowMs);
    PutAgrees(o, hits, ledger, key, k, recent, now);
  }

  lemma AllowedAgrees(o: Options, hits: Hits, ledger: Ledger, key: Key, k: Key, recent: seq<Instant>, now: Instant)
    requires Agrees(o, hits, ledger, k, now) && Agrees(o, hits, ledger, key, now)
    requires recent == After(Get(hits, key), now - o.windowMs)
    ensures Agrees(o, hits[key := recent + [now]], ledger[key := Get(ledger, key) + [now]], k, now)
  {
    SameCompacted(Get(hits, key), Get(ledger, key), now, o.windowMs);
    SameHit(recent, Get(ledger, key), now, o.windowMs);
    PutBothAgrees(o, hits, ledger, key, k, recent + [now], Get(ledger, key) + [now], now);
  }

  lemma RejectedCheckAgrees(o: Options, t: Tracked, ledger: Ledger, key: Key, k: Key, now: Instant)
    requires o.Valid() && |Recent(o, t, key, now)| >= o.limit
    requires Agrees(o, t.hits, ledger, k, now) && Agrees(o, t.hits, ledger, key, now)
    ensures Agrees(o, CheckFn(o, t, key, now).0.hits, ledger, k, now)
  {
    DueAgrees(o, t, ledger, k, now);
    DueAgrees(o, t, ledger, key, now);
    RejectedAgrees(o, Due(o, t, now).hits, ledger, key, k, Recent(o, t, key, now), now);
  }

  lemma AllowedCheckKeeps(o: Options, t: Tracked, key: Key, now: Instant)
    requires o.Valid() && t.Valid() && !Forces(o, t, key, now) && |Recent(o, t, key, now)| < o.limit
    ensures var next := CheckFn(o, t, key, now).0;
            next == WithHit(o, t, key, now) || next == Sweep(WithHit(o, t, key, now), now - o.windowMs)
  {
    WithHitIsValid(o, t, key, now);
    UnforcedIsSweep(o, WithHit(o, t, key, now), key, now - o.windowMs);
  }

  lemma WithHitAgrees(o: Options, t: Tracked, ledger: Ledger, key: Key, k: Key, now: Instant)
    requires Agrees(o, t.hits, ledger, k, now) && Agrees(o, t.hits, ledger, key, now)
    ensures Agrees(o, WithHit(o, t, key, now).hits, ledger[key := Get(ledger, key) + [now]], k, now)
  {
    DueAgrees(o, t, ledger, k, now);
    DueAgrees(o, t, ledger, key, now);
    AllowedAgrees(o, Due(o, t, now).hits, ledger, key, k, Recent(o, t, key, now), now);
  }

  lemma AllowedCheckAgrees(o: Options, t: Tracked, ledger: Ledger, key: Key, k: Key, now: Instant)
    requires o.Valid() && t.Valid() && !Forces(o, t, key, now) && |Recent(o, t, key, now)| < o.limit
    requires Agrees(o, t.hits, ledger, k, now) && Agrees(o, t.hits, ledger, key, now)
    ensures Agrees(o, CheckFn(o, t, key, now).0.hits, ledger[key := Get(ledger, key) + [now]], k, now)
  {
    WithHitAgrees(o, t, ledger, key, k, now);
    AllowedCheckKeeps(o, t, key, now);
    SweptOrNotAgrees(o, WithHit(o, t, key, now), CheckFn(o, t, key, now).0.hits,
                     ledger[key := Get(ledger, key) + [now]], k, now);
  }

  lemma AnswerIsPlain(o: Options, t: Tracked, ledger: Ledger, key: Key, now: Instant)
    requires o.Valid() && Agrees(o, t.hits, ledger, key, now)
    ensures CheckFn(o, t, key, now).1 == PlainAnswer(o, ledger, key, now)
  {
    RecentIsCounted(o, t, ledger, key, now);
  }

  lemma CheckAgrees(o: Options, t: Tracked, ledger: Ledger, key: Key, k: Key, now: Instant)
    requires o.Valid() && t.Valid() && !Forces(o, t, key, now)
    requires Agrees(o, t.hits, ledger, k, now) && Agrees(o, t.hits, ledger, key, now)
    ensures Agrees(o, CheckFn(o, t, key, now).0.hits, PlainNext(o, ledger, key, now), k, now)
  {
    RecentIsCounted(o, t, ledger, key, now);
    if |Recent(o, t, key, now)| >= o.limit {
      RejectedCheckAgrees(o, t, ledger, key, k, now);
    } else {
      AllowedCheckAgrees(o, t, ledger, key, k, now);
    }
  }

  lemma AgreesLater(o: Options, hits: Hits, ledger: Ledger, key: Key, prev: Instant, now: Instant)
    requires Refines(o, hits, ledger, prev) && prev <= now
    ensures Agrees(o, hits, ledger, key, now)
  {
    assert Agrees(o, hits, ledger, key, prev);
    SameLater(Get(hits, key), Get(ledger, key), prev, now, o.windowMs);
  }

  lemma CheckRefines(o: Options, t: Tracked, ledger: Ledger, key: Key, prev: Instant, now: Instant)
    requires o.Valid() && t.Valid() && !Forces(o, t, key, now)
    requires Refines(o, t.hits, ledger, prev) && prev <= now
    ensures CheckFn(o, t, key, now).1 == PlainAnswer(o, ledger, key, now)
    ensures Refines(o, CheckFn(o, t, key, now).0.hits, PlainNext(o, ledger, key, now), now)
  {
    AgreesLater(o, t.hits, ledger, key, prev, now);
    AnswerIsPlain(o, t, ledger, key, now);
    forall k ensures Agrees(o, CheckFn(o, t, key, now).0.hits, PlainNext(o, ledger, key, now), k, now) {
      AgreesLater(o, t.hits, ledger, k, prev, now);
      CheckAgrees(o, t, ledger, key, k, now);
    }
  }

  lemma ResetRefines(o: Options, t: Tracked, ledger: Ledger, which: Option<Key>, now: Instant)
    requires Refines(o, t.hits, ledger, now)
    ensures Refines(o, ResetFn(t, which).hits, PlainReset(ledger, which), now)
  {
    forall k ensures Agrees(o, ResetFn(t, which).hits, PlainReset(ledger, which), k, now) {
      assert Agrees(o, t.hits, ledger, k, now);
    }
  }

  lemma NextRefines(o: Options, t: Tracked, ledger: Ledger, c: Call, prev: Instant)
    requires o.Valid() && t.Valid() && Refines(o, t.hits, ledger, prev) && prev <= Clock(c, prev)
    requires c.Check? ==> !Forces(o, t, c.key, c.now)
    ensures Next(o, t, c).Valid()
    ensures Refines(o, Next(o, t, c).hits, LedgerNext(o, ledger, c), Clock(c, prev))
  {
    match c
    case Check(key, now) =>
      CheckKeepsValid(o, t, key, now);
      CheckRefines(o, t, ledger, key, prev, now);
    case Reset(which) =>
      ResetKeepsValid(t, which);
      ResetRefines(o, t, ledger, which, prev);
  }

  lemma {:induction false} RunRefines(o: Options, t: Tracked, ledger: Ledger, run: seq<Call>, prev: Instant)
    requires o.Valid() && t.Valid() && Refines(o, t.hits, ledger, prev)
    requires Monotone(run, prev) && NeverForces(o, t, run)
    ensures Answers(o, t, run) == PlainAnswers(o, ledger, run)
    decreases |run|
  {
    if run != [] {
      NextRefines(o, t, ledger, run[0], prev);
      if run[0].Check? {
        CheckRefines(o, t, ledger, run[0].key, prev, run[0].now);
      }
      RunRefines(o, Next(o, t, run[0]), LedgerNext(o, ledger, run[0]), run[1..], Clock(run[0], prev));
    }
  }

  /**
   * From a new limiter, any run whose clock never goes back and in which the size guard
   * drops no live key is answered as if every allowed hit were kept forever.
   */
  lemma AnswersAsIfNothingWereForgotten(o: Options, start: Instant, run: seq<Call>)
    requires o.Valid() && Monotone(run, start) && NeverForces(o, Fresh(start), run)
    ensures Answers(o, Fresh(start), run) == PlainAnswers(o, map[], run)
  {
    RunRefines(o, Fresh(start), map[], run, start);
  }

  // ---------------------------------------------------------------------------
  // At most `limit` allowed checks in any window
  // ---------------------------------------------------------------------------

  /** When this key's checks were allowed. */
  function AllowedTimes(run: seq<Call>, answers: seq<Answer>, key: Key): seq<Instant>
    decreases |run|
  {
    if run == [] || (run[0].Check? && answers == []) then []
    else if run[0].Reset? then AllowedTimes(run[1..], answers, key)
    else if run[0].key == key && answers[0].allowed then [run[0].now] + AllowedTimes(run[1..], answers[1..], key)
    else AllowedTimes(run[1..], answers[1..], key)
  }

  function Within(ts: seq<Instant>, from: Instant, until: Instant): seq<Instant> {
    if ts == [] then []
    else if from <= ts[0] < until then [ts[0]] + Within(ts[1..], from, until)
    else Within(ts[1..], from, until)
  }

  predicate Touches(c: Call, key: Key) {
    c.Reset? && (c.which.None? || c.which.value == key)
  }

  predicate NotReset(run: seq<Call>, key: Key) {
    forall i :: 0 <= i < |run| ==> !Touches(run[i], key)
  }

  /** A hit and one that comes `limit` or more later are at least the window apart. */
  ghost predicate Spaced(o: Options, ts: seq<Instant>)
    requires o.Valid()
  {
    forall i, j :: 0 <= i && i + o.limit <= j < |ts| ==> ts[j] - ts[i] >= o.windowMs
  }

  lemma FewAreCounted(o: Options, ts: seq<Instant>, now: Instant)
    requires o.Valid() && Past(ts, now) && Spaced(o, ts)
    ensures |After(ts, now - o.windowMs)| <= o.limit
  {
    AfterIsShorter(ts, now - o.windowMs);
    if |ts| > o.limit {
      var i := |ts| - 1 - o.limit;
      RecentFrom(ts, now, now - o.windowMs, i);
      assert ts[i + o.limit] - ts[i] >= o.windowMs;
    }
  }

  lemma AllowedMeansAged(o: Options, ts: seq<Instant>, now: Instant, i: nat)
    requires o.Valid() && Past(ts, now) && |After(ts, now - o.windowMs)| < o.limit
    requires i + o.limit <= |ts|
    ensures now - ts[i] >= o.windowMs
  {
    RecentFrom(ts, now, now - o.windowMs, i);
  }

  lemma AllowedStaysSpaced(o: Options, ts: seq<Instant>, now: Instant)
    requires o.Valid() && Past(ts, now) && Spaced(o, ts)
    requires |After(ts, now - o.windowMs)| < o.limit
    ensures Spaced(o, ts + [now])
  {
    var all := ts + [now];
    forall i, j | 0 <= i && i + o.limit <= j < |all| ensures all[j] - all[i] >= o.windowMs {
      if j == |ts| {
        AllowedMeansAged(o, ts, now, i);
      }
    }
  }

  ghost predicate LedgerFor(o: Options, ledger: Ledger, key: Key, now: Instant)
    requires o.Valid()
  {
    Past(Get(ledger, key), now) && Spaced(o, Get(ledger, key))
  }

  lemma LedgerStep(o: Options, ledger: Ledger, c: Call, key: Key, prev: Instant)
    requires o.Valid() && LedgerFor(o, ledger, key, prev) && prev <= Clock(c, prev)
    ensures LedgerFor(o, LedgerNext(o, ledger, c), key, Clock(c, prev))
  {
    if c.Check? && c.key == key && PlainAnswer(o, ledger, key, c.now).allowed {
      AllowedStaysSpaced(o, Get(ledger, key), c.now);
    }
  }

  function NewlyAllowed(o: Options, ledger: Ledger, c: Call, key: Key): seq<Instant>
    requires o.Valid()
  {
    if c.Check? && c.key == key && PlainAnswer(o, ledger, key, c.now).allowed then [c.now] else []
  }

  lemma AllowedTimesStep(o: Options, ledger: Ledger, run: seq<Call>, key: Key)
    requires o.Valid() && run != []
    ensures AllowedTimes(run, PlainAnswers(o, ledger, run), key)
         == NewlyAllowed(o, ledger, run[0], key)
            + AllowedTimes(run[1..], PlainAnswers(o, LedgerNext(o, ledger, run[0]), run[1..]), key)
  {
    var rest := PlainAnswers(o, LedgerNext(o, ledger, run[0]), run[1..]);
    if run[0].Check? {
      assert PlainAnswers(o, ledger, run) == [PlainAnswer(o, ledger, run[0].key, run[0].now)] + rest;
      assert PlainAnswers(o, ledger, run)[1..] == rest;
    } else {
      assert PlainAnswers(o, ledger, run) == [] + rest == rest;
    }
  }

  function EndClock(run: seq<Call>, prev: Instant): Instant
    decreases |run|
  {
    if run == [] then prev else EndClock(run[1..], Clock(run[0], prev))
  }

  lemma {:induction false} LedgerStaysSpaced(o: Options, ledger: Ledger, run: seq<Call>, key: Key, prev: Instant)
    requires o.Valid() && LedgerFor(o, ledger, key, prev) && Monotone(run, prev)
    ensures LedgerFor(o, FinalLedger(o, ledger, run), key, EndClock(run, prev))
    decreases |run|
  {
    if run != [] {
      LedgerStep(o, ledger, run[0], key, prev);
      LedgerStaysSpaced(o, LedgerNext(o, ledger, run[0]), run[1..], key, Clock(run[0], prev));
    }
  }

  lemma NotResetLater(run: seq<Call>, key: Key)
    requires run != [] && NotReset(run, key)
    ensures !Touches(run[0], key) && NotReset(run[1..], key)
  {
    assert forall i :: 0 <= i < |run[1..]| ==> run[1..][i] == run[i + 1];
  }

  lemma {:induction false} LedgerIsAllowedTimes(o: Options, ledger: Ledger, run: seq<Call>, key: Key)
    requires o.Valid() && NotReset(run, key)
    ensures Get(FinalLedger(o, ledger, run), key)
         == Get(ledger, key) + AllowedTimes(run, PlainAnswers(o, ledger, run), key)
    decreases |run|
  {
    if run != [] {
      var next := LedgerNext(o, ledger, run[0]);
      NotResetLater(run, key);
      LedgerIsAllowedTimes(o, next, run[1..], key);
      var rest := AllowedTimes(run[1..], PlainAnswers(o, next, run[1..]), key);
      var first := NewlyAllowed(o, ledger, run[0], key);
      assert Get(next, key) == Get(ledger, key) + first;
      assert (Get(ledger, key) + first) + rest == Get(ledger, key) + (first + rest);
      AllowedTimesStep(o, ledger, run, key);
    }
  }

  ghost predicate Ascending(ts: seq<Instant>) {
    forall i, j :: 0 <= i < j < |ts| ==> ts[i] <= ts[j]
  }

  lemma PastIsAscending(ts: seq<Instant>, now: Instant)
    requires Past(ts, now)
    ensures Ascending(ts)
  {
    forall i, j | 0 <= i < j < |ts| ensures ts[i] <= ts[j] {
      PastPrefix(ts, now, j);
      PastBounds(ts[..j], ts[j], i);
    }
  }

  lemma {:induction false} PastPrefix(ts: seq<Instant>, now: Instant, j: nat)
    requires Past(ts, now) && j < |ts|
    ensures Past(ts[..j], ts[j])
  {
    if j < |ts| - 1 {
      var front := ts[..|ts| - 1];
      PastPrefix(front, ts[|ts| - 1], j);
      assert front[..j] == ts[..j];
    }
  }

  lemma {:induction false} LateOnesAreOutside(ts: seq<Instant>, from: Instant, until: Instant)
    requires forall i :: 0 <= i < |ts| ==> ts[i] >= until
    ensures Within(ts, from, until) == []
  {
    if ts != [] {
      LateOnesAreOutside(ts[1..], from, until);
    }
  }

  lemma {:induction false} WithinSplits(a: seq<Instant>, b: seq<Instant>, from: Instant, until: Instant)
    ensures Within(a + b, from, until) == Within(a, from, until) + Within(b, from, until)
    ensures |Within(a, from, until)| <= |a|
  {
    if a == [] {
      assert a + b == b;
    } else {
      assert (a + b)[1..] == a[1..] + b;
      WithinSplits(a[1..], b, from, until);
    }
  }

  lemma {:induction false} SpacedMeansFewWithin(o: Options, ts: seq<Instant>, from: Instant)
    requires o.Valid() && Ascending(ts) && Spaced(o, ts)
    ensures |Within(ts, from, from + o.windowMs)| <= o.limit
  {
    var until := from + o.windowMs;
    if ts == [] || |ts| <= o.limit {
      WithinSplits(ts, [], from, until);
      assert ts + [] == ts;
    } else if ts[0] < from {
      SpacedMeansFewWithin(o, ts[1..], from);
    } else {
      assert ts[o.limit] - ts[0] >= o.windowMs;
      assert ts == ts[..o.limit] + ts[o.limit..];
      WithinSplits(ts[..o.limit], ts[o.limit..], from, until);
      LateOnesAreOutside(ts[o.limit..], from, until);
    }
  }

  /** In any window of length `windowMs`, at most `limit` checks of a key are allowed. */
  lemma AtMostLimitPerWindow(o: Options, start: Instant, run: seq<Call>, key: Key, from: Instant)
    requires o.Valid() && Monotone(run, start) && NeverForces(o, Fresh(start), run) && NotReset(run, key)
    ensures |Within(AllowedTimes(run, Answers(o, Fresh(start), run), key), from, from + o.windowMs)| <= o.limit
  {
    AnswersAsIfNothingWereForgotten(o, start, run);
    LedgerIsAllowedTimes(o, map[], run, key);
    LedgerStaysSpaced(o, map[], run, key, start);
    var ts := AllowedTimes(run, Answers(o, Fresh(start), run), key);
    assert Get(FinalLedger(o, map[], run), key) == [] + ts == ts;
    PastIsAscending(ts, EndClock(run, start));
    SpacedMeansFewWithin(o, ts, from);
  }
}

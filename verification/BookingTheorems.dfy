/**
 * What the booking writes guarantee over every run: which overlaps can exist, how a row
 * may change, and when the unseen-changes badge is on.
 */
module BookingTheorems {
  import opened Common
  import opened BookingRows
  import opened BookingProtocol
  import opened BookingInvariant

  ghost predicate Reachable(env: Env, s: State) {
    exists run :: Possible(env, EMPTY, run) && After(env, EMPTY, run) == s
  }

  ghost predicate ReachableSerially(env: Env, s: State) {
    exists run :: Possible(env, EMPTY, run) && Serial(env, EMPTY, run) && After(env, EMPTY, run) == s
  }

  lemma SeriallyReachableInv(env: Env, s: State)
    requires ReachableSerially(env, s)
    ensures Reachable(env, s) && Inv(env, true, s)
  {
    var run :| Possible(env, EMPTY, run) && Serial(env, EMPTY, run) && After(env, EMPTY, run) == s;
    RunKeepsInv(env, true, EMPTY, run);
  }

  lemma ReachableInv(env: Env, s: State)
    requires Reachable(env, s)
    ensures Inv(env, false, s)
  {
    var run :| Possible(env, EMPTY, run) && After(env, EMPTY, run) == s;
    RunKeepsInv(env, false, EMPTY, run);
  }

  lemma {:induction false} RunsCompose(env: Env, s: State, run: Run, more: Run)
    requires Possible(env, s, run) && Possible(env, After(env, s, run), more)
    ensures Possible(env, s, run + more)
    ensures After(env, s, run + more) == After(env, After(env, s, run), more)
    ensures Serial(env, s, run) && Serial(env, After(env, s, run), more) ==> Serial(env, s, run + more)
    decreases |run|
  {
    if run == [] {
      assert run + more == more;
    } else {
      assert (run + more)[1..] == run[1..] + more;
      RunsCompose(env, Apply(env, s, run[0].0, run[0].1), run[1..], more);
    }
  }

  lemma ReachFurther(env: Env, s: State, run: Run)
    requires Reachable(env, s) && Possible(env, s, run)
    ensures Reachable(env, After(env, s, run))
  {
    var before :| Possible(env, EMPTY, before) && After(env, EMPTY, before) == s;
    RunsCompose(env, EMPTY, before, run);
  }

  lemma OneStep(env: Env, s: State, t: TxId, m: Move)
    requires Enabled(env, s, t, m)
    ensures Possible(env, s, [(t, m)]) && After(env, s, [(t, m)]) == Apply(env, s, t, m)
    ensures (m.Begin? ==> s.txns == map[]) ==> Serial(env, s, [(t, m)])
  {
    var run := [(t, m)];
    assert run[1..] == [];
    assert Possible(env, Apply(env, s, t, m), run[1..]) && Serial(env, Apply(env, s, t, m), run[1..]);
    assert After(env, Apply(env, s, t, m), run[1..]) == Apply(env, s, t, m);
  }

  /** One more statement of any transaction. */
  lemma Extend(env: Env, s: State, t: TxId, m: Move)
    requires Reachable(env, s) && Enabled(env, s, t, m)
    ensures Reachable(env, Apply(env, s, t, m))
  {
    OneStep(env, s, t, m);
    ReachFurther(env, s, [(t, m)]);
  }

  lemma ExtendSerially(env: Env, s: State, t: TxId, m: Move)
    requires ReachableSerially(env, s) && Enabled(env, s, t, m) && (m.Begin? ==> s.txns == map[])
    ensures ReachableSerially(env, Apply(env, s, t, m))
  {
    var before :| Possible(env, EMPTY, before) && Serial(env, EMPTY, before) && After(env, EMPTY, before) == s;
    OneStep(env, s, t, m);
    RunsCompose(env, EMPTY, before, [(t, m)]);
  }

  // ---------------------------------------------------------------------------
  // Overlaps
  // ---------------------------------------------------------------------------

  /**
   * Any number of interleaved transactions: two live bookings of one business whose starts
   * share a lock key and that occupy a common moment exist only because one of them was last
   * placed by a write that was allowed to overlap and reported that it did.
   */
  lemma NoUnreportedOverlapUnderOneKey(env: Env, s: State, i: BookingId, j: BookingId)
    requires Reachable(env, s)
    requires i in s.rows && j in s.rows && i != j
    requires s.rows[i].Live() && s.rows[j].Live() && s.rows[i].business == s.rows[j].business
    requires LockOf(env, s.rows[i].business, s.rows[i].startsAt) == LockOf(env, s.rows[j].business, s.rows[j].startsAt)
    requires Overlap(s.rows[i], s.rows[j])
    ensures Reported(s.log, i) || Reported(s.log, j)
  {
    ReachableInv(env, s);
    assert Collide(env, false, s.rows[i], s.rows[j]);
  }

  /** Bookings of one business that start on one local day share a lock key, so they are covered. */
  lemma NoUnreportedOverlap(env: Env, s: State, i: BookingId, j: BookingId)
    requires Reachable(env, s)
    requires i in s.rows && j in s.rows && i != j
    requires s.rows[i].Live() && s.rows[j].Live() && s.rows[i].business == s.rows[j].business
    requires env.dayOf(s.rows[i].business, s.rows[i].startsAt) == env.dayOf(s.rows[j].business, s.rows[j].startsAt)
    requires Overlap(s.rows[i], s.rows[j])
    ensures Reported(s.log, i) || Reported(s.log, j)
  {
    NoUnreportedOverlapUnderOneKey(env, s, i, j);
  }

  /** Every moment the booking occupies, buffers included, falls on its own local day. */
  ghost predicate InsideOwnDay(env: Env, row: Row) {
    forall at: Instant :: row.BlocksFrom() <= at < row.BlocksUntil() ==>
      env.dayOf(row.business, at) == env.dayOf(row.business, row.startsAt)
  }

  /** Bookings that keep inside their own day are disjoint across all days unless reported. */
  lemma NoUnreportedOverlapAcrossDays(env: Env, s: State, i: BookingId, j: BookingId)
    requires Reachable(env, s)
    requires i in s.rows && j in s.rows && i != j
    requires s.rows[i].Live() && s.rows[j].Live() && s.rows[i].business == s.rows[j].business
    requires InsideOwnDay(env, s.rows[i]) && InsideOwnDay(env, s.rows[j])
    requires Overlap(s.rows[i], s.rows[j])
    ensures Reported(s.log, i) || Reported(s.log, j)
  {
    ReachableInv(env, s);
    var a, b := s.rows[i], s.rows[j];
    assert a.endsAt > a.startsAt && b.endsAt > b.startsAt;
    var shared := Max(a.BlocksFrom(), b.BlocksFrom());
    assert env.dayOf(a.business, shared) == env.dayOf(a.business, a.startsAt);
    assert env.dayOf(b.business, shared) == env.dayOf(b.business, b.startsAt);
    NoUnreportedOverlap(env, s, i, j);
  }

  /** One transaction at a time, the whole-table check leaves no day restriction at all. */
  lemma SerialRunsHaveNoUnreportedOverlap(env: Env, s: State, i: BookingId, j: BookingId)
    requires ReachableSerially(env, s)
    requires i in s.rows && j in s.rows && i != j
    requires s.rows[i].Live() && s.rows[j].Live() && s.rows[i].business == s.rows[j].business
    requires Overlap(s.rows[i], s.rows[j])
    ensures Reported(s.log, i) || Reported(s.log, j)
  {
    SeriallyReachableInv(env, s);
    assert Collide(env, true, s.rows[i], s.rows[j]);
  }

  /** The public callers never pass `allowOverlap`; only the owner's second tap does. */
  ghost predicate PublicCallersNeverForce(run: Run) {
    forall k :: 0 <= k < |run| && run[k].1.Begin? ==> Unforced(run[k].1.program)
  }

  predicate Unforced(program: Program) {
    program.Places() && program.actor.Customer? ==> !program.allowOverlap
  }

  ghost predicate AllUnforced(s: State) {
    && (forall t :: t in s.txns ==> Unforced(s.txns[t].program))
    && (forall k :: 0 <= k < |s.log| && s.log[k].effect.Placed? && s.log[k].effect.actor.Customer?
          ==> !s.log[k].effect.allowOverlap)
  }

  lemma {:induction false} RunKeepsUnforced(env: Env, s: State, run: Run)
    requires Inv(env, false, s) && AllUnforced(s) && Possible(env, s, run) && PublicCallersNeverForce(run)
    ensures AllUnforced(After(env, s, run))
    decreases |run|
  {
    if run != [] {
      var (t, m) := run[0];
      var s' := Apply(env, s, t, m);
      StepKeepsInv(env, false, s, t, m);
      if m.Commit? {
        assert TxOk(s.rows, s.txns[t]) && Unforced(s.txns[t].program);
      }
      assert AllUnforced(s');
      RunKeepsUnforced(env, s', run[1..]);
    }
  }

  lemma {:induction false} LastPlacementIsLogged(log: seq<Event>, id: BookingId)
    ensures var p := LastPlacement(log, id);
            p.Some? ==> exists k :: 0 <= k < |log| && log[k].id == id && log[k].effect == p.value
  {
    if log != [] {
      var last := |log| - 1;
      if log[last].id != id || !log[last].effect.Placed? {
        LastPlacementIsLogged(log[..last], id);
      }
    }
  }

  /** Two bookings last placed by customers on one local day never overlap. */
  lemma CustomersNeverOverlap(env: Env, run: Run, i: BookingId, j: BookingId)
    requires Possible(env, EMPTY, run) && PublicCallersNeverForce(run)
    requires var s := After(env, EMPTY, run);
             && i in s.rows && j in s.rows && i != j
             && s.rows[i].Live() && s.rows[j].Live() && s.rows[i].business == s.rows[j].business
             && env.dayOf(s.rows[i].business, s.rows[i].startsAt) == env.dayOf(s.rows[j].business, s.rows[j].startsAt)
             && LastPlacement(s.log, i).Some? && LastPlacement(s.log, i).value.actor.Customer?
             && LastPlacement(s.log, j).Some? && LastPlacement(s.log, j).value.actor.Customer?
    ensures var s := After(env, EMPTY, run); !Overlap(s.rows[i], s.rows[j])
  {
    var s := After(env, EMPTY, run);
    RunKeepsUnforced(env, EMPTY, run);
    LastPlacementIsLogged(s.log, i);
    LastPlacementIsLogged(s.log, j);
    if Overlap(s.rows[i], s.rows[j]) {
      NoUnreportedOverlap(env, s, i, j);
    }
  }
}

/**
 * The booking writes cannot deadlock: while a transaction is in flight some statement can
 * run, and every statement brings the whole system closer to the end.
 */
module BookingProgress {
  import opened Common
  import opened BookingRows
  import opened BookingProtocol
  import opened BookingInvariant
  import opened BookingTheorems

  // ---------------------------------------------------------------------------
  // Some step is always enabled
  // ---------------------------------------------------------------------------

  /** A booking id that neither the table nor any pending insert uses. */
  lemma FreshId(ids: set<BookingId>) returns (id: BookingId)
    ensures id !in ids
  {
    id := 0;
    var left := ids;
    while id in ids
      invariant left <= ids
      invariant forall i :: i in ids && id <= i ==> i in left
      decreases |left|
    {
      left := left - {id};
      id := id + 1;
    }
  }

  lemma WriteIsEnabledOrBlocked(env: Env, s: State, t: TxId) returns (u: TxId, m: Move)
    requires t in s.txns && ReadyToWrite(s.txns[t])
    ensures !m.Begin? && !m.Abort? && Enabled(env, s, u, m)
  {
    var tx := s.txns[t];
    u := t;
    if tx.program.Create? {
      var pending := set v | v in s.txns && s.txns[v].stage.Wrote? :: s.txns[v].stage.id;
      var id := FreshId(s.rows.Keys + pending);
      m := Write(id);
    } else if RowFree(s, t, tx.program.id) {
      m := Write(tx.program.id);
    } else {
      u :| u in s.txns && u != t && s.txns[u].stage.Wrote? && s.txns[u].stage.id == tx.program.id;
      m := Commit;
    }
  }

  /** What a transaction can do next if it is not waiting for the day lock. */
  lemma NextMove(env: Env, s: State, t: TxId) returns (u: TxId, m: Move)
    requires TxnsOk(s) && t in s.txns
    requires s.txns[t].program.Places() ==> PastDayLock(s.txns[t]) || s.txns[t].program.Reschedule?
    requires !s.txns[t].stage.Found?
    ensures !m.Begin? && !m.Abort? && Enabled(env, s, u, m)
  {
    var tx := s.txns[t];
    assert TxOk(s.rows, tx);
    u := t;
    match tx.stage
    case Started => if ReadsFirst(tx.program) { m := ReadBooking; } else { u, m := WriteIsEnabledOrBlocked(env, s, t); }
    case Locked => m := ReadService(None);
    case Sized(shape, _) =>
      var found := Conflicts(s.rows, tx.business, shape.From(tx.program.startsAt),
                             shape.Until(tx.program.startsAt), tx.program.Exclude());
      if found == {} { m := FindConflict(None); } else { var hit :| hit in found; m := FindConflict(Some(hit)); }
    case Checked(_, _, _) => u, m := WriteIsEnabledOrBlocked(env, s, t);
    case Cleared => u, m := WriteIsEnabledOrBlocked(env, s, t);
    case Wrote(_, _, _) => m := Commit;
    case NoRows => m := Commit;
    case Failed(_) => m := Rollback;
  }

  /** No deadlock: with any transaction in flight, some transaction's next statement can run. */
  lemma SomeStepIsEnabled(env: Env, s: State) returns (t: TxId, m: Move)
    requires Reachable(env, s) && s.txns != map[]
    ensures !m.Begin? && !m.Abort? && Enabled(env, s, t, m)
  {
    ReachableInv(env, s);
    t :| t in s.txns;
    var tx := s.txns[t];
    assert TxOk(s.rows, tx);
    if tx.stage.Found? || (tx.stage.Started? && tx.program.Create?) {
      if Key(env, tx) !in s.dayLocks {
        m := LockDay;
      } else {
        t, m := NextMove(env, s, s.dayLocks[Key(env, tx)]);
      }
    } else {
      t, m := NextMove(env, s, t);
    }
  }

  // ---------------------------------------------------------------------------
  // Every step counts
  // ---------------------------------------------------------------------------

  /** An upper bound on the statements a transaction has left. */
  function StepsLeft(tx: Tx): nat {
    match tx.stage
    case Started => 6
    case Found(_) => 5
    case Locked => 4
    case Sized(_, _) => 3
    case Checked(_, _, _) => 2
    case Cleared => 2
    case Wrote(_, _, _) => 1
    case NoRows => 1
    case Failed(_) => 1
  }

  ghost function TotalLeft(txns: map<TxId, Tx>): nat
    decreases |txns|
  {
    if txns == map[] then 0
    else
      var t :| t in txns;
      assert txns.Keys == (txns - {t}).Keys + {t};
      StepsLeft(txns[t]) + TotalLeft(txns - {t})
  }

  lemma {:induction false} TotalWithout(txns: map<TxId, Tx>, t: TxId)
    requires t in txns
    ensures TotalLeft(txns) == StepsLeft(txns[t]) + TotalLeft(txns - {t})
    decreases |txns|
  {
    assert txns.Keys == (txns - {t}).Keys + {t};
    var u :| u in txns && TotalLeft(txns) == StepsLeft(txns[u]) + TotalLeft(txns - {u});
    if u != t {
      assert txns.Keys == (txns - {u}).Keys + {u};
      TotalWithout(txns - {u}, t);
      TotalWithout(txns - {t}, u);
      assert txns - {u} - {t} == txns - {t} - {u};
    }
  }

  /** A statement leaves the other transactions alone and brings its own nearer to its end. */
  lemma OwnStepsDecrease(env: Env, s: State, t: TxId, m: Move)
    requires TxnsOk(s) && Enabled(env, s, t, m) && !m.Begin?
    ensures var s' := Apply(env, s, t, m);
            && s'.txns - {t} == s.txns - {t}
            && (t in s'.txns ==> StepsLeft(s'.txns[t]) < StepsLeft(s.txns[t]))
  {
    assert TxOk(s.rows, s.txns[t]);
  }

  lemma StepsDecrease(env: Env, s: State, t: TxId, m: Move)
    requires TxnsOk(s) && Enabled(env, s, t, m) && !m.Begin?
    ensures TotalLeft(Apply(env, s, t, m).txns) < TotalLeft(s.txns)
  {
    var after := Apply(env, s, t, m).txns;
    OwnStepsDecrease(env, s, t, m);
    TotalWithout(s.txns, t);
    if t in after {
      TotalWithout(after, t);
    } else {
      assert after - {t} == after;
    }
  }

  ghost predicate NoBegins(run: Run) {
    forall k :: 0 <= k < |run| ==> !run[k].1.Begin?
  }

  lemma {:induction false} RunIsBounded(env: Env, s: State, run: Run)
    requires Inv(env, false, s) && Possible(env, s, run) && NoBegins(run)
    ensures |run| + TotalLeft(After(env, s, run).txns) <= TotalLeft(s.txns)
    decreases |run|
  {
    if run != [] {
      StepKeepsInv(env, false, s, run[0].0, run[0].1);
      StepsDecrease(env, s, run[0].0, run[0].1);
      RunIsBounded(env, Apply(env, s, run[0].0, run[0].1), run[1..]);
    }
  }

  /**
   * Every way of running the transactions in flight to a standstill, of whatever length and
   * order, finishes all of them, in no more steps than they had left.
   */
  lemma MaximalRunsFinish(env: Env, s: State, run: Run)
    requires Reachable(env, s) && Possible(env, s, run) && NoBegins(run)
    requires forall t, m: Move :: Enabled(env, After(env, s, run), t, m) ==> m.Begin? || m.Abort?
    ensures After(env, s, run).txns == map[]
    ensures |run| <= TotalLeft(s.txns)
  {
    ReachableInv(env, s);
    RunIsBounded(env, s, run);
    ReachFurther(env, s, run);
    if After(env, s, run).txns != map[] {
      var t, m := SomeStepIsEnabled(env, After(env, s, run));
    }
  }
}

/**
 * How a booking's row changes over a run: what never changes, what the calendar file's
 * SEQUENCE is worth, and exactly when the unseen-changes badge is on.
 */
module BookingHistory {
  import opened Common
  import opened BookingRows
  import opened BookingProtocol
  import opened BookingInvariant
  import opened BookingTheorems

  // ---------------------------------------------------------------------------
  // Rows over time
  // ---------------------------------------------------------------------------

  lemma StepEvolves(env: Env, s: State, t: TxId, m: Move, id: BookingId)
    requires Inv(env, false, s) && Enabled(env, s, t, m) && id in s.rows
    ensures var s' := Apply(env, s, t, m); id in s'.rows && Evolves(s.rows[id], s'.rows[id])
  {
    if m.Commit? && s.txns[t].stage.Wrote? {
      PendingWriteEvolves(s, t);
    }
  }

  /**
   * Over any interleaved run a booking never disappears, keeps its length, buffers and
   * price, never becomes live again once freed, and its revision never falls; a different
   * start, or a cancellation, comes with a larger revision.
   */
  lemma {:induction false} RowsEvolve(env: Env, s: State, run: Run, id: BookingId)
    requires Inv(env, false, s) && Possible(env, s, run) && id in s.rows
    ensures var s' := After(env, s, run); id in s'.rows && Evolves(s.rows[id], s'.rows[id])
    decreases |run|
  {
    if run != [] {
      var (t, m) := run[0];
      StepKeepsInv(env, false, s, t, m);
      StepEvolves(env, s, t, m, id);
      RowsEvolve(env, Apply(env, s, t, m), run[1..], id);
      EvolvesTransitively(s.rows[id], Apply(env, s, t, m).rows[id], After(env, s, run).rows[id]);
    }
  }

  /**
   * A booking that was cancelled or missed stays so over any run, and no conflict query of
   * any transaction returns it again: it never makes a create or a move of another fail.
   */
  lemma FreedNeverBlocks(env: Env, s: State, run: Run, id: BookingId, t: TxId)
    requires Reachable(env, s) && Possible(env, s, run)
    requires id in s.rows && (s.rows[id].status == Cancelled || s.rows[id].status == NoShow)
    ensures var s' := After(env, s, run);
      && id in s'.rows && (s'.rows[id].status == Cancelled || s'.rows[id].status == NoShow)
      && !Enabled(env, s', t, FindConflict(Some(id)))
  {
    ReachableInv(env, s);
    RowsEvolve(env, s, run, id);
  }

  /** A calendar file fetched later with another start, end or cancellation has a larger SEQUENCE. */
  lemma SequenceAdvances(env: Env, s: State, run: Run, id: BookingId)
    requires Reachable(env, s) && Possible(env, s, run) && id in s.rows
    ensures id in After(env, s, run).rows
    ensures var old_, new_ := s.rows[id], After(env, s, run).rows[id];
            && (new_.startsAt != old_.startsAt || new_.endsAt != old_.endsAt ==> old_.revision < new_.revision)
            && (old_.Live() && !new_.Live() ==> old_.revision < new_.revision)
  {
    ReachableInv(env, s);
    RowsEvolve(env, s, run, id);
  }

  ghost predicate ApprovedSince(log: seq<Event>, from: nat, id: BookingId) {
    exists k :: from <= k < |log| && log[k].id == id && log[k].effect.Approved?
  }

  /** Between two moments of one run: with the revision standing still, an approval alone explains another status. */
  ghost predicate OnlyApprovals(s: State, s': State, id: BookingId) {
    && |s.log| <= |s'.log| && s.log == s'.log[..|s.log|]
    && id in s.rows && id in s'.rows && Evolves(s.rows[id], s'.rows[id])
    && (s.rows[id].revision == s'.rows[id].revision ==>
          (s.rows[id].status != s'.rows[id].status <==> ApprovedSince(s'.log, |s.log|, id)))
  }

  lemma PublishOnlyApproves(s: State, t: TxId, id: BookingId)
    requires TxnsOk(s) && id in s.rows && t in s.txns && s.txns[t].stage.Wrote?
    ensures OnlyApprovals(s, Publish(s, t), id)
  {
    var tx, s' := s.txns[t], Publish(s, t);
    PendingWriteEvolves(s, t);
    assert TxOk(s.rows, tx);
    if tx.stage.id == id && tx.program.Confirm? {
      assert s'.log[|s.log|].id == id && s'.log[|s.log|].effect.Approved?;
    }
  }

  lemma OnlyApprovalsCompose(a: State, b: State, c: State, id: BookingId)
    requires OnlyApprovals(a, b, id) && OnlyApprovals(b, c, id)
    ensures OnlyApprovals(a, c, id)
  {
    EvolvesTransitively(a.rows[id], b.rows[id], c.rows[id]);
    if ApprovedSince(b.log, |a.log|, id) {
      var k :| |a.log| <= k < |b.log| && b.log[k].id == id && b.log[k].effect.Approved?;
      assert c.log[k] == b.log[k];
    }
    if ApprovedSince(c.log, |a.log|, id) && !ApprovedSince(c.log, |b.log|, id) {
      var k :| |a.log| <= k < |c.log| && c.log[k].id == id && c.log[k].effect.Approved?;
      assert b.log[k] == c.log[k];
    }
  }

  lemma {:induction false} RunOnlyApproves(env: Env, s: State, run: Run, id: BookingId)
    requires Inv(env, false, s) && Possible(env, s, run) && id in s.rows
    ensures OnlyApprovals(s, After(env, s, run), id)
    decreases |run|
  {
    if run != [] {
      var (t, m) := run[0];
      var s' := Apply(env, s, t, m);
      StepKeepsInv(env, false, s, t, m);
      if m.Commit? && s.txns[t].stage.Wrote? {
        PublishOnlyApproves(s, t, id);
      }
      assert OnlyApprovals(s, s', id);
      RunOnlyApproves(env, s', run[1..], id);
      OnlyApprovalsCompose(s, s', After(env, s, run), id);
    }
  }

  /**
   * Two calendar files of one booking with the same SEQUENCE name the same start and end, and
   * their STATUS differs exactly when the booking was approved between the two fetches.
   */
  lemma SameSequenceExactly(env: Env, s: State, run: Run, id: BookingId)
    requires Reachable(env, s) && Possible(env, s, run) && id in s.rows
    ensures id in After(env, s, run).rows
    ensures var s' := After(env, s, run);
            s.rows[id].revision == s'.rows[id].revision ==>
              && s'.rows[id].startsAt == s.rows[id].startsAt && s'.rows[id].endsAt == s.rows[id].endsAt
              && (s.rows[id].status != s'.rows[id].status <==> ApprovedSince(s'.log, |s.log|, id))
  {
    ReachableInv(env, s);
    RunOnlyApproves(env, s, run, id);
  }

  // ---------------------------------------------------------------------------
  // The badge
  // ---------------------------------------------------------------------------

  /** Index of the last committed customer change to this booking. */
  function LastChange(log: seq<Event>, id: BookingId): (k: Option<nat>)
    ensures k.Some? ==> k.value < |log| && log[k.value].id == id && log[k.value].CustomerChange()
  {
    if log == [] then None
    else
      var last := |log| - 1;
      if log[last].id == id && log[last].CustomerChange() then Some(last) else LastChange(log[..last], id)
  }

  /** Index of the last committed mark-seen of this booking. */
  function LastSeen(log: seq<Event>, id: BookingId): (k: Option<nat>)
    ensures k.Some? ==> k.value < |log| && log[k.value].id == id && log[k.value].effect.SeenByOwner?
  {
    if log == [] then None
    else
      var last := |log| - 1;
      if log[last].id == id && log[last].effect.SeenByOwner? then Some(last) else LastSeen(log[..last], id)
  }

  lemma {:induction false} NoneAfterLast(log: seq<Event>, id: BookingId, i: nat)
    requires i < |log| && log[i].id == id
    ensures log[i].CustomerChange() ==> LastChange(log, id).Some? && i <= LastChange(log, id).value
    ensures log[i].effect.SeenByOwner? ==> LastSeen(log, id).Some? && i <= LastSeen(log, id).value
  {
    if i < |log| - 1 {
      NoneAfterLast(log[..|log| - 1], id, i);
    }
  }

  /** The badge's two columns, as the commit log determines them. */
  ghost predicate RowFollowsLog(log: seq<Event>, id: BookingId, row: Row) {
    var change, seen := LastChange(log, id), LastSeen(log, id);
    && row.lastCustomerChange == (if change.Some? then Some(log[change.value].began) else None)
    && row.ownerSeen == (if seen.Some? && (change.Some? ==> change.value < seen.value)
                         then Some(log[seen.value].began) else None)
  }

  ghost predicate RowsFollowLog(s: State) {
    forall id :: id in s.rows ==> RowFollowsLog(s.log, id, s.rows[id])
  }

  /** The log is about bookings that are there, and nothing began later than now. */
  ghost predicate LogOk(s: State) {
    && (forall k :: 0 <= k < |s.log| ==> s.log[k].id in s.rows)
    && (forall k :: 0 <= k < |s.log| ==> s.log[k].began <= s.clock)
    && (forall t :: t in s.txns ==> s.txns[t].began <= s.clock)
  }

  ghost predicate HistoryOk(s: State) {
    RowsFollowLog(s) && LogOk(s)
  }

  lemma AppendedChange(log: seq<Event>, e: Event, id: BookingId)
    ensures LastChange(log + [e], id)
         == if e.id == id && e.CustomerChange() then Some(|log|) else LastChange(log, id)
    ensures LastSeen(log + [e], id)
         == if e.id == id && e.effect.SeenByOwner? then Some(|log|) else LastSeen(log, id)
  {
    assert (log + [e])[..|log|] == log;
  }

  /** An event about another booking says nothing about this row. */
  lemma OtherRowFollowsLog(log: seq<Event>, e: Event, id: BookingId, row: Row)
    requires RowFollowsLog(log, id, row) && e.id != id
    ensures RowFollowsLog(log + [e], id, row)
  {
    AppendedChange(log, e, id);
    var change, seen := LastChange(log, id), LastSeen(log, id);
    assert change.Some? ==> (log + [e])[change.value] == log[change.value];
    assert seen.Some? ==> (log + [e])[seen.value] == log[seen.value];
  }

  lemma CommittedRowFollowsLog(s: State, t: TxId)
    requires TxnsOk(s) && HistoryOk(s) && t in s.txns && s.txns[t].stage.Wrote?
    ensures RowFollowsLog(Publish(s, t).log, s.txns[t].stage.id, s.txns[t].stage.row)
  {
    var tx := s.txns[t];
    assert TxOk(s.rows, tx);
    AppendedChange(s.log, Event(tx.stage.id, tx.began, tx.stage.effect), tx.stage.id);
    if tx.program.Create? {
      assert LastChange(s.log, tx.stage.id) == None && LastSeen(s.log, tx.stage.id) == None;
    } else {
      assert RowFollowsLog(s.log, tx.stage.id, s.rows[tx.stage.id]);
    }
  }

  lemma PublishKeepsRows(s: State, t: TxId)
    requires TxnsOk(s) && HistoryOk(s) && t in s.txns && s.txns[t].stage.Wrote?
    ensures RowsFollowLog(Publish(s, t))
  {
    var s', tx := Publish(s, t), s.txns[t];
    var e := Event(tx.stage.id, tx.began, tx.stage.effect);
    CommittedRowFollowsLog(s, t);
    forall id | id in s'.rows ensures RowFollowsLog(s'.log, id, s'.rows[id]) {
      if id != tx.stage.id {
        OtherRowFollowsLog(s.log, e, id, s.rows[id]);
      }
    }
  }

  lemma PublishKeepsLog(s: State, t: TxId)
    requires LogOk(s) && t in s.txns && s.txns[t].stage.Wrote?
    ensures LogOk(Publish(s, t))
  {
  }

  lemma PublishKeepsHistory(s: State, t: TxId)
    requires TxnsOk(s) && HistoryOk(s) && t in s.txns && s.txns[t].stage.Wrote?
    ensures HistoryOk(Publish(s, t))
  {
    PublishKeepsRows(s, t);
    PublishKeepsLog(s, t);
  }

  lemma StepKeepsHistory(env: Env, s: State, t: TxId, m: Move)
    requires Inv(env, false, s) && HistoryOk(s) && Enabled(env, s, t, m)
    ensures HistoryOk(Apply(env, s, t, m))
  {
    if m.Commit? && s.txns[t].stage.Wrote? {
      PublishKeepsHistory(s, t);
    }
  }

  lemma {:induction false} RunKeepsHistory(env: Env, s: State, run: Run)
    requires Inv(env, false, s) && HistoryOk(s) && Possible(env, s, run)
    ensures HistoryOk(After(env, s, run))
    decreases |run|
  {
    if run != [] {
      StepKeepsInv(env, false, s, run[0].0, run[0].1);
      StepKeepsHistory(env, s, run[0].0, run[0].1);
      RunKeepsHistory(env, Apply(env, s, run[0].0, run[0].1), run[1..]);
    }
  }

  lemma ReachableHistory(env: Env, s: State)
    requires Reachable(env, s)
    ensures HistoryOk(s)
  {
    var run :| Possible(env, EMPTY, run) && After(env, EMPTY, run) == s;
    RunKeepsHistory(env, EMPTY, run);
  }

  /**
   * Exactly when the badge is on, in every reachable state: some customer change has
   * committed, and the last mark-seen either committed before the last of them or began
   * before it.
   */
  lemma BadgeExactly(env: Env, s: State, id: BookingId)
    requires Reachable(env, s) && id in s.rows
    ensures var change, seen := LastChange(s.log, id), LastSeen(s.log, id);
            s.rows[id].NeedsAttention() <==>
              change.Some? && (seen.None? || seen.value < change.value
                               || s.log[seen.value].began < s.log[change.value].began)
  {
    ReachableHistory(env, s);
    assert RowFollowsLog(s.log, id, s.rows[id]);
  }

  /** A customer change that no later-committed mark-seen could have read. */
  ghost predicate Unseen(log: seq<Event>, id: BookingId, b: nat) {
    b < |log| && log[b].id == id && log[b].CustomerChange()
    && forall k :: b < k < |log| && log[k].id == id && log[k].effect.SeenByOwner? ==> log[k].began < log[b].began
  }

  /** A change that began earlier committed after this one, and a mark-seen between the two begins came last. */
  ghost predicate Overtaken(log: seq<Event>, id: BookingId, b: nat)
    requires b < |log|
  {
    exists c, k ::
      && b < c < k < |log| && log[c].id == id && log[k].id == id
      && log[c].CustomerChange() && log[k].effect.SeenByOwner?
      && log[c].began <= log[k].began < log[b].began
      && LastChange(log, id) == Some(c) && LastSeen(log, id) == Some(k)
  }

  /**
   * A change begun after every mark-seen that commits later lights the badge, in either
   * commit order, unless another customer change to the same booking overtook it.
   */
  lemma UnseenChangeShowsUnlessOvertaken(env: Env, s: State, id: BookingId, b: nat)
    requires Reachable(env, s) && id in s.rows && Unseen(s.log, id, b)
    ensures s.rows[id].NeedsAttention() <==> !Overtaken(s.log, id, b)
  {
    BadgeExactly(env, s, id);
    NoneAfterLast(s.log, id, b);
    var c, k := LastChange(s.log, id).value, LastSeen(s.log, id);
    if k.Some? && c < k.value && s.log[c].began <= s.log[k.value].began {
      assert s.log[k.value].began < s.log[b].began;
      assert b < c;
      assert Overtaken(s.log, id, b);
    }
  }

  /** Without overtaking, the owner never loses sight of a change. */
  lemma ChangesInOrderAreNeverLost(env: Env, s: State, id: BookingId, b: nat)
    requires Reachable(env, s) && id in s.rows && Unseen(s.log, id, b)
    requires forall c :: b < c < |s.log| && s.log[c].id == id && s.log[c].CustomerChange()
               ==> s.log[b].began <= s.log[c].began
    ensures s.rows[id].NeedsAttention()
  {
    UnseenChangeShowsUnlessOvertaken(env, s, id, b);
  }

  // ---------------------------------------------------------------------------
  // Serial runs
  // ---------------------------------------------------------------------------

  ghost predicate SerialOk(s: State) {
    && Alone(s)
    && (forall k :: 0 <= k < |s.log| ==> s.log[k].began <= s.clock)
    && (forall t :: t in s.txns ==> s.txns[t].began == s.clock)
    && (forall j, k :: 0 <= j < k < |s.log| ==> s.log[j].began <= s.log[k].began)
  }

  lemma {:induction false} SerialRunKeepsOrder(env: Env, s: State, run: Run)
    requires SerialOk(s) && Possible(env, s, run) && Serial(env, s, run)
    ensures SerialOk(After(env, s, run))
    decreases |run|
  {
    if run != [] {
      SerialRunKeepsOrder(env, Apply(env, s, run[0].0, run[0].1), run[1..]);
    }
  }

  /** One transaction at a time, the badge is on exactly when a change follows the last mark-seen. */
  lemma SerialBadge(env: Env, s: State, id: BookingId)
    requires ReachableSerially(env, s) && id in s.rows
    ensures s.rows[id].NeedsAttention() <==>
              LastChange(s.log, id).Some?
              && (LastSeen(s.log, id).Some? ==> LastSeen(s.log, id).value < LastChange(s.log, id).value)
  {
    var run :| Possible(env, EMPTY, run) && Serial(env, EMPTY, run) && After(env, EMPTY, run) == s;
    SerialRunKeepsOrder(env, EMPTY, run);
    BadgeExactly(env, s, id);
  }
}

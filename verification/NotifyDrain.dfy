/** Draining conserves: what was considered is accounted for, the rest is untouched, and repeating it finishes. */
module NotifyDrain {
  import opened Common
  import opened NotifyQueue
  import opened NotifyTable

  predicate NoneThrows(due: seq<Row>, deliver: Row -> Outcome) {
    forall i :: 0 <= i < |due| ==> !deliver(due[i]).Throws()
  }

  lemma {:induction false} AllSettled(due: seq<Row>, deliver: Row -> Outcome)
    ensures Settled(due, deliver) == due <==> NoneThrows(due, deliver)
  {
    if due != [] {
      AllSettled(due[1..], deliver);
      assert due == [due[0]] + due[1..];
      assert NoneThrows(due, deliver) <==> !deliver(due[0]).Throws() && NoneThrows(due[1..], deliver) by {
        assert forall i :: 0 <= i < |due[1..]| ==> due[1..][i] == due[i + 1];
        assert forall i :: 1 <= i < |due| ==> due[i] == due[1..][i - 1];
      }
    }
  }

  lemma {:induction false} CountsAddUp(due: seq<Row>, deliver: Row -> Outcome)
    requires forall r :: r in due ==> !deliver(r).Throws()
    ensures Count(due, deliver, Sent) + Count(due, deliver, Failed) + Count(due, deliver, Skipped) == |due|
  {
    if due != [] {
      assert due[|due| - 1] in due;
      CountsAddUp(due[..|due| - 1], deliver);
    }
  }

  /**
   * considered = min(limit, everything due), and what was settled = sent + failed + skipped;
   * the two are the same exactly when no delivery threw.
   */
  lemma DrainIsAccountedFor(rows: seq<Row>, businesses: seq<BusinessId>, now: Instant, limit: Option<int>,
                            deliver: Row -> Outcome)
    ensures var due := Take(AllDue(rows, businesses, now), Clamp(limit, 100));
            var settled := Settled(due, deliver);
            && |due| == Min(Clamp(limit, 100), |AllDue(rows, businesses, now)|)
            && Count(settled, deliver, Sent) + Count(settled, deliver, Failed) + Count(settled, deliver, Skipped)
               == |settled| <= |due|
            && (settled == due <==> NoneThrows(due, deliver))
  {
    var due := Take(AllDue(rows, businesses, now), Clamp(limit, 100));
    SettledDoNotThrow(due, deliver);
    SettledIsPrefix(due, deliver);
    AllSettled(due, deliver);
    CountsAddUp(Settled(due, deliver), deliver);
  }

  // ---------------------------------------------------------------------------
  // Exactly the settled rows change
  // ---------------------------------------------------------------------------

  predicate HasId(due: seq<Row>, id: NotificationId) {
    exists j :: 0 <= j < |due| && due[j].id == id
  }

  lemma HasIdAppends(due: seq<Row>, r: Row, id: NotificationId)
    ensures HasId(due + [r], id) <==> HasId(due, id) || r.id == id
  {
    if HasId(due, id) {
      var j :| 0 <= j < |due| && due[j].id == id;
      assert (due + [r])[j].id == id;
    }
    if r.id == id {
      assert (due + [r])[|due|].id == id;
    }
  }

  lemma {:induction false} OthersUntouched(rows: seq<Row>, due: seq<Row>, deliver: Row -> Outcome, i: nat)
    requires i < |rows| && !HasId(due, rows[i].id)
    ensures |MarkAll(rows, due, deliver)| == |rows| && MarkAll(rows, due, deliver)[i] == rows[i]
    decreases |due|
  {
    if due != [] {
      var front, last := due[..|due| - 1], due[|due| - 1];
      assert due == front + [last];
      HasIdAppends(front, last, rows[i].id);
      OthersUntouched(rows, front, deliver, i);
      MarkAt(MarkAll(rows, front, deliver), last.business, last.id, StatusAfter(deliver(last)));
    }
  }

  lemma AbsentHasNoId(s: seq<Row>, id: NotificationId)
    requires Absent(IdOf, s, id)
    ensures !HasId(s, id)
  {
    forall j | 0 <= j < |s| ensures s[j].id != id {
      assert s[j] in s && IdOf(s[j]) == s[j].id;
    }
  }

  lemma {:induction false} TakenIsMarkedOnce(rows: seq<Row>, due: seq<Row>, deliver: Row -> Outcome, i: nat, j: nat)
    requires i < |rows| && j < |due| && due[j] == rows[i] && Unique(IdOf, due)
    ensures |MarkAll(rows, due, deliver)| == |rows|
    ensures MarkAll(rows, due, deliver)[i] == MarkedRow(rows[i], StatusAfter(deliver(rows[i])))
    decreases |due|
  {
    var front, last := due[..|due| - 1], due[|due| - 1];
    MarkAt(MarkAll(rows, front, deliver), last.business, last.id, StatusAfter(deliver(last)));
    if j < |front| {
      TakenIsMarkedOnce(rows, front, deliver, i, j);
      assert front[j] in front;
    } else {
      AbsentHasNoId(front, last.id);
      OthersUntouched(rows, front, deliver, i);
    }
  }

  lemma TakenIsMarked(rows: seq<Row>, due: seq<Row>, deliver: Row -> Outcome, i: nat)
    requires i < |rows| && rows[i] in due && Unique(IdOf, due)
    ensures |MarkAll(rows, due, deliver)| == |rows|
    ensures MarkAll(rows, due, deliver)[i] == MarkedRow(rows[i], StatusAfter(deliver(rows[i])))
  {
    var j :| 0 <= j < |due| && due[j] == rows[i];
    TakenIsMarkedOnce(rows, due, deliver, i, j);
  }

  lemma {:induction false} UniquePrefix<T(!new)>(f: Row -> T, s: seq<Row>, k: nat)
    requires Unique(f, s) && k <= |s|
    ensures Unique(f, s[..k])
    decreases |s|
  {
    if k < |s| {
      UniquePrefix(f, s[..|s| - 1], k);
      assert s[..|s| - 1][..k] == s[..k];
    } else {
      assert s[..k] == s;
    }
  }

  lemma SettledIsUnique<T(!new)>(f: Row -> T, due: seq<Row>, deliver: Row -> Outcome)
    requires Unique(f, due)
    ensures Unique(f, Settled(due, deliver))
  {
    SettledIsPrefix(due, deliver);
    UniquePrefix(f, due, |Settled(due, deliver)|);
  }

  lemma TakenIsUnique(rows: seq<Row>, businesses: seq<BusinessId>, now: Instant, n: int)
    requires Unique(IdOf, rows) && DistinctIds(businesses)
    ensures Unique(IdOf, Take(AllDue(rows, businesses, now), n))
    ensures forall r :: r in Take(AllDue(rows, businesses, now), n) ==> r in rows
  {
    var all := AllDue(rows, businesses, now);
    AllDueUnique(IdOf, rows, businesses, now);
    AllDueAre(rows, businesses, now);
    if 0 < n < |all| {
      UniquePrefix(IdOf, all, n);
    }
  }

  /** A set of table rows to mark: no id twice, and none whose delivery threw. */
  ghost predicate Marks(rows: seq<Row>, taken: seq<Row>, deliver: Row -> Outcome) {
    && Unique(IdOf, rows) && Unique(IdOf, taken)
    && forall r :: r in taken ==> r in rows && !deliver(r).Throws()
  }

  lemma SettledAreMarks(t: Table, businesses: seq<BusinessId>, now: Instant, n: int, deliver: Row -> Outcome)
    requires Tidy(t) && DistinctIds(businesses)
    ensures Marks(t.rows, Settled(Take(AllDue(t.rows, businesses, now), n), deliver), deliver)
  {
    var due := Take(AllDue(t.rows, businesses, now), n);
    TakenIsUnique(t.rows, businesses, now, n);
    SettledIsUnique(IdOf, due, deliver);
    SettledDoNotThrow(due, deliver);
  }

  /** A table row with a taken row's id is that row. */
  lemma SameIdIsTaken(rows: seq<Row>, taken: seq<Row>, i: nat)
    requires Unique(IdOf, rows) && i < |rows| && HasId(taken, rows[i].id)
    requires forall r :: r in taken ==> r in rows
    ensures rows[i] in taken
  {
    var j :| 0 <= j < |taken| && taken[j].id == rows[i].id;
    assert taken[j] in taken && rows[i] in rows;
    if taken[j] != rows[i] {
      DifferentRowsDiffer(IdOf, rows, taken[j], rows[i]);
    }
  }

  lemma MarkedExactly(rows: seq<Row>, taken: seq<Row>, deliver: Row -> Outcome, i: nat)
    requires Marks(rows, taken, deliver) && i < |rows|
    ensures |MarkAll(rows, taken, deliver)| == |rows|
    ensures MarkAll(rows, taken, deliver)[i]
         == if rows[i] in taken then MarkedRow(rows[i], StatusAfter(deliver(rows[i]))) else rows[i]
    ensures rows[i] in taken <==> HasId(taken, rows[i].id)
  {
    if rows[i] in taken {
      TakenIsMarked(rows, taken, deliver, i);
      var j :| 0 <= j < |taken| && taken[j] == rows[i];
      assert taken[j].id == rows[i].id;
    } else {
      if HasId(taken, rows[i].id) {
        SameIdIsTaken(rows, taken, i);
      }
      OthersUntouched(rows, taken, deliver, i);
    }
  }

  /**
   * Whatever the transport does, the rows the drain settled leave the queue with the status
   * their delivery earned, and no other row changes: not the one that threw, nor those behind it.
   */
  lemma DrainChangesExactlyTheSettled(t: Table, businesses: seq<BusinessId>, now: Instant, limit: Option<int>,
                                      deliver: Row -> Outcome, due: seq<Row>, i: nat)
    requires Tidy(t) && DistinctIds(businesses) && i < |t.rows|
    requires due == Take(AllDue(t.rows, businesses, now), Clamp(limit, 100))
    ensures |DrainFn(t.rows, due, deliver)| == |t.rows|
    ensures DrainFn(t.rows, due, deliver)[i]
         == if t.rows[i] in Settled(due, deliver) then MarkedRow(t.rows[i], StatusAfter(deliver(t.rows[i])))
            else t.rows[i]
    ensures t.rows[i] in Settled(due, deliver) ==> !StatusAfter(deliver(t.rows[i])).Queued?
  {
    SettledAreMarks(t, businesses, now, Clamp(limit, 100), deliver);
    MarkedExactly(t.rows, Settled(due, deliver), deliver, i);
  }

  // ---------------------------------------------------------------------------
  // What is due afterwards is exactly the rest of the list
  // ---------------------------------------------------------------------------

  /** The rows whose id is not among those of `taken`. */
  function Left(s: seq<Row>, taken: seq<Row>): seq<Row> {
    if s == [] then []
    else if HasId(taken, s[0].id) then Left(s[1..], taken)
    else [s[0]] + Left(s[1..], taken)
  }

  /** `after` is the table with the taken rows moved out of the queue. */
  ghost predicate Dequeued(rows: seq<Row>, after: seq<Row>, taken: seq<Row>) {
    |after| == |rows| &&
    forall i :: 0 <= i < |rows| ==>
      if HasId(taken, rows[i].id) then !after[i].status.Queued? else after[i] == rows[i]
  }

  lemma {:induction false} DueAfter(rows: seq<Row>, after: seq<Row>, taken: seq<Row>, business: BusinessId, now: Instant)
    requires Dequeued(rows, after, taken)
    ensures DueRows(after, business, now) == Left(DueRows(rows, business, now), taken)
  {
    if rows != [] {
      assert Dequeued(rows[1..], after[1..], taken) by {
        assert forall i :: 0 <= i < |rows[1..]| ==> rows[1..][i] == rows[i + 1] && after[1..][i] == after[i + 1];
      }
      DueAfter(rows[1..], after[1..], taken, business, now);
      if IsDue(rows[0], business, now) {
        assert ([rows[0]] + DueRows(rows[1..], business, now))[1..] == DueRows(rows[1..], business, now);
      }
    }
  }

  lemma {:induction false} LeftAppends(a: seq<Row>, b: seq<Row>, taken: seq<Row>)
    ensures Left(a + b, taken) == Left(a, taken) + Left(b, taken)
  {
    if a == [] {
      assert a + b == b;
      assert [] + Left(b, taken) == Left(b, taken);
    } else {
      assert (a + b)[1..] == a[1..] + b;
      LeftAppends(a[1..], b, taken);
      assert [a[0]] + (Left(a[1..], taken) + Left(b, taken)) == ([a[0]] + Left(a[1..], taken)) + Left(b, taken);
    }
  }

  /** No row of the list is due earlier than `lo`. */
  ghost predicate From(lo: int, s: seq<Row>)
    decreases |s|
  {
    s == [] || (lo <= s[0].sendAfter && From(s[0].sendAfter, s[1..]))
  }

  lemma FromEarlier(lo: int, hi: int, s: seq<Row>)
    requires lo <= hi && From(hi, s)
    ensures From(lo, s)
  {
  }

  lemma {:induction false} InsertFrom(r: Row, s: seq<Row>, lo: int)
    requires From(lo, s) && lo <= r.sendAfter
    ensures From(lo, Insert(BySendAfter, r, s))
  {
    if s == [] || r.sendAfter <= s[0].sendAfter {
      assert ([r] + s)[1..] == s;
    } else {
      InsertFrom(r, s[1..], s[0].sendAfter);
      assert ([s[0]] + Insert(BySendAfter, r, s[1..]))[1..] == Insert(BySendAfter, r, s[1..]);
    }
  }

  function Earliest(s: seq<Row>, lo: int): int {
    if s == [] then lo else Earliest(s[1..], Min(lo, s[0].sendAfter))
  }

  lemma {:induction false} SortFrom(s: seq<Row>, lo: int)
    requires forall r :: r in s ==> lo <= r.sendAfter
    ensures From(lo, Sort(BySendAfter, s))
  {
    if s != [] {
      SortFrom(s[1..], lo);
      InsertFrom(s[0], Sort(BySendAfter, s[1..]), lo);
    }
  }

  lemma {:induction false} EarliestIs(s: seq<Row>, lo: int)
    ensures Earliest(s, lo) <= lo && forall r :: r in s ==> Earliest(s, lo) <= r.sendAfter
  {
    if s != [] {
      EarliestIs(s[1..], Min(lo, s[0].sendAfter));
    }
  }

  lemma {:induction false} LeftOfLater(r: Row, s: seq<Row>, taken: seq<Row>)
    requires From(r.sendAfter, s)
    ensures Insert(BySendAfter, r, Left(s, taken)) == [r] + Left(s, taken)
  {
    if s != [] && HasId(taken, s[0].id) {
      FromEarlier(r.sendAfter, s[0].sendAfter, s[1..]);
      LeftOfLater(r, s[1..], taken);
    }
  }

  /** Inserting into a sorted list and leaving rows out commute. */
  lemma {:induction false} LeftOfInsert(r: Row, s: seq<Row>, taken: seq<Row>, lo: int)
    requires From(lo, s)
    ensures Left(Insert(BySendAfter, r, s), taken)
         == if HasId(taken, r.id) then Left(s, taken) else Insert(BySendAfter, r, Left(s, taken))
  {
    if s == [] || r.sendAfter <= s[0].sendAfter {
      assert ([r] + s)[1..] == s;
      if s != [] {
        assert From(r.sendAfter, s);
      }
      LeftOfLater(r, s, taken);
    } else {
      var more := Insert(BySendAfter, r, s[1..]);
      assert ([s[0]] + more)[1..] == more;
      LeftOfInsert(r, s[1..], taken, s[0].sendAfter);
      if !HasId(taken, s[0].id) {
        assert ([s[0]] + Left(s[1..], taken))[1..] == Left(s[1..], taken);
      }
    }
  }

  lemma {:induction false} LeftOfSort(s: seq<Row>, taken: seq<Row>)
    ensures Sort(BySendAfter, Left(s, taken)) == Left(Sort(BySendAfter, s), taken)
  {
    if s != [] {
      var sorted, lo := Sort(BySendAfter, s[1..]), Earliest(s[1..], 0);
      LeftOfSort(s[1..], taken);
      EarliestIs(s[1..], 0);
      SortFrom(s[1..], lo);
      LeftOfInsert(s[0], sorted, taken, lo);
      if !HasId(taken, s[0].id) {
        assert ([s[0]] + Left(s[1..], taken))[1..] == Left(s[1..], taken);
      }
    }
  }

  lemma {:induction false} AllDueAfter(rows: seq<Row>, after: seq<Row>, taken: seq<Row>, businesses: seq<BusinessId>,
                                      now: Instant)
    requires Dequeued(rows, after, taken)
    ensures AllDue(after, businesses, now) == Left(AllDue(rows, businesses, now), taken)
  {
    if businesses != [] {
      var front, last := businesses[..|businesses| - 1], businesses[|businesses| - 1];
      AllDueAfter(rows, after, taken, front, now);
      DueAfter(rows, after, taken, last, now);
      LeftOfSort(DueRows(rows, last, now), taken);
      LeftAppends(AllDue(rows, front, now), DueOf(rows, last, now), taken);
    }
  }

  lemma {:induction false} NothingTaken(s: seq<Row>, taken: seq<Row>)
    requires forall r :: r in s ==> !HasId(taken, r.id)
    ensures Left(s, taken) == s
  {
    if s != [] {
      assert s[0] in s;
      NothingTaken(s[1..], taken);
    }
  }

  lemma {:induction false} EverythingTaken(s: seq<Row>, taken: seq<Row>)
    requires forall r :: r in s ==> HasId(taken, r.id)
    ensures Left(s, taken) == []
  {
    if s != [] {
      assert s[0] in s;
      EverythingTaken(s[1..], taken);
    }
  }

  /** Leaving out the first part of a list without repeated ids leaves the second. */
  lemma LeftIsTail(a: seq<Row>, b: seq<Row>)
    requires Unique(IdOf, a + b)
    ensures Left(a + b, a) == b
  {
    LeftAppends(a, b, a);
    forall r | r in a ensures HasId(a, r.id) {
      var j :| 0 <= j < |a| && a[j] == r;
      assert a[j].id == r.id;
    }
    EverythingTaken(a, a);
    forall r | r in b ensures !HasId(a, r.id) {
      var m :| 0 <= m < |b| && b[m] == r;
      forall j | 0 <= j < |a| ensures a[j].id != r.id {
        UniqueDiffers(IdOf, a + b, j, |a| + m);
      }
    }
    NothingTaken(b, a);
  }

  lemma MarkAllDequeues(rows: seq<Row>, taken: seq<Row>, deliver: Row -> Outcome)
    requires Marks(rows, taken, deliver)
    ensures Dequeued(rows, MarkAll(rows, taken, deliver), taken)
  {
    MarkAllSame(rows, taken, deliver);
    var after := MarkAll(rows, taken, deliver);
    forall i | 0 <= i < |rows|
      ensures if HasId(taken, rows[i].id) then !after[i].status.Queued? else after[i] == rows[i]
    {
      MarkedExactly(rows, taken, deliver, i);
    }
  }

  /**
   * With no arrivals, the next listing starts where this drain stopped, in the same order:
   * at the row that threw, or else after the last one considered.
   */
  lemma DrainLeavesTheRest(t: Table, businesses: seq<BusinessId>, now: Instant, n: int, deliver: Row -> Outcome,
                           due: seq<Row>, rest: seq<Row>)
    requires Tidy(t) && DistinctIds(businesses) && due == Take(AllDue(t.rows, businesses, now), n)
    requires Settled(due, deliver) + rest == AllDue(t.rows, businesses, now)
    ensures AllDue(DrainFn(t.rows, due, deliver), businesses, now) == rest
    ensures Tidy(t.(rows := DrainFn(t.rows, due, deliver)))
  {
    var settled := Settled(due, deliver);
    SettledAreMarks(t, businesses, now, n, deliver);
    MarkAllDequeues(t.rows, settled, deliver);
    AllDueAfter(t.rows, DrainFn(t.rows, due, deliver), settled, businesses, now);
    AllDueUnique(IdOf, t.rows, businesses, now);
    LeftIsTail(settled, rest);
    MarkAllSame(t.rows, settled, deliver);
    SameRowsTidy(t, DrainFn(t.rows, due, deliver));
  }

  // ---------------------------------------------------------------------------
  // Repeated drains
  // ---------------------------------------------------------------------------

  /** What one drain of at most `n` leaves of the listing. */
  function Unsettled(all: seq<Row>, n: nat, deliver: Row -> Outcome): seq<Row>
    decreases |all|
  {
    if all == [] || n == 0 || deliver(all[0]).Throws() then all else Unsettled(all[1..], n - 1, deliver)
  }

  lemma TakeTail(all: seq<Row>, n: nat)
    requires all != [] && n > 0
    ensures Take(all, n) != [] && Take(all, n)[0] == all[0] && Take(all, n)[1..] == Take(all[1..], n - 1)
  {
  }

  lemma {:induction false} SettledAndUnsettled(all: seq<Row>, n: nat, deliver: Row -> Outcome)
    ensures Settled(Take(all, n), deliver) + Unsettled(all, n, deliver) == all
    decreases |all|
  {
    if all != [] && n > 0 {
      TakeTail(all, n);
      if !deliver(all[0]).Throws() {
        SettledAndUnsettled(all[1..], n - 1, deliver);
        assert [all[0]] + (Settled(Take(all[1..], n - 1), deliver) + Unsettled(all[1..], n - 1, deliver)) == all;
      }
    }
  }

  /** One drain per element of `rounds`, each with its own transport behaviour. */
  function Rounds(rows: seq<Row>, businesses: seq<BusinessId>, now: Instant, limit: Option<int>,
                  rounds: seq<Row -> Outcome>): seq<Row>
    decreases |rounds|
  {
    if rounds == [] then rows
    else Rounds(DrainFn(rows, Take(AllDue(rows, businesses, now), Clamp(limit, 100)), rounds[0]),
                businesses, now, limit, rounds[1..])
  }

  /** What so many drains leave of the listing. */
  function Remaining(all: seq<Row>, n: nat, rounds: seq<Row -> Outcome>): seq<Row>
    decreases |rounds|
  {
    if rounds == [] then all else Remaining(Unsettled(all, n, rounds[0]), n, rounds[1..])
  }

  lemma RoundsStep(rows: seq<Row>, businesses: seq<BusinessId>, now: Instant, limit: Option<int>,
                   rounds: seq<Row -> Outcome>)
    requires rounds != []
    ensures Rounds(rows, businesses, now, limit, rounds)
         == Rounds(DrainFn(rows, Take(AllDue(rows, businesses, now), Clamp(limit, 100)), rounds[0]),
                   businesses, now, limit, rounds[1..])
  {
  }

  /** After any number of drains, whatever each of them met, what is due is what they left, in the same order. */
  lemma {:induction false} RoundsTakeInOrder(t: Table, businesses: seq<BusinessId>, now: Instant, limit: Option<int>,
                                            rounds: seq<Row -> Outcome>, all: seq<Row>, n: nat)
    requires Tidy(t) && DistinctIds(businesses) && all == AllDue(t.rows, businesses, now) && n == Clamp(limit, 100)
    ensures AllDue(Rounds(t.rows, businesses, now, limit, rounds), businesses, now) == Remaining(all, n, rounds)
    decreases |rounds|
  {
    if rounds != [] {
      var after := DrainFn(t.rows, Take(all, n), rounds[0]);
      SettledAndUnsettled(all, n, rounds[0]);
      DrainLeavesTheRest(t, businesses, now, n, rounds[0], Take(all, n), Unsettled(all, n, rounds[0]));
      RoundsTakeInOrder(t.(rows := after), businesses, now, limit, rounds[1..], Unsettled(all, n, rounds[0]), n);
      RoundsStep(t.rows, businesses, now, limit, rounds);
    }
  }

  /** How far the drains can get: the first row whose delivery throws, or the end. */
  function Wall(all: seq<Row>, deliver: Row -> Outcome): (p: nat)
    ensures p <= |all|
    ensures p < |all| ==> deliver(all[p]).Throws()
  {
    if all == [] || deliver(all[0]).Throws() then 0 else 1 + Wall(all[1..], deliver)
  }

  lemma {:induction false} WallIsTheEnd(all: seq<Row>, deliver: Row -> Outcome)
    ensures Wall(all, deliver) == |all| <==> NoneThrows(all, deliver)
  {
    if all != [] {
      WallIsTheEnd(all[1..], deliver);
      assert forall i :: 0 <= i < |all[1..]| ==> all[1..][i] == all[i + 1];
      assert forall i :: 1 <= i < |all| ==> all[i] == all[1..][i - 1];
    }
  }

  /** Two transports that stop at the same row stop at the same row of what one of them left. */
  lemma {:induction false} UnsettledSize(all: seq<Row>, n: nat, first: Row -> Outcome, second: Row -> Outcome)
    requires Wall(all, first) == Wall(all, second)
    ensures |Unsettled(all, n, first)| == |all| - Min(n, Wall(all, first))
    ensures Wall(Unsettled(all, n, first), second) == Wall(all, first) - Min(n, Wall(all, first))
    decreases |all|
  {
    if all != [] && n > 0 && !first(all[0]).Throws() {
      UnsettledSize(all[1..], n - 1, first, second);
    }
  }

  /** Every one of these drains would stop at row `p`, or none of them would stop and `p` is the end. */
  ghost predicate StopAt(all: seq<Row>, rounds: seq<Row -> Outcome>, p: nat) {
    forall k :: 0 <= k < |rounds| ==> Wall(all, rounds[k]) == p
  }

  lemma MoreRounds(k: nat, n: nat)
    requires k > 0
    ensures k * n == (k - 1) * n + n && (k - 1) * n >= 0
  {
  }

  lemma {:induction false} RemainingSize(all: seq<Row>, n: nat, rounds: seq<Row -> Outcome>, p: nat)
    requires p <= |all| && StopAt(all, rounds, p)
    ensures |Remaining(all, n, rounds)| == |all| - Min(|rounds| * n, p)
    decreases |rounds|
  {
    if rounds != [] {
      var rest := Unsettled(all, n, rounds[0]);
      forall k | 0 <= k < |rounds[1..]| ensures Wall(rest, rounds[1..][k]) == p - Min(n, p) {
        assert rounds[1..][k] == rounds[k + 1];
        UnsettledSize(all, n, rounds[0], rounds[k + 1]);
      }
      UnsettledSize(all, n, rounds[0], rounds[0]);
      RemainingSize(rest, n, rounds[1..], p - Min(n, p));
      MoreRounds(|rounds|, n);
    }
  }

  /** Drains that all stop at one row empty the due set only if that row is the end of it and there are enough of them. */
  lemma EmptyExactly(t: Table, businesses: seq<BusinessId>, now: Instant, limit: Option<int>,
                     rounds: seq<Row -> Outcome>, all: seq<Row>, p: nat)
    requires Tidy(t) && DistinctIds(businesses) && all == AllDue(t.rows, businesses, now)
    requires p <= |all| && StopAt(all, rounds, p)
    ensures AllDue(Rounds(t.rows, businesses, now, limit, rounds), businesses, now) == []
       <==> |all| <= Min(|rounds| * Clamp(limit, 100), p)
  {
    RoundsTakeInOrder(t, businesses, now, limit, rounds, all, Clamp(limit, 100));
    RemainingSize(all, Clamp(limit, 100), rounds, p);
  }

  /** Drains that meet no throwing delivery, and otherwise differ as they like, need just enough rounds. */
  lemma EmptyExactlyAfterEnoughRounds(t: Table, businesses: seq<BusinessId>, now: Instant, limit: Option<int>,
                                      rounds: seq<Row -> Outcome>, all: seq<Row>)
    requires Tidy(t) && DistinctIds(businesses) && all == AllDue(t.rows, businesses, now)
    requires forall k :: 0 <= k < |rounds| ==> NoneThrows(all, rounds[k])
    ensures AllDue(Rounds(t.rows, businesses, now, limit, rounds), businesses, now) == []
       <==> |all| <= |rounds| * Clamp(limit, 100)
  {
    forall k | 0 <= k < |rounds| ensures Wall(all, rounds[k]) == |all| {
      WallIsTheEnd(all, rounds[k]);
    }
    EmptyExactly(t, businesses, now, limit, rounds, all, |all|);
  }

  /** The same transport behaviour, so many times. */
  function Again(deliver: Row -> Outcome, k: nat): (rounds: seq<Row -> Outcome>)
    ensures |rounds| == k && forall i :: 0 <= i < k ==> rounds[i] == deliver
  {
    if k == 0 then [] else [deliver] + Again(deliver, k - 1)
  }

  /**
   * Repeated drains empty the due set if and only if rounds times limit reach the backlog
   * and no delivery in it throws, for any transport and any number of tenants.
   */
  lemma EmptyExactlyWhenNothingThrows(t: Table, businesses: seq<BusinessId>, now: Instant, limit: Option<int>,
                                      deliver: Row -> Outcome, k: nat, all: seq<Row>)
    requires Tidy(t) && DistinctIds(businesses) && all == AllDue(t.rows, businesses, now)
    ensures AllDue(Rounds(t.rows, businesses, now, limit, Again(deliver, k)), businesses, now) == []
       <==> |all| <= k * Clamp(limit, 100) && NoneThrows(all, deliver)
  {
    EmptyExactly(t, businesses, now, limit, Again(deliver, k), all, Wall(all, deliver));
    WallIsTheEnd(all, deliver);
  }

  /** In the end of one list lies another. */
  predicate EndsWith(all: seq<Row>, tail: seq<Row>) {
    |tail| <= |all| && all[|all| - |tail|..] == tail
  }

  lemma {:induction false} UnsettledEndsWith(all: seq<Row>, n: nat, deliver: Row -> Outcome, tail: seq<Row>)
    requires EndsWith(all, tail) && tail != [] && deliver(tail[0]).Throws()
    ensures EndsWith(Unsettled(all, n, deliver), tail)
    decreases |all|
  {
    if n > 0 && !deliver(all[0]).Throws() {
      assert all[1..][|all[1..]| - |tail|..] == all[|all| - |tail|..];
      UnsettledEndsWith(all[1..], n - 1, deliver, tail);
    }
  }

  lemma {:induction false} RemainingEndsWith(all: seq<Row>, n: nat, rounds: seq<Row -> Outcome>, tail: seq<Row>)
    requires EndsWith(all, tail) && tail != []
    requires forall k :: 0 <= k < |rounds| ==> rounds[k](tail[0]).Throws()
    ensures EndsWith(Remaining(all, n, rounds), tail)
    decreases |rounds|
  {
    if rounds != [] {
      UnsettledEndsWith(all, n, rounds[0], tail);
      assert forall k :: 0 <= k < |rounds[1..]| ==> rounds[1..][k] == rounds[k + 1];
      RemainingEndsWith(Unsettled(all, n, rounds[0]), n, rounds[1..], tail);
    }
  }

  /**
   * A row whose delivery throws every time keeps itself and everything behind it due, for
   * every tenant, after any number of drains, whatever they make of the other rows.
   */
  lemma APoisonRowBlocksTheRest(t: Table, businesses: seq<BusinessId>, now: Instant, limit: Option<int>,
                                rounds: seq<Row -> Outcome>, all: seq<Row>, p: nat)
    requires Tidy(t) && DistinctIds(businesses) && all == AllDue(t.rows, businesses, now) && p < |all|
    requires forall k :: 0 <= k < |rounds| ==> rounds[k](all[p]).Throws()
    ensures EndsWith(AllDue(Rounds(t.rows, businesses, now, limit, rounds), businesses, now), all[p..])
  {
    RoundsTakeInOrder(t, businesses, now, limit, rounds, all, Clamp(limit, 100));
    RemainingEndsWith(all, Clamp(limit, 100), rounds, all[p..]);
  }
}

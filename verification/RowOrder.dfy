/**
 * The customer's reads of hours, overrides and closures carry no ORDER BY; the admin's do.
 * Exactly when the two must agree whatever order the rows come in.
 */
module RowOrder {
  import opened Common
  import opened OpeningWindows
  import opened WindowOrder

  // ---------------------------------------------------------------------------
  // What is left of one window
  // ---------------------------------------------------------------------------

  function Remains(w: Window, day: int, closures: seq<Closure>): seq<Window> {
    CutAll([w], day, closures)
  }

  /** A piece begins where its window does or after a shut minute, and ends where its window does or at one. */
  ghost predicate EdgesOk(ws: seq<Window>, w: Window, day: int, closures: seq<Closure>) {
    forall v :: v in ws ==>
      && (v.startMin == w.startMin || Shut(day, closures, v.startMin - 1))
      && (v.endMin == w.endMin || Shut(day, closures, v.endMin))
  }

  lemma {:induction false} CutKeepsEdges(ws: seq<Window>, w: Window, c: Closure, day: int, closures: seq<Closure>)
    requires EdgesOk(ws, w, day, closures)
    requires c in closures && c.Ordered() && c.onDate == day && !c.WholeDay()
    ensures EdgesOk(Cut(ws, c.startMin.value, c.endMin.value), w, day, closures)
  {
    if ws != [] {
      assert ws[0] in ws;
      assert c.Shuts(day, c.startMin.value) && c.Shuts(day, c.endMin.value - 1);
      CutKeepsEdges(ws[1..], w, c, day, closures);
    }
  }

  lemma {:induction false} CutAllKeepsEdges(ws: seq<Window>, w: Window, day: int, some: seq<Closure>, all: seq<Closure>)
    requires EdgesOk(ws, w, day, all) && AllOrdered(all)
    requires forall c :: c in some ==> c in all
    ensures EdgesOk(CutAll(ws, day, some), w, day, all)
    decreases |some|
  {
    if some != [] {
      var c := some[0];
      if c.onDate == day && !c.WholeDay() {
        CutKeepsEdges(ws, w, c, day, all);
      }
      CutAllKeepsEdges(CutBy(ws, day, c), w, day, some[1..], all);
    }
  }

  /** A piece is a longest run of minutes of its window that are not shut. */
  ghost predicate LongestRun(v: Window, w: Window, day: int, closures: seq<Closure>) {
    && w.startMin <= v.startMin < v.endMin <= w.endMin
    && (forall m :: v.Has(m) ==> !Shut(day, closures, m))
    && (v.startMin == w.startMin || Shut(day, closures, v.startMin - 1))
    && (v.endMin == w.endMin || Shut(day, closures, v.endMin))
  }

  lemma RemainsAreRuns(w: Window, day: int, closures: seq<Closure>, v: Window)
    requires w.startMin < w.endMin && AllOrdered(closures) && v in Remains(w, day, closures)
    ensures LongestRun(v, w, day, closures)
  {
    CutAllKeepsEdges([w], w, day, closures, closures);
    CutAllKeepsNonEmpty([w], day, closures);
    forall m | v.Has(m) ensures w.Has(m) && !Shut(day, closures, m) {
      assert Covers(Remains(w, day, closures), m);
      CutAllCovers([w], day, closures, m);
    }
    assert v.Has(v.startMin) && v.Has(v.endMin - 1);
  }

  // ---------------------------------------------------------------------------
  // Lists seen through one start
  // ---------------------------------------------------------------------------

  function StartsAt(q: int): Window -> Option<Window> {
    (w: Window) => if w.startMin == q then Some(w) else None
  }

  function WithStart(q: int, ws: seq<Window>): seq<Window> {
    Collect(StartsAt(q), ws)
  }

  lemma {:induction false} WithStartMembers(q: int, ws: seq<Window>, w: Window)
    ensures w in WithStart(q, ws) <==> w in ws && w.startMin == q
  {
    if ws != [] {
      WithStartMembers(q, ws[1..], w);
    }
  }

  lemma {:induction false} AtMostOneStarts(q: int, ws: seq<Window>)
    requires LaidOut(ws)
    ensures |WithStart(q, ws)| <= 1
  {
    if ws != [] {
      AtMostOneStarts(q, ws[1..]);
      if ws[0].startMin == q && WithStart(q, ws[1..]) != [] {
        WithStartMembers(q, ws[1..], WithStart(q, ws[1..])[0]);
      }
    }
  }

  lemma {:induction false} InsertThroughStart(q: int, w: Window, ws: seq<Window>)
    ensures WithStart(q, Insert(ByStart, w, ws)) == Kept(StartsAt(q)(w)) + WithStart(q, ws)
  {
    if ws == [] || ByStart(w) <= ByStart(ws[0]) {
      assert ([w] + ws)[1..] == ws;
    } else {
      var rest := Insert(ByStart, w, ws[1..]);
      assert ([ws[0]] + rest)[1..] == rest;
      InsertThroughStart(q, w, ws[1..]);
    }
  }

  /** Sorting by start keeps the order of windows that share one. */
  lemma {:induction false} SortThroughStart(q: int, ws: seq<Window>)
    ensures WithStart(q, Sort(ByStart, ws)) == WithStart(q, ws)
  {
    if ws != [] {
      SortThroughStart(q, ws[1..]);
      InsertThroughStart(q, ws[0], Sort(ByStart, ws[1..]));
    }
  }

  lemma HeadIsFirstOfItsStart(a: seq<Window>, b: seq<Window>)
    requires a != [] && SortedBy(ByStart, b) && WithStart(a[0].startMin, a) == WithStart(a[0].startMin, b)
    requires b != [] && a[0].startMin <= b[0].startMin
    ensures a[0] == b[0]
  {
    var q := a[0].startMin;
    assert WithStart(q, a)[0] == a[0];
    WithStartMembers(q, b, a[0]);
    assert ByStart(b[0]) <= q;
    assert WithStart(q, b)[0] == b[0];
  }

  /** Sorted lists that look alike through every start are one list. */
  lemma {:induction false} AlikeThroughEveryStart(a: seq<Window>, b: seq<Window>)
    requires SortedBy(ByStart, a) && SortedBy(ByStart, b)
    requires forall q :: WithStart(q, a) == WithStart(q, b)
    ensures a == b
  {
    if a == [] || b == [] {
      if a != [] { WithStartMembers(a[0].startMin, b, a[0]); WithStartMembers(a[0].startMin, a, a[0]); }
      if b != [] { WithStartMembers(b[0].startMin, a, b[0]); WithStartMembers(b[0].startMin, b, b[0]); }
    } else {
      if a[0].startMin <= b[0].startMin {
        HeadIsFirstOfItsStart(a, b);
      } else {
        assert WithStart(b[0].startMin, b) == WithStart(b[0].startMin, a);
        HeadIsFirstOfItsStart(b, a);
      }
      forall q ensures WithStart(q, a[1..]) == WithStart(q, b[1..]) {
        var k := Kept(StartsAt(q)(a[0]));
        assert WithStart(q, a) == k + WithStart(q, a[1..]);
        assert WithStart(q, b) == k + WithStart(q, b[1..]);
        assert WithStart(q, a)[|k|..] == WithStart(q, a[1..]) && WithStart(q, b)[|k|..] == WithStart(q, b[1..]);
      }
      AlikeThroughEveryStart(a[1..], b[1..]);
      assert a == [a[0]] + a[1..] && b == [b[0]] + b[1..];
    }
  }

  // ---------------------------------------------------------------------------
  // The open windows through one start
  // ---------------------------------------------------------------------------

  /** The piece of a window that starts at `q`, if there is one. */
  function PieceAt(day: int, closures: seq<Closure>, q: int): Window -> Option<Window> {
    (w: Window) =>
      var found := WithStart(q, Remains(w, day, closures));
      if found == [] then None else Some(found[0])
  }

  lemma PieceIsTheOnlyOne(day: int, closures: seq<Closure>, q: int, w: Window)
    requires w.startMin < w.endMin && AllOrdered(closures)
    ensures WithStart(q, Remains(w, day, closures)) == Kept(PieceAt(day, closures, q)(w))
    ensures PieceAt(day, closures, q)(w).Some? ==>
      var v := PieceAt(day, closures, q)(w).value;
      v.startMin == q && LongestRun(v, w, day, closures)
    ensures forall v :: v in Remains(w, day, closures) && v.startMin == q ==> PieceAt(day, closures, q)(w) == Some(v)
  {
    var found := WithStart(q, Remains(w, day, closures));
    CutAllLaysOut([w], day, closures, w.startMin, w.endMin);
    AtMostOneStarts(q, Remains(w, day, closures));
    forall v ensures v in found <==> v in Remains(w, day, closures) && v.startMin == q {
      WithStartMembers(q, Remains(w, day, closures), v);
    }
    if found != [] {
      assert found[0] in found;
      RemainsAreRuns(w, day, closures, found[0]);
    }
  }

  lemma {:induction false} CutAllThroughStart(ws: seq<Window>, day: int, closures: seq<Closure>, q: int)
    requires AllNonEmpty(ws) && AllOrdered(closures)
    ensures WithStart(q, CutAll(ws, day, closures)) == Collect(PieceAt(day, closures, q), ws)
  {
    if ws == [] {
      NothingLeftToCut(day, closures);
    } else {
      assert ws == [ws[0]] + ws[1..];
      CutAllOfConcat([ws[0]], ws[1..], day, closures);
      CollectAppends(StartsAt(q), Remains(ws[0], day, closures), CutAll(ws[1..], day, closures));
      PieceIsTheOnlyOne(day, closures, q, ws[0]);
      CutAllThroughStart(ws[1..], day, closures, q);
    }
  }

  lemma OpenWindowsThroughStart(day: int, sched: Schedule, q: int)
    requires AllNonEmpty(Template(day, sched)) && AllOrdered(sched.closures)
    ensures WithStart(q, OpenWindows(day, sched))
         == Collect(PieceAt(day, sched.closures, q), Sort(ByStart, Template(day, sched)))
  {
    var base := Sort(ByStart, Template(day, sched));
    SortKeepsNonEmpty(Template(day, sched));
    CutAllKeepsNonEmpty(base, day, sched.closures);
    NonEmptyKeepsAll(CutAll(base, day, sched.closures));
    SortThroughStart(q, CutAll(base, day, sched.closures));
    CutAllThroughStart(base, day, sched.closures, q);
  }

  lemma {:induction false} NonEmptyKeepsAll(ws: seq<Window>)
    requires AllNonEmpty(ws)
    ensures NonEmpty(ws) == ws
  {
    if ws != [] {
      NonEmptyKeepsAll(ws[1..]);
    }
  }

  // ---------------------------------------------------------------------------
  // Collecting from two sorted lists of the same elements
  // ---------------------------------------------------------------------------

  function First<B>(p: (int, B)): int {
    p.0
  }

  function Seconds<B>(s: seq<(int, B)>): seq<B> {
    if s == [] then [] else [s[0].1] + Seconds(s[1..])
  }

  /** What `f` gives, paired with the key of what it came from. */
  function Keyed<A, B>(key: A -> int, f: A -> Option<B>): A -> Option<(int, B)> {
    (a: A) => if f(a).Some? then Some((key(a), f(a).value)) else None
  }

  lemma {:induction false} SecondsOfKeyed<A, B>(key: A -> int, f: A -> Option<B>, s: seq<A>)
    ensures Seconds(Collect(Keyed(key, f), s)) == Collect(f, s)
  {
    if s != [] {
      var rest := Collect(Keyed(key, f), s[1..]);
      SecondsOfKeyed(key, f, s[1..]);
      if f(s[0]).Some? {
        assert ([(key(s[0]), f(s[0]).value)] + rest)[1..] == rest;
      } else {
        assert [] + rest == rest;
      }
    }
  }

  lemma SortedCons<T>(key: T -> int, x: T, rest: seq<T>)
    requires SortedBy(key, rest) && forall y :: y in rest ==> key(x) <= key(y)
    ensures SortedBy(key, [x] + rest)
  {
  }

  lemma {:induction false} KeyedIsSorted<A, B>(key: A -> int, f: A -> Option<B>, s: seq<A>)
    requires SortedBy(key, s)
    ensures SortedBy(First<B>, Collect(Keyed(key, f), s))
  {
    if s != [] {
      var rest := Collect(Keyed(key, f), s[1..]);
      KeyedIsSorted(key, f, s[1..]);
      if f(s[0]).Some? {
        forall p | p in rest ensures key(s[0]) <= First(p) {
          CollectedFrom(Keyed(key, f), s[1..], p);
        }
        SortedCons(First<B>, (key(s[0]), f(s[0]).value), rest);
      } else {
        assert [] + rest == rest;
      }
    }
  }

  /** Elements that share a key and give something give the same thing. */
  ghost predicate GiveAlike<A(!new), B>(key: A -> int, f: A -> Option<B>, s: seq<A>) {
    forall x, y :: x in s && y in s && key(x) == key(y) && f(x).Some? && f(y).Some? ==> f(x) == f(y)
  }

  lemma KeysIdentifyKeyed<A(!new), B(!new)>(key: A -> int, f: A -> Option<B>, s: seq<A>)
    requires GiveAlike(key, f, s)
    ensures KeysIdentify(First<B>, Collect(Keyed(key, f), s))
  {
    var k := Collect(Keyed(key, f), s);
    forall p, q | p in k && q in k && First(p) == First(q) ensures p == q {
      CollectedFrom(Keyed(key, f), s, p);
      CollectedFrom(Keyed(key, f), s, q);
      var x :| x in s && Keyed(key, f)(x) == Some(p);
      var y :| y in s && Keyed(key, f)(y) == Some(q);
      assert key(x) == key(y) && f(x) == f(y);
    }
  }

  lemma GiveAlikeInAnyOrder<A(!new), B>(key: A -> int, f: A -> Option<B>, a: seq<A>, b: seq<A>)
    requires multiset(a) == multiset(b) && GiveAlike(key, f, a)
    ensures GiveAlike(key, f, b)
  {
    forall x | x in b ensures x in a {
      assert x in multiset(b);
    }
  }

  lemma CollectSortedAlike<A(!new), B(!new)>(key: A -> int, f: A -> Option<B>, a: seq<A>, b: seq<A>)
    requires multiset(a) == multiset(b) && GiveAlike(key, f, a)
    ensures Collect(f, Sort(key, a)) == Collect(f, Sort(key, b))
  {
    var sa, sb := Sort(key, a), Sort(key, b);
    SortSorts(key, a);
    SortSorts(key, b);
    GiveAlikeInAnyOrder(key, f, a, sa);
    CollectSameSorted(key, f, sa, sb);
  }

  lemma CollectSameSorted<A(!new), B(!new)>(key: A -> int, f: A -> Option<B>, a: seq<A>, b: seq<A>)
    requires multiset(a) == multiset(b) && GiveAlike(key, f, a) && SortedBy(key, a) && SortedBy(key, b)
    ensures Collect(f, a) == Collect(f, b)
  {
    KeyedIsSorted(key, f, a);
    KeyedIsSorted(key, f, b);
    CollectIgnoresOrder(Keyed(key, f), a, b);
    KeysIdentifyKeyed(key, f, a);
    SortedUnique(First<B>, Collect(Keyed(key, f), a), Collect(Keyed(key, f), b));
    SecondsOfKeyed(key, f, a);
    SecondsOfKeyed(key, f, b);
  }

  // ---------------------------------------------------------------------------
  // When the order of the rows cannot matter
  // ---------------------------------------------------------------------------

  ghost predicate SameRows(a: Schedule, b: Schedule) {
    && multiset(a.hours) == multiset(b.hours)
    && multiset(a.closures) == multiset(b.closures)
    && multiset(a.overrides) == multiset(b.overrides)
  }

  lemma TemplateIgnoresOrder(day: int, a: Schedule, b: Schedule)
    requires SameRows(a, b)
    ensures multiset(Template(day, a)) == multiset(Template(day, b))
  {
    CollectIgnoresOrder(OverrideOn(day), a.overrides, b.overrides);
    CollectIgnoresOrder(HourOn(day), a.hours, b.hours);
    assert |multiset(OverridesOn(day, a.overrides))| == |OverridesOn(day, a.overrides)|;
    assert |multiset(OverridesOn(day, b.overrides))| == |OverridesOn(day, b.overrides)|;
  }

  /**
   * Of two windows with one start, the shorter one ends against a closure: the minute before
   * its end or the one at its end is shut.
   */
  ghost predicate ShorterOnesEndShut(ws: seq<Window>, day: int, closures: seq<Closure>) {
    forall x, y :: x in ws && y in ws && x.startMin == y.startMin && x.endMin < y.endMin ==>
      Shut(day, closures, x.endMin - 1) || Shut(day, closures, x.endMin)
  }

  lemma PiecesAgree(day: int, closures: seq<Closure>, q: int, x: Window, y: Window)
    requires x.startMin < x.endMin <= y.endMin && x.startMin == y.startMin && AllOrdered(closures)
    requires x.endMin < y.endMin ==> Shut(day, closures, x.endMin - 1) || Shut(day, closures, x.endMin)
    requires PieceAt(day, closures, q)(x).Some? && PieceAt(day, closures, q)(y).Some?
    ensures PieceAt(day, closures, q)(x) == PieceAt(day, closures, q)(y)
  {
    PieceIsTheOnlyOne(day, closures, q, x);
    PieceIsTheOnlyOne(day, closures, q, y);
    var v, u := PieceAt(day, closures, q)(x).value, PieceAt(day, closures, q)(y).value;
    assert v.endMin < u.endMin ==> u.Has(v.endMin) && v.Has(v.endMin - 1);
    assert u.endMin < v.endMin ==> v.Has(u.endMin);
  }

  lemma TemplatePiecesAgree(day: int, sched: Schedule, q: int)
    requires AllOrdered(sched.closures) && AllNonEmpty(Template(day, sched))
    requires ShorterOnesEndShut(Template(day, sched), day, sched.closures)
    ensures GiveAlike(ByStart, PieceAt(day, sched.closures, q), Template(day, sched))
  {
    var ws, f := Template(day, sched), PieceAt(day, sched.closures, q);
    forall x, y | x in ws && y in ws && ByStart(x) == ByStart(y) && f(x).Some? && f(y).Some? ensures f(x) == f(y) {
      if x.endMin <= y.endMin {
        PiecesAgree(day, sched.closures, q, x, y);
      } else {
        PiecesAgree(day, sched.closures, q, y, x);
      }
    }
  }

  lemma NonEmptyInAnyOrder(a: seq<Window>, b: seq<Window>)
    requires multiset(a) == multiset(b) && AllNonEmpty(a)
    ensures AllNonEmpty(b)
  {
    forall i | 0 <= i < |b| ensures b[i].startMin < b[i].endMin {
      assert b[i] in multiset(b);
      assert b[i] in a;
    }
  }

  lemma SameClosuresFirst(day: int, a: Schedule, b: Schedule)
    requires SameRows(a, b) && AllOrdered(a.closures) && AllNonEmpty(Template(day, b))
    ensures OpenWindows(day, b) == OpenWindows(day, b.(closures := a.closures))
  {
    SortKeepsNonEmpty(Template(day, b));
    CutAllIgnoresOrder(Sort(ByStart, Template(day, b)), day, b.closures, a.closures);
  }

  /** The same rows in any order give the same list of windows, as long as shorter ones end against a closure. */
  lemma OpenWindowsIgnoreRowOrder(day: int, a: Schedule, b: Schedule)
    requires SameRows(a, b) && AllOrdered(a.closures) && AllNonEmpty(Template(day, a))
    requires ShorterOnesEndShut(Template(day, a), day, a.closures)
    ensures OpenWindows(day, a) == OpenWindows(day, b)
  {
    TemplateIgnoresOrder(day, a, b);
    NonEmptyInAnyOrder(Template(day, a), Template(day, b));
    SameClosuresFirst(day, a, b);
    var b' := b.(closures := a.closures);
    forall q ensures WithStart(q, OpenWindows(day, a)) == WithStart(q, OpenWindows(day, b')) {
      OpenWindowsThroughStart(day, a, q);
      OpenWindowsThroughStart(day, b', q);
      TemplatePiecesAgree(day, a, q);
      CollectSortedAlike(ByStart, PieceAt(day, a.closures, q), Template(day, a), Template(day, b'));
    }
    OpenMinutes(day, a, 0);
    OpenMinutes(day, b', 0);
    AlikeThroughEveryStart(OpenWindows(day, a), OpenWindows(day, b'));
  }

  /** Hours that do not overlap meet that, whatever the closures. */
  lemma DisjointHoursIgnoreRowOrder(day: int, a: Schedule, b: Schedule)
    requires SameRows(a, b) && AllOrdered(a.closures) && Disjoint(Template(day, a))
    ensures OpenWindows(day, a) == OpenWindows(day, b)
  {
    var ws := Template(day, a);
    forall x, y | x in ws && y in ws && x.startMin == y.startMin ensures x == y {
      var i :| 0 <= i < |ws| && ws[i] == x;
      var j :| 0 <= j < |ws| && ws[j] == y;
      assert i == j;
    }
    OpenWindowsIgnoreRowOrder(day, a, b);
  }

  // ---------------------------------------------------------------------------
  // When it does
  // ---------------------------------------------------------------------------

  /** The piece that runs up to the shorter window's end, and the longer one it is part of. */
  lemma PiecesDiffer(day: int, closures: seq<Closure>, x: Window, y: Window) returns (q: int)
    requires x.startMin < x.endMin < y.endMin && x.startMin == y.startMin && AllOrdered(closures)
    requires !Shut(day, closures, x.endMin - 1) && !Shut(day, closures, x.endMin)
    ensures PieceAt(day, closures, q)(x).Some? && PieceAt(day, closures, q)(y).Some?
    ensures PieceAt(day, closures, q)(x) != PieceAt(day, closures, q)(y)
  {
    var last := x.endMin - 1;
    assert x in [x] && y in [y] && x.Has(last) && y.Has(last);
    CutAllCovers([x], day, closures, last);
    CutAllCovers([y], day, closures, last);
    var v :| v in Remains(x, day, closures) && v.Has(last);
    var u :| u in Remains(y, day, closures) && u.Has(last);
    RemainsAreRuns(x, day, closures, v);
    RemainsAreRuns(y, day, closures, u);
    assert v.startMin < u.startMin ==> v.Has(u.startMin - 1);
    assert u.startMin < v.startMin ==> u.Has(v.startMin - 1);
    q := v.startMin;
    PieceIsTheOnlyOne(day, closures, q, x);
    PieceIsTheOnlyOne(day, closures, q, y);
  }

  /** How many leading elements have a smaller key: where an insertion lands. */
  function Below<T>(key: T -> int, k: int, s: seq<T>): (n: nat)
    ensures n <= |s|
  {
    if s == [] || k <= key(s[0]) then 0 else 1 + Below(key, k, s[1..])
  }

  lemma {:induction false} InsertLands<T>(key: T -> int, x: T, s: seq<T>)
    ensures var n := Below(key, key(x), s); Insert(key, x, s) == s[..n] + ([x] + s[n..])
  {
    if s != [] && key(s[0]) < key(x) {
      InsertLands(key, x, s[1..]);
      var n := Below(key, key(x), s[1..]);
      assert s[..n + 1] == [s[0]] + s[1..][..n] && s[n + 1..] == s[1..][n..];
    }
  }

  lemma {:induction false} BelowInserted<T>(key: T -> int, x: T, s: seq<T>)
    ensures Below(key, key(x), Insert(key, x, s)) == Below(key, key(x), s)
  {
    if s != [] && key(s[0]) < key(x) {
      BelowInserted(key, x, s[1..]);
      assert Insert(key, x, s)[1..] == Insert(key, x, s[1..]);
    }
  }

  lemma InsertBoth<T>(key: T -> int, x: T, y: T, s: seq<T>)
    requires key(x) == key(y)
    ensures var n := Below(key, key(x), s);
            Insert(key, x, Insert(key, y, s)) == s[..n] + ([x, y] + s[n..])
  {
    var n := Below(key, key(x), s);
    InsertLands(key, y, s);
    BelowInserted(key, y, s);
    InsertLands(key, x, Insert(key, y, s));
    PutBetween(s[..n], x, y, s[n..]);
  }

  lemma PutBetween<T>(front: seq<T>, x: T, y: T, back: seq<T>)
    ensures (front + ([y] + back))[..|front|] == front
    ensures [x] + (front + ([y] + back))[|front|..] == [x, y] + back
  {
  }

  lemma SortOfTwo<T>(key: T -> int, x: T, y: T, rest: seq<T>)
    ensures Sort(key, [x, y] + rest) == Insert(key, x, Insert(key, y, Sort(key, rest)))
  {
    assert ([x, y] + rest)[1..] == [y] + rest && ([y] + rest)[1..] == rest;
  }

  lemma CollectCons<A, B>(f: A -> Option<B>, x: A, back: seq<A>)
    requires f(x).Some?
    ensures Collect(f, [x] + back) == [f(x).value] + Collect(f, back)
  {
    assert ([x] + back)[1..] == back;
  }

  lemma CollectPair<A, B>(f: A -> Option<B>, x: A, y: A, back: seq<A>)
    requires f(x).Some? && f(y).Some?
    ensures Collect(f, [x, y] + back) == [f(x).value, f(y).value] + Collect(f, back)
  {
    assert [x, y] + back == [x] + ([y] + back);
    CollectCons(f, x, [y] + back);
    CollectCons(f, y, back);
    assert [f(x).value] + ([f(y).value] + Collect(f, back)) == [f(x).value, f(y).value] + Collect(f, back);
  }

  lemma CollectOfTwo<A, B>(f: A -> Option<B>, front: seq<A>, x: A, y: A, back: seq<A>)
    requires f(x).Some? && f(y).Some?
    ensures Collect(f, front + ([x, y] + back))
         == Collect(f, front) + ([f(x).value, f(y).value] + Collect(f, back))
  {
    CollectAppends(f, front, [x, y] + back);
    CollectPair(f, x, y, back);
  }

  /** What one start shows of the windows of a template that begins with these two. */
  lemma ShownThroughStart(day: int, sched: Schedule, q: int, x: Window, y: Window, rest: seq<Window>)
    requires ByStart(x) == ByStart(y) && Template(day, sched) == [x, y] + rest
    requires AllOrdered(sched.closures) && AllNonEmpty(Template(day, sched))
    requires PieceAt(day, sched.closures, q)(x).Some? && PieceAt(day, sched.closures, q)(y).Some?
    ensures var f, s := PieceAt(day, sched.closures, q), Sort(ByStart, rest);
            var front := Collect(f, s[..Below(ByStart, ByStart(x), s)]);
            |front| < |WithStart(q, OpenWindows(day, sched))|
            && WithStart(q, OpenWindows(day, sched))[|front|] == f(x).value
  {
    var f, s := PieceAt(day, sched.closures, q), Sort(ByStart, rest);
    var n := Below(ByStart, ByStart(x), s);
    OpenWindowsThroughStart(day, sched, q);
    SortOfTwo(ByStart, x, y, rest);
    InsertBoth(ByStart, x, y, s);
    CollectOfTwo(f, s[..n], x, y, s[n..]);
  }

  /** Two rows that break the condition, first one way round and then the other. */
  lemma SwappedRowsDiffer(day: int, closures: seq<Closure>, x: Window, y: Window, rest: seq<Window>,
                          a: Schedule, b: Schedule)
    requires x.startMin < x.endMin < y.endMin && x.startMin == y.startMin
    requires AllOrdered(closures) && !Shut(day, closures, x.endMin - 1) && !Shut(day, closures, x.endMin)
    requires a.closures == closures && b.closures == closures && AllNonEmpty(rest)
    requires Template(day, a) == [x, y] + rest && Template(day, b) == [y, x] + rest
    ensures OpenWindows(day, a) != OpenWindows(day, b)
  {
    var q := PiecesDiffer(day, closures, x, y);
    ShownThroughStart(day, a, q, x, y, rest);
    ShownThroughStart(day, b, q, y, x, rest);
  }

  lemma RemoveOne<T>(s: seq<T>, x: T) returns (rest: seq<T>)
    requires x in s
    ensures multiset(rest) + multiset{x} == multiset(s)
  {
    var i :| 0 <= i < |s| && s[i] == x;
    rest := s[..i] + s[i + 1..];
    assert s == s[..i] + [x] + s[i + 1..];
  }

  lemma Without<T>(s: seq<T>, x: T, y: T) returns (rest: seq<T>)
    requires x in s && y in s && x != y
    ensures multiset([x, y] + rest) == multiset(s) && multiset([y, x] + rest) == multiset(s)
  {
    var once := RemoveOne(s, x);
    assert y in multiset(s) && y in multiset(once);
    rest := RemoveOne(once, y);
    assert multiset{x, y} == multiset{x} + multiset{y};
  }

  /** Rows of a table reordered so that these two windows come from the first two of them. */
  lemma InFront<A>(f: A -> Option<Window>, rows: seq<A>, x: Window, y: Window)
    returns (ab: seq<A>, ba: seq<A>, rest: seq<Window>)
    requires x in Collect(f, rows) && y in Collect(f, rows) && x != y
    ensures multiset(ab) == multiset(rows) && multiset(ba) == multiset(rows)
    ensures Collect(f, ab) == [x, y] + rest && Collect(f, ba) == [y, x] + rest
  {
    CollectedFrom(f, rows, x);
    CollectedFrom(f, rows, y);
    var a :| a in rows && f(a) == Some(x);
    var b :| b in rows && f(b) == Some(y);
    var others := Without(rows, a, b);
    ab, ba, rest := [a, b] + others, [b, a] + others, Collect(f, others);
    CollectPair(f, a, b, others);
    CollectPair(f, b, a, others);
  }

  lemma TwoOrders(day: int, a: Schedule, x: Window, y: Window) returns (b: Schedule, c: Schedule, rest: seq<Window>)
    requires x in Template(day, a) && y in Template(day, a) && x != y
    ensures SameRows(a, b) && SameRows(a, c) && b.closures == a.closures && c.closures == a.closures
    ensures Template(day, b) == [x, y] + rest && Template(day, c) == [y, x] + rest
  {
    if OverridesOn(day, a.overrides) != [] {
      var xy, yx, others := InFront(OverrideOn(day), a.overrides, x, y);
      b, c, rest := a.(overrides := xy), a.(overrides := yx), others;
    } else {
      var xy, yx, others := InFront(HourOn(day), a.hours, x, y);
      b, c, rest := a.(hours := xy), a.(hours := yx), others;
    }
  }

  lemma SomeOrderDiffers(day: int, a: Schedule, x: Window, y: Window) returns (b: Schedule)
    requires AllOrdered(a.closures) && AllNonEmpty(Template(day, a))
    requires x in Template(day, a) && y in Template(day, a) && x.startMin == y.startMin && x.endMin < y.endMin
    requires !Shut(day, a.closures, x.endMin - 1) && !Shut(day, a.closures, x.endMin)
    ensures SameRows(a, b) && OpenWindows(day, b) != OpenWindows(day, a)
  {
    var c, rest;
    b, c, rest := TwoOrders(day, a, x, y);
    TemplateIgnoresOrder(day, a, b);
    NonEmptyInAnyOrder(Template(day, a), Template(day, b));
    assert rest == Template(day, b)[2..];
    SwappedRowsDiffer(day, a.closures, x, y, rest, b, c);
    if OpenWindows(day, b) == OpenWindows(day, a) {
      b := c;
    }
  }

  /**
   * Exactly when a date's windows do not depend on the order of the rows: whenever two of its
   * overrides (or hours) share a start, the one that ends first ends against a closure.
   */
  lemma RowOrderMattersExactly(day: int, a: Schedule)
    requires AllOrdered(a.closures) && AllNonEmpty(Template(day, a))
    ensures (forall b: Schedule :: SameRows(a, b) ==> OpenWindows(day, b) == OpenWindows(day, a))
       <==> ShorterOnesEndShut(Template(day, a), day, a.closures)
  {
    if ShorterOnesEndShut(Template(day, a), day, a.closures) {
      forall b: Schedule | SameRows(a, b) ensures OpenWindows(day, b) == OpenWindows(day, a) {
        OpenWindowsIgnoreRowOrder(day, a, b);
      }
    } else {
      var x, y :| x in Template(day, a) && y in Template(day, a) && x.startMin == y.startMin && x.endMin < y.endMin
                  && !Shut(day, a.closures, x.endMin - 1) && !Shut(day, a.closures, x.endMin);
      var b := SomeOrderDiffers(day, a, x, y);
    }
  }

  /** Two overrides the schema admits, 09:00-12:00 and 09:00-13:00, in the two orders. */
  lemma TwoOverridesInTwoOrders(day: int) returns (a: Schedule, b: Schedule)
    ensures SameRows(a, b) && a.closures == []
    ensures Template(day, a) == [Window(540, 720), Window(540, 780)]
    ensures OpenWindows(day, a) != OpenWindows(day, b)
  {
    var x, y := DateOverride(day, 540, 720), DateOverride(day, 540, 780);
    a, b := Schedule([], [], [x, y]), Schedule([], [], [y, x]);
    assert [x, y] + [] == [x, y] && [y, x] + [] == [y, x];
    CollectPair(OverrideOn(day), x, y, []);
    CollectPair(OverrideOn(day), y, x, []);
    SwappedRowsDiffer(day, [], Window(540, 720), Window(540, 780), [], a, b);
  }
}

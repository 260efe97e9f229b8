/**
 * When a business is open on a date: the weekly template or the date's overrides, minus
 * that date's closures; and the admin's use of the same windows. Dates are day numbers,
 * times of day are minutes from local midnight.
 */
module OpeningWindows {
  import opened Common

  datatype WorkingHour = WorkingHour(weekday: int, startMin: int, endMin: int)

  datatype DateOverride = DateOverride(onDate: int, startMin: int, endMin: int)

  /** Without both times it shuts the whole date. */
  datatype Closure = Closure(onDate: int, startMin: Option<int>, endMin: Option<int>)
  {
    predicate WholeDay() {
      startMin.None? || endMin.None?
    }

    predicate Shuts(day: int, m: int) {
      onDate == day && (WholeDay() || startMin.value <= m < endMin.value)
    }

    /** The CHECK constraint: a part-day closure ends after it starts. */
    predicate Ordered() {
      WholeDay() || startMin.value < endMin.value
    }
  }

  datatype Window = Window(startMin: int, endMin: int)
  {
    predicate Has(m: int) {
      startMin <= m < endMin
    }
  }

  datatype Schedule = Schedule(hours: seq<WorkingHour>, closures: seq<Closure>, overrides: seq<DateOverride>)

  function ByStart(w: Window): int {
    w.startMin
  }

  /** Numbered from Sunday; day 0 is Thursday, 1 January 1970. */
  function WeekdayOf(day: int): int {
    (day + 4) % 7
  }

  // ---------------------------------------------------------------------------
  // The rule as a function
  // ---------------------------------------------------------------------------

  function Kept<B>(b: Option<B>): seq<B> {
    if b.Some? then [b.value] else []
  }

  /** `filter` then `map`. */
  function Collect<A, B>(f: A -> Option<B>, s: seq<A>): seq<B> {
    if s == [] then [] else Kept(f(s[0])) + Collect(f, s[1..])
  }

  lemma {:induction false} CollectedFrom<A, B>(f: A -> Option<B>, s: seq<A>, b: B)
    requires b in Collect(f, s)
    ensures exists a :: a in s && f(a) == Some(b)
  {
    if b in Collect(f, s[1..]) {
      CollectedFrom(f, s[1..], b);
    } else {
      assert s[0] in s && f(s[0]) == Some(b);
    }
  }

  function OverrideOn(day: int): DateOverride -> Option<Window> {
    (o: DateOverride) => if o.onDate == day then Some(Window(o.startMin, o.endMin)) else None
  }

  function HourOn(day: int): WorkingHour -> Option<Window> {
    (h: WorkingHour) => if h.weekday == WeekdayOf(day) then Some(Window(h.startMin, h.endMin)) else None
  }

  function OverridesOn(day: int, overrides: seq<DateOverride>): seq<Window> {
    Collect(OverrideOn(day), overrides)
  }

  function HoursOn(day: int, hours: seq<WorkingHour>): seq<Window> {
    Collect(HourOn(day), hours)
  }

  /** An override replaces the weekly template for its date. */
  function Template(day: int, sched: Schedule): seq<Window> {
    var own := OverridesOn(day, sched.overrides);
    if own != [] then own else HoursOn(day, sched.hours)
  }

  function Pieces(w: Window, from: int, until: int): seq<Window> {
    if until <= w.startMin || from >= w.endMin then [w]
    else
      (if from > w.startMin then [Window(w.startMin, from)] else [])
      + (if until < w.endMin then [Window(until, w.endMin)] else [])
  }

  function Cut(ws: seq<Window>, from: int, until: int): seq<Window> {
    if ws == [] then [] else Pieces(ws[0], from, until) + Cut(ws[1..], from, until)
  }

  function CutBy(ws: seq<Window>, day: int, c: Closure): seq<Window> {
    if c.onDate != day then ws
    else if c.WholeDay() then []
    else Cut(ws, c.startMin.value, c.endMin.value)
  }

  function CutAll(ws: seq<Window>, day: int, closures: seq<Closure>): seq<Window>
    decreases |closures|
  {
    if closures == [] then ws else CutAll(CutBy(ws, day, closures[0]), day, closures[1..])
  }

  function NonEmpty(ws: seq<Window>): seq<Window> {
    Collect((w: Window) => if w.endMin > w.startMin then Some(w) else None, ws)
  }

  function OpenWindows(day: int, sched: Schedule): seq<Window> {
    Sort(ByStart, NonEmpty(CutAll(Sort(ByStart, Template(day, sched)), day, sched.closures)))
  }

  // ---------------------------------------------------------------------------
  // The loop that computes it
  // ---------------------------------------------------------------------------

  lemma {:induction false} CutAppends(a: seq<Window>, w: Window, from: int, until: int)
    ensures Cut(a + [w], from, until) == Cut(a, from, until) + Pieces(w, from, until)
  {
    if a == [] {
      assert [] + [w] == [w];
      assert Cut([w], from, until) == Pieces(w, from, until) + Cut([w][1..], from, until);
    } else {
      assert (a + [w])[1..] == a[1..] + [w];
      CutAppends(a[1..], w, from, until);
    }
  }

  lemma {:induction false} CutAllAppends(ws: seq<Window>, day: int, a: seq<Closure>, c: Closure)
    ensures CutAll(ws, day, a + [c]) == CutBy(CutAll(ws, day, a), day, c)
    decreases |a|
  {
    if a == [] {
      assert [] + [c] == [c];
    } else {
      assert (a + [c])[1..] == a[1..] + [c];
      CutAllAppends(CutBy(ws, day, a[0]), day, a[1..], c);
    }
  }

  lemma {:induction false} NothingLeftToCut(day: int, closures: seq<Closure>)
    ensures CutAll([], day, closures) == []
  {
    if closures != [] {
      NothingLeftToCut(day, closures[1..]);
    }
  }

  lemma {:induction false} WholeDayEmpties(ws: seq<Window>, day: int, closures: seq<Closure>, i: nat)
    requires i < |closures| && closures[i].onDate == day && closures[i].WholeDay()
    ensures CutAll(ws, day, closures) == []
    decreases i
  {
    if i == 0 {
      NothingLeftToCut(day, closures[1..]);
    } else {
      WholeDayEmpties(CutBy(ws, day, closures[0]), day, closures[1..], i - 1);
    }
  }

  method CutWindows(windows: seq<Window>, from: int, until: int) returns (cut: seq<Window>)
    ensures cut == Cut(windows, from, until)
  {
    cut := [];
    for i := 0 to |windows|
      invariant cut == Cut(windows[..i], from, until)
    {
      var w := windows[i];
      ghost var before := cut;
      CutAppends(windows[..i], w, from, until);
      assert windows[..i + 1] == windows[..i] + [w];
      if until <= w.startMin || from >= w.endMin {
        cut := cut + [w];
        continue;
      }
      if from > w.startMin {
        cut := cut + [Window(w.startMin, from)];
      }
      if until < w.endMin {
        cut := cut + [Window(until, w.endMin)];
      }
      assert cut == before + Pieces(w, from, until);
    }
    assert windows[..|windows|] == windows;
  }

  /** `openWindowsForDate` */
  method OpenWindowsForDate(day: int, sched: Schedule) returns (open: seq<Window>)
    ensures open == OpenWindows(day, sched)
    ensures forall m :: (exists w :: w in open && w.startMin <= m < w.endMin)
                   <==> ScheduledAt(day, sched, m) && !ClosedAt(day, sched, m)
  {
    forall m ensures (exists w :: w in OpenWindows(day, sched) && w.startMin <= m < w.endMin)
                <==> ScheduledAt(day, sched, m) && !ClosedAt(day, sched, m) {
      OpenExactly(day, sched, m);
    }
    var base := Sort(ByStart, Template(day, sched));
    var windows := base;
    for i := 0 to |sched.closures|
      invariant windows == CutAll(base, day, sched.closures[..i])
    {
      var closure := sched.closures[i];
      CutAllAppends(base, day, sched.closures[..i], closure);
      assert sched.closures[..i + 1] == sched.closures[..i] + [closure];
      if closure.onDate != day { continue; }
      if closure.startMin.None? || closure.endMin.None? {
        WholeDayEmpties(base, day, sched.closures, i);
        return [];
      }
      windows := CutWindows(windows, closure.startMin.value, closure.endMin.value);
    }
    assert sched.closures[..|sched.closures|] == sched.closures;
    open := Sort(ByStart, NonEmpty(windows));
  }

  // ---------------------------------------------------------------------------
  // Which minutes are open
  // ---------------------------------------------------------------------------

  ghost predicate Covers(ws: seq<Window>, m: int) {
    exists w :: w in ws && w.Has(m)
  }

  ghost predicate Shut(day: int, closures: seq<Closure>, m: int) {
    exists c :: c in closures && c.Shuts(day, m)
  }

  lemma SameElementsCover(a: seq<Window>, b: seq<Window>, m: int)
    requires multiset(a) == multiset(b)
    ensures Covers(a, m) <==> Covers(b, m)
  {
    forall w ensures w in a <==> w in b {
      assert w in multiset(a) <==> w in multiset(b);
    }
  }

  lemma {:induction false} NonEmptyMembers(ws: seq<Window>, w: Window)
    ensures w in NonEmpty(ws) <==> w in ws && w.startMin < w.endMin
  {
    if ws != [] {
      NonEmptyMembers(ws[1..], w);
    }
  }

  lemma {:induction false} CutCovers(ws: seq<Window>, from: int, until: int, m: int)
    ensures Covers(Cut(ws, from, until), m) <==> Covers(ws, m) && !(from <= m < until)
  {
    if ws != [] {
      CutCovers(ws[1..], from, until, m);
      CoversSplit([ws[0]], ws[1..], m);
      assert ws == [ws[0]] + ws[1..];
      CoversSplit(Pieces(ws[0], from, until), Cut(ws[1..], from, until), m);
      PiecesCover(ws[0], from, until, m);
    }
  }

  lemma PiecesCover(w: Window, from: int, until: int, m: int)
    ensures Covers(Pieces(w, from, until), m) <==> w.Has(m) && !(from <= m < until)
  {
    var p := Pieces(w, from, until);
    if until <= w.startMin || from >= w.endMin {
      assert p == [w] && w in p;
    } else {
      var left, right := Window(w.startMin, from), Window(until, w.endMin);
      assert from > w.startMin ==> p[0] == left && left in p;
      assert until < w.endMin ==> p[|p| - 1] == right && right in p;
      forall x | x in p ensures x == left || x == right {}
      assert Covers(p, m) <==> (left in p && left.Has(m)) || (right in p && right.Has(m));
      assert left in p ==> from > w.startMin || left == right;
    }
  }

  lemma CoversSplit(a: seq<Window>, b: seq<Window>, m: int)
    ensures Covers(a + b, m) <==> Covers(a, m) || Covers(b, m)
  {
    assert forall w :: w in a + b <==> w in a || w in b;
  }

  lemma {:induction false} CutAllCovers(ws: seq<Window>, day: int, closures: seq<Closure>, m: int)
    ensures Covers(CutAll(ws, day, closures), m) <==> Covers(ws, m) && !Shut(day, closures, m)
    decreases |closures|
  {
    if closures != [] {
      var c := closures[0];
      CutAllCovers(CutBy(ws, day, c), day, closures[1..], m);
      if c.onDate == day && !c.WholeDay() {
        CutCovers(ws, c.startMin.value, c.endMin.value, m);
      }
      assert Shut(day, closures, m) <==> c.Shuts(day, m) || Shut(day, closures[1..], m) by {
        assert forall x :: x in closures <==> x == c || x in closures[1..];
      }
    }
  }

  /**
   * The open minutes are exactly the template's (or the overrides') minus the closed ones,
   * for any rows at all; the windows come sorted and none is empty.
   */
  lemma OpenMinutes(day: int, sched: Schedule, m: int)
    ensures Covers(OpenWindows(day, sched), m)
       <==> Covers(Template(day, sched), m) && !Shut(day, sched.closures, m)
    ensures SortedBy(ByStart, OpenWindows(day, sched))
    ensures forall w :: w in OpenWindows(day, sched) ==> w.startMin < w.endMin
  {
    var base := Sort(ByStart, Template(day, sched));
    var cut := CutAll(base, day, sched.closures);
    SortSorts(ByStart, Template(day, sched));
    SameElementsCover(base, Template(day, sched), m);
    CutAllCovers(base, day, sched.closures, m);
    forall w ensures w in NonEmpty(cut) <==> w in cut && w.startMin < w.endMin {
      NonEmptyMembers(cut, w);
    }
    assert Covers(NonEmpty(cut), m) <==> Covers(cut, m);
    SortSorts(ByStart, NonEmpty(cut));
    SameElementsCover(NonEmpty(cut), OpenWindows(day, sched), m);
    forall w | w in OpenWindows(day, sched) ensures w in NonEmpty(cut) {
      assert w in multiset(OpenWindows(day, sched));
    }
  }

  ghost predicate AllNonEmpty(ws: seq<Window>) {
    forall i :: 0 <= i < |ws| ==> ws[i].startMin < ws[i].endMin
  }

  lemma SortKeepsNonEmpty(ws: seq<Window>)
    requires AllNonEmpty(ws)
    ensures AllNonEmpty(Sort(ByStart, ws))
  {
    var sorted := Sort(ByStart, ws);
    SortSorts(ByStart, ws);
    forall i | 0 <= i < |sorted| ensures sorted[i].startMin < sorted[i].endMin {
      assert sorted[i] in multiset(sorted);
      assert sorted[i] in ws;
    }
  }

  /** The minute falls in a closed part of the date, row by row. */
  ghost predicate ClosedAt(day: int, sched: Schedule, m: int) {
    exists c :: c in sched.closures && c.onDate == day
      && (c.startMin == None || c.endMin == None || c.startMin.value <= m < c.endMin.value)
  }

  /** An override of the date holds the minute or, when the date has none, an hours row of its weekday does. */
  ghost predicate ScheduledAt(day: int, sched: Schedule, m: int) {
    if exists o :: o in sched.overrides && o.onDate == day
    then exists o :: o in sched.overrides && o.onDate == day && o.startMin <= m < o.endMin
    else exists h :: h in sched.hours && h.weekday == (day + 4) % 7 && h.startMin <= m < h.endMin
  }

  lemma {:induction false} OverridesOnMembers(day: int, overrides: seq<DateOverride>, w: Window)
    ensures w in OverridesOn(day, overrides)
       <==> exists o :: o in overrides && o.onDate == day && w == Window(o.startMin, o.endMin)
  {
    if overrides != [] {
      OverridesOnMembers(day, overrides[1..], w);
      assert forall o :: o in overrides <==> o == overrides[0] || o in overrides[1..];
    }
  }

  lemma {:induction false} HoursOnMembers(day: int, hours: seq<WorkingHour>, w: Window)
    ensures w in HoursOn(day, hours)
       <==> exists h :: h in hours && h.weekday == (day + 4) % 7 && w == Window(h.startMin, h.endMin)
  {
    if hours != [] {
      HoursOnMembers(day, hours[1..], w);
      assert forall h :: h in hours <==> h == hours[0] || h in hours[1..];
    }
  }

  lemma OverridesWin(day: int, sched: Schedule)
    ensures Template(day, sched) == (if exists o :: o in sched.overrides && o.onDate == day
                                     then OverridesOn(day, sched.overrides) else HoursOn(day, sched.hours))
  {
    var own := OverridesOn(day, sched.overrides);
    if own != [] {
      OverridesOnMembers(day, sched.overrides, own[0]);
    }
    if o :| o in sched.overrides && o.onDate == day {
      OverridesOnMembers(day, sched.overrides, Window(o.startMin, o.endMin));
    }
  }

  lemma TemplateCovers(day: int, sched: Schedule, m: int)
    ensures Covers(Template(day, sched), m) <==> ScheduledAt(day, sched, m)
  {
    var ws := Template(day, sched);
    OverridesWin(day, sched);
    if w :| w in ws && w.Has(m) {
      OverridesOnMembers(day, sched.overrides, w);
      HoursOnMembers(day, sched.hours, w);
    }
    if o :| o in sched.overrides && o.onDate == day && o.startMin <= m < o.endMin {
      OverridesOnMembers(day, sched.overrides, Window(o.startMin, o.endMin));
      assert Window(o.startMin, o.endMin).Has(m);
    }
    if h :| h in sched.hours && h.weekday == (day + 4) % 7 && h.startMin <= m < h.endMin {
      HoursOnMembers(day, sched.hours, Window(h.startMin, h.endMin));
      assert Window(h.startMin, h.endMin).Has(m);
    }
  }

  /**
   * The open minutes, read off the rows: not closed, and in an override of the date or, only
   * when the date has no override, in the hours of its weekday.
   */
  lemma OpenExactly(day: int, sched: Schedule, m: int)
    ensures (exists w :: w in OpenWindows(day, sched) && w.startMin <= m < w.endMin)
       <==> ScheduledAt(day, sched, m) && !ClosedAt(day, sched, m)
  {
    OpenMinutes(day, sched, m);
    TemplateCovers(day, sched, m);
    assert Covers(OpenWindows(day, sched), m)
      <==> exists w :: w in OpenWindows(day, sched) && w.startMin <= m < w.endMin by {
      if w :| w in OpenWindows(day, sched) && w.startMin <= m < w.endMin {
        assert w.Has(m);
      }
    }
    assert Shut(day, sched.closures, m) <==> ClosedAt(day, sched, m) by {
      if c :| c in sched.closures && c.onDate == day
              && (c.startMin == None || c.endMin == None || c.startMin.value <= m < c.endMin.value) {
        assert c.Shuts(day, m);
      }
    }
  }

  // ---------------------------------------------------------------------------
  // Windows that do not overlap
  // ---------------------------------------------------------------------------

  /** Non-empty windows, each ending before the next starts. */
  ghost predicate LaidOut(ws: seq<Window>) {
    && AllNonEmpty(ws)
    && (forall i, j :: 0 <= i < j < |ws| ==> ws[i].endMin <= ws[j].startMin)
  }

  /** Rows the hours form accepts: ordered, and no two of them open the same minute. */
  ghost predicate Disjoint(ws: seq<Window>) {
    && AllNonEmpty(ws)
    && (forall i, j :: 0 <= i < j < |ws| ==> ws[i].endMin <= ws[j].startMin || ws[j].endMin <= ws[i].startMin)
  }

  ghost predicate AllOrdered(closures: seq<Closure>) {
    forall i :: 0 <= i < |closures| ==> closures[i].Ordered()
  }

  lemma {:induction false} InsertLaysOut(w: Window, ws: seq<Window>, lo: int)
    requires LaidOut(ws) && w.startMin < w.endMin && lo <= w.startMin
    requires forall i :: 0 <= i < |ws| ==> lo <= ws[i].startMin
    requires forall i :: 0 <= i < |ws| ==> ws[i].endMin <= w.startMin || w.endMin <= ws[i].startMin
    ensures LaidOut(Insert(ByStart, w, ws))
    ensures forall i :: 0 <= i < |Insert(ByStart, w, ws)| ==> lo <= Insert(ByStart, w, ws)[i].startMin
  {
    if ws != [] && ByStart(ws[0]) < ByStart(w) {
      InsertLaysOut(w, ws[1..], ws[0].endMin);
    }
  }

  lemma {:induction false} SortLaysOut(ws: seq<Window>)
    requires Disjoint(ws)
    ensures LaidOut(Sort(ByStart, ws))
  {
    if ws != [] {
      SortLaysOut(ws[1..]);
      var rest := Sort(ByStart, ws[1..]);
      SortSorts(ByStart, ws[1..]);
      forall i | 0 <= i < |rest| ensures rest[i].endMin <= ws[0].startMin || ws[0].endMin <= rest[i].startMin {
        assert rest[i] in multiset(rest);
        assert rest[i] in ws[1..];
      }
      InsertLaysOut(ws[0], rest, if rest == [] then ws[0].startMin else Min(ws[0].startMin, rest[0].startMin));
    }
  }

  ghost predicate Within(ws: seq<Window>, lo: int, hi: int) {
    forall i :: 0 <= i < |ws| ==> lo <= ws[i].startMin && ws[i].endMin <= hi
  }

  lemma ConcatLaysOut(a: seq<Window>, b: seq<Window>, lo: int, mid: int, hi: int)
    requires LaidOut(a) && LaidOut(b) && Within(a, lo, mid) && Within(b, mid, hi) && lo <= mid <= hi
    ensures LaidOut(a + b) && Within(a + b, lo, hi)
  {
  }

  lemma PiecesLayOut(w: Window, from: int, until: int)
    requires w.startMin < w.endMin && from < until
    ensures LaidOut(Pieces(w, from, until)) && Within(Pieces(w, from, until), w.startMin, w.endMin)
  {
  }

  /** Cutting keeps windows apart, and what is left lies within what was there. */
  lemma {:induction false} CutLaysOut(ws: seq<Window>, from: int, until: int, lo: int, hi: int)
    requires LaidOut(ws) && from < until && Within(ws, lo, hi) && lo <= hi
    ensures LaidOut(Cut(ws, from, until)) && Within(Cut(ws, from, until), lo, hi)
  {
    if ws != [] {
      var w := ws[0];
      assert lo <= w.startMin && w.endMin <= hi;
      assert Within(ws[1..], w.endMin, hi);
      CutLaysOut(ws[1..], from, until, w.endMin, hi);
      PiecesLayOut(w, from, until);
      ConcatLaysOut(Pieces(w, from, until), Cut(ws[1..], from, until), w.startMin, w.endMin, hi);
    }
  }

  lemma {:induction false} CutAllLaysOut(ws: seq<Window>, day: int, closures: seq<Closure>, lo: int, hi: int)
    requires LaidOut(ws) && AllOrdered(closures) && Within(ws, lo, hi) && lo <= hi
    ensures LaidOut(CutAll(ws, day, closures))
    decreases |closures|
  {
    if closures != [] {
      var c := closures[0];
      if c.onDate == day && !c.WholeDay() {
        CutLaysOut(ws, c.startMin.value, c.endMin.value, lo, hi);
      }
      CutAllLaysOut(CutBy(ws, day, c), day, closures[1..], lo, hi);
    }
  }

  lemma {:induction false} NonEmptyOfLaidOut(ws: seq<Window>)
    requires LaidOut(ws)
    ensures NonEmpty(ws) == ws && Sort(ByStart, ws) == ws
  {
    if ws != [] {
      NonEmptyOfLaidOut(ws[1..]);
    }
  }

  /** Given hours that do not overlap and ordered closures, neither do the open windows. */
  lemma OpenWindowsAreDisjoint(day: int, sched: Schedule)
    requires forall w :: w in Template(day, sched) ==> w.startMin < w.endMin
    requires var ws := Template(day, sched);
             forall i, j :: 0 <= i < j < |ws| ==> ws[i].endMin <= ws[j].startMin || ws[j].endMin <= ws[i].startMin
    requires forall c :: c in sched.closures && c.startMin.Some? && c.endMin.Some? ==> c.startMin.value < c.endMin.value
    ensures forall w :: w in OpenWindows(day, sched) ==> w.startMin < w.endMin
    ensures var ws := OpenWindows(day, sched); forall i, j :: 0 <= i < j < |ws| ==> ws[i].endMin <= ws[j].startMin
  {
    assert Disjoint(Template(day, sched)) && AllOrdered(sched.closures);
    var base := Sort(ByStart, Template(day, sched));
    SortLaysOut(Template(day, sched));
    if base == [] {
      NothingLeftToCut(day, sched.closures);
    } else {
      CutAllLaysOut(base, day, sched.closures, base[0].startMin, base[|base| - 1].endMin);
    }
    NonEmptyOfLaidOut(CutAll(base, day, sched.closures));
  }
}

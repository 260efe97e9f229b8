/** Lists of rows in another order, and cuts that may be made in any order. */
module WindowOrder {
  import opened Common
  import opened OpeningWindows

  // ---------------------------------------------------------------------------
  // Reordering lists
  // ---------------------------------------------------------------------------

  lemma {:induction false} CollectAppends<A, B>(f: A -> Option<B>, a: seq<A>, b: seq<A>)
    ensures Collect(f, a + b) == Collect(f, a) + Collect(f, b)
  {
    if a == [] {
      assert a + b == b;
    } else {
      assert (a + b)[0] == a[0] && (a + b)[1..] == a[1..] + b;
      CollectAppends(f, a[1..], b);
      var head := Kept(f(a[0]));
      assert head + (Collect(f, a[1..]) + Collect(f, b)) == (head + Collect(f, a[1..])) + Collect(f, b);
    }
  }

  /** Where the head of one ordering sits in another, and what is left of the other without it. */
  lemma FindHead<A>(a: seq<A>, b: seq<A>) returns (k: nat)
    requires a != [] && multiset(a) == multiset(b)
    ensures k < |b| && b[k] == a[0]
    ensures b == b[..k] + [b[k]] + b[k + 1..]
    ensures multiset(a[1..]) == multiset(b[..k] + b[k + 1..])
  {
    assert a[0] in multiset(b);
    k :| 0 <= k < |b| && b[k] == a[0];
    assert b == b[..k] + [b[k]] + b[k + 1..];
    assert a == [a[0]] + a[1..];
    assert multiset(a[1..]) == multiset(a) - multiset{a[0]};
    assert multiset(b[..k] + b[k + 1..]) == multiset(b) - multiset{b[k]};
  }

  lemma {:induction false} CollectIgnoresOrder<A, B>(f: A -> Option<B>, a: seq<A>, b: seq<A>)
    requires multiset(a) == multiset(b)
    ensures multiset(Collect(f, a)) == multiset(Collect(f, b))
    decreases |a|
  {
    if a == [] {
      assert |multiset(b)| == 0;
    } else {
      var k := FindHead(a, b);
      CollectAppends(f, b[..k] + [b[k]], b[k + 1..]);
      CollectAppends(f, b[..k], [b[k]]);
      CollectAppends(f, b[..k], b[k + 1..]);
      CollectIgnoresOrder(f, a[1..], b[..k] + b[k + 1..]);
      assert Collect(f, [b[k]]) == Kept(f(b[k])) + Collect(f, [b[k]][1..]);
    }
  }

  // ---------------------------------------------------------------------------
  // Closures commute
  // ---------------------------------------------------------------------------

  lemma {:induction false} CutOfConcat(a: seq<Window>, b: seq<Window>, from: int, until: int)
    ensures Cut(a + b, from, until) == Cut(a, from, until) + Cut(b, from, until)
  {
    if a == [] {
      assert a + b == b;
    } else {
      assert (a + b)[1..] == a[1..] + b;
      CutOfConcat(a[1..], b, from, until);
    }
  }

  lemma CutOne(w: Window, from: int, until: int)
    ensures Cut([w], from, until) == Pieces(w, from, until)
  {
    assert Cut([w], from, until) == Pieces(w, from, until) + Cut([w][1..], from, until);
  }

  lemma CutPieces(w: Window, f: int, u: int, from: int, until: int)
    requires w.startMin < w.endMin && f < u && from < until
    ensures Cut(Pieces(w, f, u), from, until)
         == (if u <= w.startMin || f >= w.endMin then Pieces(w, from, until)
             else (if f > w.startMin then Pieces(Window(w.startMin, f), from, until) else [])
                  + (if u < w.endMin then Pieces(Window(u, w.endMin), from, until) else []))
  {
    var left, right := Window(w.startMin, f), Window(u, w.endMin);
    CutOne(w, from, until);
    CutOne(left, from, until);
    CutOne(right, from, until);
    CutOfConcat([left], [right], from, until);
  }

  lemma PiecesCommuteInOrder(w: Window, f1: int, u1: int, f2: int, u2: int)
    requires w.startMin < w.endMin && f1 < u1 && f2 < u2 && f1 <= f2
    ensures Cut(Pieces(w, f1, u1), f2, u2) == Cut(Pieces(w, f2, u2), f1, u1)
  {
    CutPieces(w, f1, u1, f2, u2);
    CutPieces(w, f2, u2, f1, u1);
  }

  lemma PiecesCommute(w: Window, f1: int, u1: int, f2: int, u2: int)
    requires w.startMin < w.endMin && f1 < u1 && f2 < u2
    ensures Cut(Pieces(w, f1, u1), f2, u2) == Cut(Pieces(w, f2, u2), f1, u1)
  {
    if f1 <= f2 {
      PiecesCommuteInOrder(w, f1, u1, f2, u2);
    } else {
      PiecesCommuteInOrder(w, f2, u2, f1, u1);
    }
  }

  lemma {:induction false} CutsCommute(ws: seq<Window>, f1: int, u1: int, f2: int, u2: int)
    requires AllNonEmpty(ws) && f1 < u1 && f2 < u2
    ensures Cut(Cut(ws, f1, u1), f2, u2) == Cut(Cut(ws, f2, u2), f1, u1)
  {
    if ws != [] {
      CutsCommute(ws[1..], f1, u1, f2, u2);
      PiecesCommute(ws[0], f1, u1, f2, u2);
      CutOfConcat(Pieces(ws[0], f1, u1), Cut(ws[1..], f1, u1), f2, u2);
      CutOfConcat(Pieces(ws[0], f2, u2), Cut(ws[1..], f2, u2), f1, u1);
    }
  }

  lemma {:induction false} CutKeepsNonEmpty(ws: seq<Window>, from: int, until: int)
    requires AllNonEmpty(ws)
    ensures AllNonEmpty(Cut(ws, from, until))
  {
    if ws != [] {
      CutKeepsNonEmpty(ws[1..], from, until);
    }
  }

  lemma CutBysCommute(ws: seq<Window>, day: int, c: Closure, d: Closure)
    requires AllNonEmpty(ws) && c.Ordered() && d.Ordered()
    ensures CutBy(CutBy(ws, day, c), day, d) == CutBy(CutBy(ws, day, d), day, c)
  {
    if c.onDate == day && d.onDate == day && !c.WholeDay() && !d.WholeDay() {
      CutsCommute(ws, c.startMin.value, c.endMin.value, d.startMin.value, d.endMin.value);
    }
  }

  lemma CutByKeepsNonEmpty(ws: seq<Window>, day: int, c: Closure)
    requires AllNonEmpty(ws)
    ensures AllNonEmpty(CutBy(ws, day, c))
  {
    if c.onDate == day && !c.WholeDay() {
      CutKeepsNonEmpty(ws, c.startMin.value, c.endMin.value);
    }
  }

  lemma {:induction false} CutAllKeepsNonEmpty(ws: seq<Window>, day: int, closures: seq<Closure>)
    requires AllNonEmpty(ws)
    ensures AllNonEmpty(CutAll(ws, day, closures))
    decreases |closures|
  {
    if closures != [] {
      CutByKeepsNonEmpty(ws, day, closures[0]);
      CutAllKeepsNonEmpty(CutBy(ws, day, closures[0]), day, closures[1..]);
    }
  }

  lemma {:induction false} CutAllOfConcat(a: seq<Window>, b: seq<Window>, day: int, closures: seq<Closure>)
    ensures CutAll(a + b, day, closures) == CutAll(a, day, closures) + CutAll(b, day, closures)
    decreases |closures|
  {
    if closures != [] {
      var c := closures[0];
      if c.onDate == day && !c.WholeDay() {
        CutOfConcat(a, b, c.startMin.value, c.endMin.value);
      }
      CutAllOfConcat(CutBy(a, day, c), CutBy(b, day, c), day, closures[1..]);
    }
  }

  /** Any closure may be applied first. */
  lemma {:induction false} MoveToFront(ws: seq<Window>, day: int, closures: seq<Closure>, k: nat)
    requires k < |closures| && AllNonEmpty(ws) && AllOrdered(closures)
    ensures CutAll(ws, day, closures) == CutAll(CutBy(ws, day, closures[k]), day, closures[..k] + closures[k + 1..])
    decreases k
  {
    if k == 0 {
      assert closures[..0] + closures[1..] == closures[1..];
    } else {
      var c, d := closures[0], closures[k];
      var rest := closures[1..];
      var without := closures[..k] + closures[k + 1..];
      CutByKeepsNonEmpty(ws, day, c);
      MoveToFront(CutBy(ws, day, c), day, rest, k - 1);
      CutBysCommute(ws, day, c, d);
      assert without[0] == c && without[1..] == rest[..k - 1] + rest[k..];
    }
  }

  lemma {:induction false} CutAllIgnoresOrder(ws: seq<Window>, day: int, a: seq<Closure>, b: seq<Closure>)
    requires multiset(a) == multiset(b) && AllNonEmpty(ws) && AllOrdered(b)
    ensures CutAll(ws, day, a) == CutAll(ws, day, b)
    decreases |a|
  {
    if a == [] {
      assert |multiset(b)| == 0;
    } else {
      var k := FindHead(a, b);
      var rest := b[..k] + b[k + 1..];
      MoveToFront(ws, day, b, k);
      CutByKeepsNonEmpty(ws, day, a[0]);
      assert AllOrdered(rest);
      CutAllIgnoresOrder(CutBy(ws, day, a[0]), day, a[1..], rest);
    }
  }
}

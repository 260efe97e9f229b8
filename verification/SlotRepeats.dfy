/** A day whose slots repeat: two overrides that the schema admits, with one start. */
module SlotRepeats {
  import opened Common
  import opened OpeningWindows
  import opened Slots
  import opened Zones
  import RowOrder

  /** Starts on the hour, in UTC, for an hour each, asked for at midnight with nothing booked. */
  function FromMidnight(day: int, sched: Schedule): Inputs {
    Inputs(day, day, day * DAY, Policy(UTC, 60, 0, 0), ServiceShape(60, 0, 0), sched, [])
  }

  /** 09:00-12:00 and 09:00-13:00. */
  function TwoOverrides(day: int): Schedule {
    Schedule([], [], [DateOverride(day, 540, 720), DateOverride(day, 540, 780)])
  }

  lemma TwoWindows(day: int)
    ensures OpenWindows(day, TwoOverrides(day)) == [Window(540, 720), Window(540, 780)]
  {
    var a, b := Window(540, 720), Window(540, 780);
    var x, y := DateOverride(day, 540, 720), DateOverride(day, 540, 780);
    assert [x, y] + [] == [x, y] && [a, b] + [] == [a, b];
    RowOrder.CollectPair(OverrideOn(day), x, y, []);
    assert Template(day, TwoOverrides(day)) == [a, b];
    RowOrder.SortOfTwo(ByStart, a, b, []);
    assert Insert(ByStart, a, [b]) == [a, b];
    RowOrder.NonEmptyKeepsAll([a, b]);
  }

  /** The start at this many hours past midnight. */
  function Hour(day: int, h: int): Instant {
    day * DAY + h * HOUR
  }

  lemma HourIsOffered(day: int, sched: Schedule, h: int)
    requires 0 <= h < 24
    ensures SlotAt(FromMidnight(day, sched), UTC.toInstant(day, h * 60)) == [Hour(day, h)]
  {
  }

  /** The hours from `h` up to `until`. */
  function Hours(day: int, h: int, until: int): seq<Instant>
    decreases until - h
  {
    if h >= until then [] else [Hour(day, h)] + Hours(day, h + 1, until)
  }

  lemma {:induction false} WindowOfHours(day: int, sched: Schedule, h: int, until: int)
    requires 0 <= h <= until <= 24
    ensures WindowSlots(FromMidnight(day, sched), day, h * 60, until * 60) == Hours(day, h, until)
    decreases until - h
  {
    if h < until {
      HourIsOffered(day, sched, h);
      WindowOfHours(day, sched, h + 1, until);
    }
  }

  lemma NineToTwelve(day: int)
    ensures Hours(day, 9, 12) == [Hour(day, 9), Hour(day, 10), Hour(day, 11)]
    ensures Hours(day, 9, 13) == [Hour(day, 9), Hour(day, 10), Hour(day, 11), Hour(day, 12)]
  {
    assert Hours(day, 12, 12) == [] && Hours(day, 12, 13) == [Hour(day, 12)] + Hours(day, 13, 13);
    assert Hours(day, 11, 12) == [Hour(day, 11)] && Hours(day, 11, 13) == [Hour(day, 11), Hour(day, 12)];
  }

  lemma SevenSlots(day: int)
    ensures var x := FromMidnight(day, TwoOverrides(day));
            DaySlots(x, day, OpenWindows(day, x.sched)) == [Hour(day, 9), Hour(day, 10), Hour(day, 11),
                                                            Hour(day, 9), Hour(day, 10), Hour(day, 11), Hour(day, 12)]
  {
    var x := FromMidnight(day, TwoOverrides(day));
    TwoWindows(day);
    WindowOfHours(day, x.sched, 9, 12);
    WindowOfHours(day, x.sched, 9, 13);
    NineToTwelve(day);
    TwoWindowsOfSlots(x, day, Window(540, 720), Window(540, 780));
  }

  lemma Today(day: int)
    ensures FromMidnight(day, TwoOverrides(day)).LastBookableDay() == day
  {
    ShownAgain(day, 0);
  }

  lemma MorningIsAnswered(day: int)
    ensures Answer(FromMidnight(day, TwoOverrides(day)), day).slots
         == [Hour(day, 9), Hour(day, 10), Hour(day, 11), Hour(day, 9), Hour(day, 10), Hour(day, 11), Hour(day, 12)]
  {
    TwoWindows(day);
    Today(day);
    SevenSlots(day);
  }

  /** Of the seven slots of the day, 09:00, 10:00 and 11:00 are listed twice. */
  lemma MorningIsListedTwice(day: int)
    ensures var x := FromMidnight(day, TwoOverrides(day));
      && x.Valid() && x.policy.zone.Lawful() && !FitsInTurn(x, day, OpenWindows(day, x.sched))
      && Answer(x, day).slots == [Hour(day, 9), Hour(day, 10), Hour(day, 11),
                                  Hour(day, 9), Hour(day, 10), Hour(day, 11), Hour(day, 12)]
  {
    var x := FromMidnight(day, TwoOverrides(day));
    UtcIsLawful();
    MorningIsAnswered(day);
    AlwaysAscendsExactly(x, day);
    assert SameGrid(x, x);
    assert Answer(x, day).slots[0] == Answer(x, day).slots[3];
  }

  lemma TwoWindowsOfSlots(x: Inputs, day: int, a: Window, b: Window)
    requires x.Valid()
    ensures DaySlots(x, day, [a, b])
         == WindowSlots(x, day, a.startMin, a.endMin) + WindowSlots(x, day, b.startMin, b.endMin)
  {
    DayAppends(x, day, [a], b);
    DayAppends(x, day, [], a);
    assert [a] + [b] == [a, b] && [] + [a] == [a];
  }
}

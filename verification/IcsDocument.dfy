/** One VEVENT in a VCALENDAR, as the writer assembles it and as a reader takes it apart. */
module IcsDocument {
  import opened Common
  import opened IcsText
  import opened UtcCalendar

  // ---------------------------------------------------------------------------
  // Date values
  // ---------------------------------------------------------------------------

  /** `isNaN(date.getTime())` or a time value. */
  datatype Date = NotATime | At(time: TimeValue)

  function Digit(n: int): char
    requires 0 <= n <= 9
  {
    '0' + n as char
  }

  function Two(n: int): string
    requires 0 <= n <= 99
  {
    [Digit(n / 10), Digit(n % 10)]
  }

  function Four(n: int): string
    requires 0 <= n <= 9999
  {
    Two(n / 100) + Two(n % 100)
  }

  /** The number two decimal digits stand for. */
  function Number(tens: char, ones: char): int {
    10 * (tens as int - '0' as int) + (ones as int - '0' as int)
  }

  /** Four digits, or a sign and six outside the years 0 to 9999. */
  function IsoYear(year: int): string
    requires -999_999 <= year <= 999_999
  {
    if 0 <= year <= 9999 then Four(year)
    else
      var n := if year < 0 then -year else year;
      [if year < 0 then '-' else '+'] + Two(n / 10_000) + Four(n % 10_000)
  }

  /** Outside four digits the year is a sign and six digits. */
  lemma LongYearReadsBack(year: int)
    requires -999_999 <= year <= 999_999
    ensures var s := IsoYear(year);
      && (0 <= year <= 9999 <==> |s| == 4) && (|s| != 4 ==> |s| == 7)
      && (|s| == 7 ==> (s[0] == if year < 0 then '-' else '+'))
      && (|s| == 7 ==> 10_000 * Number(s[1], s[2]) + 100 * Number(s[3], s[4]) + Number(s[5], s[6])
                       == if year < 0 then -year else year)
  {
  }

  function IsoDate(u: Utc): (s: string)
    requires u.Valid()
    ensures |s| >= 10
  {
    IsoYear(u.year) + "-" + Two(u.month) + "-" + Two(u.day)
  }

  function IsoTime(u: Utc): (s: string)
    requires u.Valid()
    ensures |s| == 14
  {
    "T" + Two(u.hour) + ":" + Two(u.minute) + ":" + Two(u.second) + "." + [Digit(u.ms / 100)] + Two(u.ms % 100) + "Z"
  }

  /** `Date.prototype.toISOString`. */
  function ToIso(u: Utc): (s: string)
    requires u.Valid()
    ensures |s| >= 24
  {
    IsoDate(u) + IsoTime(u)
  }

  function FormatIcsUtc(u: Utc): string
    requires u.Valid()
  {
    var iso := ToIso(u);
    iso[0..4] + iso[5..7] + iso[8..10] + "T" + iso[11..13] + iso[14..16] + iso[17..19] + "Z"
  }

  predicate IsDigit(c: char) {
    '0' <= c <= '9'
  }

  function ValueOf(c: char): int {
    c as int - '0' as int
  }

  function ReadTwo(s: string, i: nat): Option<int> {
    if i + 2 <= |s| && IsDigit(s[i]) && IsDigit(s[i + 1]) then Some(10 * ValueOf(s[i]) + ValueOf(s[i + 1])) else None
  }

  /** FORM #2 of section 3.3.5 of RFC 5545: date with UTC time, to the second. */
  function ReadUtc(s: string): Option<Utc> {
    if |s| != 16 || s[8] != 'T' || s[15] != 'Z' then None
    else
      match (ReadTwo(s, 0), ReadTwo(s, 2), ReadTwo(s, 4), ReadTwo(s, 6), ReadTwo(s, 9), ReadTwo(s, 11), ReadTwo(s, 13))
      case (Some(c), Some(y), Some(mo), Some(d), Some(h), Some(mi), Some(sec)) =>
        Some(Utc(100 * c + y, mo, d, h, mi, sec, 0))
      case _ => None
  }

  /** The compact form, spelled out. */
  function Compact(u: Utc): string
    requires u.Valid() && 0 <= u.year <= 9999
  {
    Two(u.year / 100) + Two(u.year % 100) + Two(u.month) + Two(u.day) + "T"
    + Two(u.hour) + Two(u.minute) + Two(u.second) + "Z"
  }

  lemma DateSlices(u: Utc)
    requires u.Valid() && 0 <= u.year <= 9999
    ensures |IsoDate(u)| == 10
    ensures IsoDate(u)[0..4] == Four(u.year) && IsoDate(u)[5..7] == Two(u.month) && IsoDate(u)[8..10] == Two(u.day)
  {
  }

  lemma TimeSlices(u: Utc)
    requires u.Valid()
    ensures IsoTime(u)[1..3] == Two(u.hour) && IsoTime(u)[4..6] == Two(u.minute) && IsoTime(u)[7..9] == Two(u.second)
    ensures IsoTime(u)[9] == '.' && 10 * Number(IsoTime(u)[10], IsoTime(u)[11]) + ValueOf(IsoTime(u)[12]) == u.ms
  {
  }

  lemma FormatIsCompact(u: Utc)
    requires u.Valid() && 0 <= u.year <= 9999
    ensures FormatIcsUtc(u) == Compact(u)
  {
    var iso, date, time := ToIso(u), IsoDate(u), IsoTime(u);
    DateSlices(u);
    TimeSlices(u);
    assert iso[0..4] == date[0..4] && iso[5..7] == date[5..7] && iso[8..10] == date[8..10];
    assert iso[11..13] == time[1..3] && iso[14..16] == time[4..6] && iso[17..19] == time[7..9];
  }

  lemma ReadsBackAt(s: string, i: nat, n: int)
    requires 0 <= n <= 99 && i + 2 <= |s| && s[i] == Digit(n / 10) && s[i + 1] == Digit(n % 10)
    ensures ReadTwo(s, i) == Some(n)
  {
  }

  lemma CompactDate(u: Utc)
    requires u.Valid() && 0 <= u.year <= 9999
    ensures |Compact(u)| == 16 && Compact(u)[8] == 'T' && Compact(u)[15] == 'Z'
    ensures ReadTwo(Compact(u), 0) == Some(u.year / 100) && ReadTwo(Compact(u), 2) == Some(u.year % 100)
    ensures ReadTwo(Compact(u), 4) == Some(u.month) && ReadTwo(Compact(u), 6) == Some(u.day)
  {
    ReadsBackAt(Compact(u), 0, u.year / 100);
    ReadsBackAt(Compact(u), 2, u.year % 100);
    ReadsBackAt(Compact(u), 4, u.month);
    ReadsBackAt(Compact(u), 6, u.day);
  }

  lemma CompactTime(u: Utc)
    requires u.Valid() && 0 <= u.year <= 9999
    ensures |Compact(u)| == 16
    ensures ReadTwo(Compact(u), 9) == Some(u.hour) && ReadTwo(Compact(u), 11) == Some(u.minute)
    ensures ReadTwo(Compact(u), 13) == Some(u.second)
  {
    ReadsBackAt(Compact(u), 9, u.hour);
    ReadsBackAt(Compact(u), 11, u.minute);
    ReadsBackAt(Compact(u), 13, u.second);
  }

  lemma ReadInvertsCompact(u: Utc)
    requires u.Valid() && 0 <= u.year <= 9999
    ensures ReadUtc(Compact(u)) == Some(u.(ms := 0))
  {
    CompactDate(u);
    CompactTime(u);
    assert 100 * (u.year / 100) + u.year % 100 == u.year;
  }

  /** The value reads back as the instant's own second exactly when its year has four digits. */
  lemma DateReadsBackExactly(u: Utc)
    requires u.Valid()
    ensures ReadUtc(FormatIcsUtc(u)) == Some(u.(ms := 0)) <==> 0 <= u.year <= 9999
    ensures ReadUtc(FormatIcsUtc(u)) == None <==> !(0 <= u.year <= 9999)
  {
    if 0 <= u.year <= 9999 {
      FormatIsCompact(u);
      ReadInvertsCompact(u);
    } else {
      assert ToIso(u)[0] == if u.year < 0 then '-' else '+';
      assert FormatIcsUtc(u)[0] == ToIso(u)[0];
    }
  }

  /** Year, month, day, `T`, hour, minute, second, `Z`, each field in its own columns. */
  lemma DateShowsItsFields(u: Utc)
    requires u.Valid() && 0 <= u.year <= 9999
    ensures var s := FormatIcsUtc(u);
      && |s| == 16 && s[8] == 'T' && s[15] == 'Z'
      && 100 * Number(s[0], s[1]) + Number(s[2], s[3]) == u.year
      && Number(s[4], s[5]) == u.month && Number(s[6], s[7]) == u.day
      && Number(s[9], s[10]) == u.hour && Number(s[11], s[12]) == u.minute && Number(s[13], s[14]) == u.second
      && forall i :: 0 <= i < 16 && i !in {8, 15} ==> '0' <= s[i] <= '9'
  {
    FormatIsCompact(u);
  }

  /** What the file shows of an instant. */
  function Shown(t: TimeValue): string {
    UtcIsValid(t);
    FormatIcsUtc(UtcOf(t))
  }

  /** The instant a reader makes of a date value. */
  function ReadInstant(s: string): Option<Instant> {
    var u := ReadUtc(s);
    if u.Some? && 1 <= u.value.month <= 12 then Some(InstantOf(u.value)) else None
  }

  lemma ShownFieldsReadBack(t: Instant, u: Utc)
    requires u.Valid() && InstantOf(u) == t && u.ms == t % 1000
    ensures ReadInstant(FormatIcsUtc(u)) == Some(t - t % 1000) <==> 0 <= u.year <= 9999
  {
    DateReadsBackExactly(u);
    WithoutMilliseconds(u);
  }

  /** An instant reads back to its own second if and only if it falls in the years 0 to 9999. */
  lemma InstantReadsBackExactly(t: TimeValue)
    ensures ReadInstant(Shown(t)) == Some(t - t % 1000) <==> YEAR_ZERO <= t < YEAR_TEN_THOUSAND
  {
    UtcFacts(t);
    ShownFieldsReadBack(t, UtcOf(t));
  }

  predicate Plain(s: string) {
    Lacks(s, {'\r', '\n', '\\'})
  }

  lemma PlainAppends(a: string, b: string)
    requires Plain(a) && Plain(b)
    ensures Plain(a + b)
  {
  }

  lemma TwoIsPlain(n: int)
    requires 0 <= n <= 99
    ensures Plain(Two(n))
  {
  }

  lemma IsoDateIsPlain(u: Utc)
    requires u.Valid()
    ensures Plain(IsoDate(u))
  {
    PlainAppends(IsoYear(u.year), "-");
    TwoIsPlain(u.month);
    PlainAppends(IsoYear(u.year) + "-", Two(u.month));
    PlainAppends(IsoYear(u.year) + "-" + Two(u.month), "-");
    TwoIsPlain(u.day);
    PlainAppends(IsoYear(u.year) + "-" + Two(u.month) + "-", Two(u.day));
  }

  lemma IsoTimeIsPlain(u: Utc)
    requires u.Valid()
    ensures Plain(IsoTime(u)[..9])
  {
    var t := IsoTime(u);
    assert t[..9] == "T" + Two(u.hour) + ":" + Two(u.minute) + ":" + Two(u.second);
    TwoIsPlain(u.hour);
    TwoIsPlain(u.minute);
    TwoIsPlain(u.second);
  }

  lemma SlicesArePlain(s: string, i: nat, j: nat)
    requires Plain(s) && i <= j <= |s|
    ensures Plain(s[i..j])
  {
  }

  lemma ReachedSlice(front: string, back: string, i: nat, j: nat)
    requires Plain(front) && i <= j <= |front|
    ensures Plain((front + back)[i..j])
  {
    assert (front + back)[i..j] == front[i..j];
    SlicesArePlain(front, i, j);
  }

  /** What the slices can reach of the ISO form holds no character that needs escaping. */
  lemma DateIsPlain(u: Utc)
    requires u.Valid()
    ensures Plain(FormatIcsUtc(u))
  {
    var iso := ToIso(u);
    IsoDateIsPlain(u);
    IsoTimeIsPlain(u);
    var reach := IsoDate(u) + IsoTime(u)[..9];
    PlainAppends(IsoDate(u), IsoTime(u)[..9]);
    assert |IsoDate(u)| >= 10 && iso == reach + IsoTime(u)[9..];
    forall i: nat, j: nat | i <= j <= 19 ensures Plain(iso[i..j]) {
      ReachedSlice(reach, IsoTime(u)[9..], i, j);
    }
    PlainAppends(iso[0..4], iso[5..7]);
    PlainAppends(iso[0..4] + iso[5..7], iso[8..10]);
    PlainAppends(iso[0..4] + iso[5..7] + iso[8..10], "T");
    PlainAppends(iso[0..4] + iso[5..7] + iso[8..10] + "T", iso[11..13]);
    PlainAppends(iso[0..4] + iso[5..7] + iso[8..10] + "T" + iso[11..13], iso[14..16]);
    PlainAppends(iso[0..4] + iso[5..7] + iso[8..10] + "T" + iso[11..13] + iso[14..16], iso[17..19]);
  }

  lemma ShownIsPlain(t: TimeValue)
    ensures Plain(Shown(t))
  {
    UtcIsValid(t);
    DateIsPlain(UtcOf(t));
  }

  // ---------------------------------------------------------------------------
  // Numbers
  // ---------------------------------------------------------------------------

  function Decimal(n: nat): string {
    if n < 10 then [Digit(n)] else Decimal(n / 10) + [Digit(n % 10)]
  }

  function ReadDecimal(s: string): int {
    if s == [] then 0 else 10 * ReadDecimal(s[..|s| - 1]) + ValueOf(s[|s| - 1])
  }

  lemma {:induction false} DecimalReadsBack(n: nat)
    ensures ReadDecimal(Decimal(n)) == n
    ensures Plain(Decimal(n))
  {
    if n < 10 {
      assert [Digit(n)][..0] == [];
      assert ReadDecimal([Digit(n)]) == 10 * ReadDecimal([Digit(n)][..0]) + n;
    } else {
      DecimalReadsBack(n / 10);
      assert (Decimal(n / 10) + [Digit(n % 10)])[..|Decimal(n / 10)|] == Decimal(n / 10);
    }
  }

  // ---------------------------------------------------------------------------
  // Content lines
  // ---------------------------------------------------------------------------

  /** A property of the file before it is written: free text, or a value that needs no escaping. */
  datatype Item = Text(name: string, text: string) | Value(name: string, value: string)

  /** A property as a reader sees it. */
  datatype Property = Property(name: string, value: string)

  function Line(name: string, value: string): string {
    name + ":" + value
  }

  function LineOf(item: Item): string {
    match item
    case Text(name, text) => Line(name, EscapeIcsText(text))
    case Value(name, value) => Line(name, value)
  }

  function MeaningOf(item: Item): Property {
    match item
    case Text(name, text) => Property(name, OneNewline(text))
    case Value(name, value) => Property(name, value)
  }

  function LinesOf(items: seq<Item>): seq<string> {
    if items == [] then [] else [LineOf(items[0])] + LinesOf(items[1..])
  }

  function MeaningsOf(items: seq<Item>): seq<Property> {
    if items == [] then [] else [MeaningOf(items[0])] + MeaningsOf(items[1..])
  }

  /** `lines.map(foldIcsLine).join(CRLF)` and a final line break. */
  function Document(lines: seq<string>): string {
    if lines == [] then [] else Fold(lines[0]) + CRLF + Document(lines[1..])
  }

  // ---------------------------------------------------------------------------
  // The reader: unfold, split into lines, split at the colon, unescape
  // ---------------------------------------------------------------------------

  function ColonIn(s: string): (i: nat)
    ensures i <= |s|
    ensures i < |s| ==> s[i] == ':'
  {
    if s == [] || s[0] == ':' then 0 else 1 + ColonIn(s[1..])
  }

  function ReadLine(line: string): Property {
    var i := ColonIn(line);
    if i == |line| then Property(line, "") else Property(line[..i], Unescape(line[i + 1..]))
  }

  function ReadLines(lines: seq<string>): seq<Property> {
    if lines == [] then [] else [ReadLine(lines[0])] + ReadLines(lines[1..])
  }

  function Read(document: string): seq<Property> {
    ReadLines(Lines(Unfold(document)))
  }

  predicate NameOk(name: string) {
    name != [] && Lacks(name, {':', '\r', '\n', ' ', '\t'})
  }

  predicate ItemOk(item: Item) {
    NameOk(item.name) && (item.Value? ==> Plain(item.value))
  }

  ghost predicate ItemsOk(items: seq<Item>) {
    forall item :: item in items ==> ItemOk(item)
  }

  // ---------------------------------------------------------------------------
  // Reading undoes writing
  // ---------------------------------------------------------------------------

  lemma {:induction false} ColonAfterName(name: string, value: string)
    requires Lacks(name, {':'})
    ensures ColonIn(Line(name, value)) == |name|
  {
    if name == [] {
      assert Line(name, value)[0] == ':';
    } else {
      assert name[0] !in {':'};
      assert Line(name, value)[1..] == Line(name[1..], value);
      assert forall i :: 0 <= i < |name[1..]| ==> name[1..][i] == name[i + 1];
      ColonAfterName(name[1..], value);
    }
  }

  lemma LackFewer(s: string, bad: set<char>, fewer: set<char>)
    requires Lacks(s, bad) && fewer <= bad
    ensures Lacks(s, fewer)
  {
  }

  lemma LineReadsBack(item: Item)
    requires ItemOk(item)
    ensures ReadLine(LineOf(item)) == MeaningOf(item)
  {
    LackFewer(item.name, {':', '\r', '\n', ' ', '\t'}, {':'});
    match item
    case Text(name, text) =>
      ColonAfterName(name, EscapeIcsText(text));
      assert Line(name, EscapeIcsText(text))[|name| + 1..] == EscapeIcsText(text);
      UnescapeInvertsEscape(text);
    case Value(name, value) =>
      ColonAfterName(name, value);
      assert Line(name, value)[|name| + 1..] == value;
      LackFewer(value, {'\r', '\n', '\\'}, {'\\'});
      UnescapeLeavesPlain(value);
  }

  /** A content line is one that folding and splitting can be undone on. */
  predicate LineOk(line: string) {
    line != [] && Lacks(line, {'\r', '\n'}) && !StartsBlank(line)
  }

  lemma LineIsOk(item: Item)
    requires ItemOk(item)
    ensures LineOk(LineOf(item))
  {
    var value := if item.Text? then EscapeIcsText(item.text) else item.value;
    if item.Text? {
      EscapedHasNoBreaks(item.text);
    } else {
      LackFewer(value, {'\r', '\n', '\\'}, {'\r', '\n'});
    }
    assert LineOf(item) == item.name + ":" + value;
    assert item.name[0] !in {':', '\r', '\n', ' ', '\t'};
    LackFewer(item.name, {':', '\r', '\n', ' ', '\t'}, {'\r', '\n'});
  }

  ghost predicate LinesOk(lines: seq<string>) {
    forall l :: l in lines ==> LineOk(l)
  }

  lemma {:induction false} LinesAreOk(items: seq<Item>)
    requires ItemsOk(items)
    ensures LinesOk(LinesOf(items))
  {
    if items != [] {
      LineIsOk(items[0]);
      LinesAreOk(items[1..]);
    }
  }

  /** The same document with nothing folded. */
  function Unfolded(lines: seq<string>): string {
    if lines == [] then [] else lines[0] + CRLF + Unfolded(lines[1..])
  }

  lemma UnfoldedStart(lines: seq<string>)
    requires LinesOk(lines)
    ensures !StartsBlank(Document(lines))
  {
    if lines != [] {
      var line := lines[0];
      assert LineOk(line);
      FoldStart(line);
      assert Document(lines)[0] == line[0];
    }
  }

  lemma FoldStart(line: string)
    requires line != []
    ensures Fold(line) != [] && Fold(line)[0] == line[0]
  {
    if Size(line) > LINE_OCTETS {
      var pieces := PiecesFrom("", line, LINE_OCTETS);
      assert "" + [line[0]] == [line[0]];
      FirstPieceStart([line[0]], line[1..], LINE_OCTETS);
      assert pieces == PiecesFrom([line[0]], line[1..], LINE_OCTETS);
    }
  }

  lemma {:induction false} UnfoldInvertsFolding(lines: seq<string>)
    requires LinesOk(lines)
    ensures Unfold(Document(lines)) == Unfolded(lines)
  {
    if lines != [] {
      var rest := Document(lines[1..]);
      assert LineOk(lines[0]);
      LackFewer(lines[0], {'\r', '\n'}, {'\r'});
      assert Document(lines) == Fold(lines[0]) + (CRLF + rest);
      UnfoldInvertsFold(lines[0], CRLF + rest);
      UnfoldedStart(lines[1..]);
      UnfoldKeepsBreak(rest);
      UnfoldInvertsFolding(lines[1..]);
      assert lines[0] + (CRLF + Unfold(rest)) == lines[0] + CRLF + Unfold(rest);
    }
  }

  lemma {:induction false} LinesOfUnfolded(lines: seq<string>)
    requires LinesOk(lines)
    ensures Lines(Unfolded(lines)) == lines
  {
    if lines != [] {
      assert LineOk(lines[0]);
      LackFewer(lines[0], {'\r', '\n'}, {'\r'});
      LineEnds(lines[0], Unfolded(lines[1..]));
      LinesOfUnfolded(lines[1..]);
    }
  }

  lemma {:induction false} ItemsReadBack(items: seq<Item>)
    requires ItemsOk(items)
    ensures ReadLines(LinesOf(items)) == MeaningsOf(items)
  {
    if items != [] {
      LineReadsBack(items[0]);
      ItemsReadBack(items[1..]);
      assert LinesOf(items)[1..] == LinesOf(items[1..]);
    }
  }

  lemma ReadInvertsWrite(items: seq<Item>)
    requires ItemsOk(items)
    ensures Lines(Unfold(Document(LinesOf(items)))) == LinesOf(items)
    ensures Read(Document(LinesOf(items))) == MeaningsOf(items)
  {
    LinesAreOk(items);
    UnfoldInvertsFolding(LinesOf(items));
    LinesOfUnfolded(LinesOf(items));
    ItemsReadBack(items);
  }

  /** Every physical line of the file, before unfolding, holds at most 75 octets. */
  lemma {:induction false} PhysicalLinesFit(lines: seq<string>)
    requires LinesOk(lines)
    ensures AllFit(Lines(Document(lines)))
  {
    if lines != [] {
      PhysicalLinesFit(lines[1..]);
      assert LineOk(lines[0]);
      LackFewer(lines[0], {'\r', '\n'}, {'\r'});
      FoldedLinesFit(lines[0], Document(lines[1..]));
    }
  }

  // ---------------------------------------------------------------------------
  // The event
  // ---------------------------------------------------------------------------

  datatype EventStatus = CONFIRMED | TENTATIVE | CANCELLED

  function StatusText(s: EventStatus): string {
    match s
    case CONFIRMED => "CONFIRMED"
    case TENTATIVE => "TENTATIVE"
    case CANCELLED => "CANCELLED"
  }

  datatype Event = Event(uid: string, start: Date, end: Date, summary: string,
                         description: Option<string>, location: Option<string>, timezone: Option<string>,
                         status: Option<EventStatus>, url: Option<string>, stamp: Option<Date>, sequence: Option<nat>)

  datatype IcsError = InvalidStart | InvalidEnd | EndNotAfterStart | InvalidStamp

  function BookingUid(id: string): string {
    "booking-" + id + "@torim"
  }

  /** Two bookings never share a UID, so a calendar updates the entry it should. */
  lemma UidIdentifiesTheBooking(a: string, b: string)
    ensures BookingUid(a) == BookingUid(b) <==> a == b
    ensures |BookingUid(a)| == |a| + 14 && "booking-" <= BookingUid(a) && BookingUid(a)[|a| + 8..] == "@torim"
  {
    assert BookingUid(a)[|a| + 8..] == "@torim";
    if BookingUid(a) == BookingUid(b) {
      var n := |"booking-"|;
      assert |BookingUid(a)| == n + |a| + |"@torim"| && |BookingUid(b)| == n + |b| + |"@torim"|;
      assert BookingUid(a)[n..n + |a|] == a && BookingUid(b)[n..n + |b|] == b;
    }
  }

  /** An optional field that is absent or empty writes no line. */
  function Optional(name: string, text: Option<string>): seq<Item> {
    if text.Some? && text.value != [] then [Text(name, text.value)] else []
  }

  function Or<T>(o: Option<T>, default: T): T {
    if o.Some? then o.value else default
  }

  function Opening(): seq<Item> {
    [Value("BEGIN", "VCALENDAR"), Value("VERSION", "2.0"), Value("PRODID", "-//Torim//Booking//EN"),
     Value("CALSCALE", "GREGORIAN"), Value("METHOD", "PUBLISH")]
  }

  function Core(e: Event, start: string, end: string, stamp: string): seq<Item> {
    [Value("BEGIN", "VEVENT"), Text("UID", e.uid), Value("DTSTAMP", stamp), Value("DTSTART", start),
     Value("DTEND", end), Text("SUMMARY", e.summary)]
  }

  function Closing(e: Event): seq<Item> {
    [Value("STATUS", StatusText(Or(e.status, CONFIRMED))), Value("SEQUENCE", Decimal(Or(e.sequence, 0))),
     Value("TRANSP", "OPAQUE"), Value("END", "VEVENT"), Value("END", "VCALENDAR")]
  }

  function Items(e: Event, start: string, end: string, stamp: string): seq<Item> {
    Opening() + Optional("X-WR-TIMEZONE", e.timezone) + Core(e, start, end, stamp)
    + Optional("DESCRIPTION", e.description) + Optional("LOCATION", e.location) + Optional("URL", e.url)
    + Closing(e)
  }

  lemma CalendarNamesAreOk()
    ensures NameOk("BEGIN") && NameOk("VERSION") && NameOk("PRODID") && NameOk("CALSCALE") && NameOk("METHOD")
    ensures NameOk("X-WR-TIMEZONE") && NameOk("END")
  {
  }

  lemma EventNamesAreOk()
    ensures NameOk("UID") && NameOk("DTSTAMP") && NameOk("DTSTART") && NameOk("DTEND") && NameOk("SUMMARY")
    ensures NameOk("STATUS") && NameOk("SEQUENCE") && NameOk("TRANSP")
  {
  }

  lemma OptionalNamesAreOk()
    ensures NameOk("DESCRIPTION") && NameOk("LOCATION") && NameOk("URL")
  {
  }

  lemma ConstantsArePlain()
    ensures Plain("VCALENDAR") && Plain("2.0") && Plain("-//Torim//Booking//EN") && Plain("GREGORIAN")
    ensures Plain("PUBLISH") && Plain("VEVENT") && Plain("OPAQUE")
    ensures forall s: EventStatus :: Plain(StatusText(s))
  {
  }

  lemma ItemsAreOk(e: Event, start: string, end: string, stamp: string)
    requires Plain(start) && Plain(end) && Plain(stamp)
    ensures ItemsOk(Items(e, start, end, stamp))
  {
    CalendarNamesAreOk();
    EventNamesAreOk();
    OptionalNamesAreOk();
    ConstantsArePlain();
    DecimalReadsBack(Or(e.sequence, 0));
    assert ItemsOk(Opening()) && ItemsOk(Core(e, start, end, stamp)) && ItemsOk(Closing(e));
  }

  // ---------------------------------------------------------------------------
  // Looking a property up
  // ---------------------------------------------------------------------------

  /** The value of the first property of this name. */
  function Named(properties: seq<Property>, name: string): Option<string> {
    if properties == [] then None
    else if properties[0].name == name then Some(properties[0].value)
    else Named(properties[1..], name)
  }

  ghost predicate NoneNamed(items: seq<Item>, name: string) {
    forall i :: 0 <= i < |items| ==> items[i].name != name
  }

  lemma {:induction false} FoundAfter(front: seq<Item>, item: Item, back: seq<Item>)
    requires NoneNamed(front, item.name)
    ensures Named(MeaningsOf(front + ([item] + back)), item.name) == Some(MeaningOf(item).value)
  {
    if front == [] {
      assert [] + ([item] + back) == [item] + back;
      assert MeaningsOf([item] + back)[0] == MeaningOf(item);
    } else {
      var all, rest := front + ([item] + back), front[1..] + ([item] + back);
      assert all[0] == front[0] && all[1..] == rest;
      assert MeaningsOf(all)[0] == MeaningOf(front[0]) && MeaningsOf(all)[1..] == MeaningsOf(rest);
      FoundAfter(front[1..], item, back);
    }
  }

  lemma {:induction false} NotFound(items: seq<Item>, name: string)
    requires NoneNamed(items, name)
    ensures Named(MeaningsOf(items), name) == None
  {
    if items != [] {
      assert MeaningsOf(items)[0] == MeaningOf(items[0]) && MeaningsOf(items)[1..] == MeaningsOf(items[1..]);
      NotFound(items[1..], name);
    }
  }

  /** An optional field is found exactly when it has something to say. */
  lemma OptionalReadsBack(front: seq<Item>, name: string, text: Option<string>, back: seq<Item>)
    requires NoneNamed(front, name) && NoneNamed(back, name)
    ensures Named(MeaningsOf(front + Optional(name, text) + back), name)
         == if text.Some? && text.value != "" then Some(OneNewline(text.value)) else None
  {
    if Optional(name, text) == [] {
      NotFound(front + Optional(name, text) + back, name);
    } else {
      assert front + Optional(name, text) + back == front + ([Text(name, text.value)] + back);
      FoundAfter(front, Text(name, text.value), back);
    }
  }

  /** A field of a fixed part is found when nothing in front of it has its name. */
  lemma PartReadsBack(front: seq<Item>, part: seq<Item>, back: seq<Item>, i: nat)
    requires i < |part| && NoneNamed(front, part[i].name) && NoneNamed(part[..i], part[i].name)
    ensures Named(MeaningsOf(front + part + back), part[i].name) == Some(MeaningOf(part[i]).value)
  {
    assert front + part + back == (front + part[..i]) + ([part[i]] + (part[i + 1..] + back));
    FoundAfter(front + part[..i], part[i], part[i + 1..] + back);
  }

  lemma NotInOpening(name: string)
    requires name !in {"BEGIN", "VERSION", "PRODID", "CALSCALE", "METHOD"}
    ensures NoneNamed(Opening(), name)
  {
  }

  lemma NotInCore(e: Event, start: string, end: string, stamp: string, name: string)
    requires name !in {"BEGIN", "UID", "DTSTAMP", "DTSTART", "DTEND", "SUMMARY"}
    ensures NoneNamed(Core(e, start, end, stamp), name)
  {
  }

  lemma NotInClosing(e: Event, name: string)
    requires name !in {"STATUS", "SEQUENCE", "TRANSP", "END"}
    ensures NoneNamed(Closing(e), name)
  {
  }

  lemma NotInOptionals(e: Event, name: string)
    requires name !in {"DESCRIPTION", "LOCATION", "URL"}
    ensures NoneNamed(Optional("DESCRIPTION", e.description) + Optional("LOCATION", e.location) + Optional("URL", e.url),
                      name)
  {
  }

  lemma Regrouped(a: seq<Item>, b: seq<Item>, c: seq<Item>, d: seq<Item>, f: seq<Item>, g: seq<Item>, h: seq<Item>)
    ensures a + b + c + d + f + g + h == (a + b) + c + (d + f + g + h)
    ensures a + b + c + d + f + g + h == (a + b + c + (d + f + g)) + h + []
  {
  }

  lemma CoreReadsBack(e: Event, start: string, end: string, stamp: string)
    ensures var properties := MeaningsOf(Items(e, start, end, stamp));
      && Named(properties, "UID") == Some(OneNewline(e.uid))
      && Named(properties, "DTSTAMP") == Some(stamp)
      && Named(properties, "DTSTART") == Some(start)
      && Named(properties, "DTEND") == Some(end)
      && Named(properties, "SUMMARY") == Some(OneNewline(e.summary))
  {
    var core, back := Core(e, start, end, stamp), Optional("DESCRIPTION", e.description)
                      + Optional("LOCATION", e.location) + Optional("URL", e.url) + Closing(e);
    var front := Opening() + Optional("X-WR-TIMEZONE", e.timezone);
    Regrouped(Opening(), Optional("X-WR-TIMEZONE", e.timezone), core, Optional("DESCRIPTION", e.description),
              Optional("LOCATION", e.location), Optional("URL", e.url), Closing(e));
    CoreNames(e, start, end, stamp);
    PartReadsBack(front, core, back, 1);
    PartReadsBack(front, core, back, 2);
    PartReadsBack(front, core, back, 3);
    PartReadsBack(front, core, back, 4);
    PartReadsBack(front, core, back, 5);
  }

  lemma CoreNames(e: Event, start: string, end: string, stamp: string)
    ensures var core := Core(e, start, end, stamp);
      forall i :: 1 <= i < 6 ==>
        NoneNamed(Opening() + Optional("X-WR-TIMEZONE", e.timezone), core[i].name) && NoneNamed(core[..i], core[i].name)
  {
  }

  /** A calendar told CANCELLED or a later sequence reads just that. */
  lemma ClosingReadsBack(e: Event, start: string, end: string, stamp: string)
    ensures var properties := MeaningsOf(Items(e, start, end, stamp));
      && Named(properties, "STATUS") == Some(StatusText(Or(e.status, CONFIRMED)))
      && Named(properties, "SEQUENCE") == Some(Decimal(Or(e.sequence, 0)))
  {
    var options := Optional("DESCRIPTION", e.description) + Optional("LOCATION", e.location) + Optional("URL", e.url);
    var front := Opening() + Optional("X-WR-TIMEZONE", e.timezone) + Core(e, start, end, stamp) + options;
    Regrouped(Opening(), Optional("X-WR-TIMEZONE", e.timezone), Core(e, start, end, stamp),
              Optional("DESCRIPTION", e.description), Optional("LOCATION", e.location), Optional("URL", e.url), Closing(e));
    forall name | name in {"STATUS", "SEQUENCE"} ensures NoneNamed(front, name) {
      NotInOpening(name);
      NotInCore(e, start, end, stamp, name);
      NotInOptionals(e, name);
    }
    PartReadsBack(front, Closing(e), [], 0);
    PartReadsBack(front, Closing(e), [], 1);
  }

  /** One optional field between what comes in front of it and what follows. */
  lemma OneOptionalReadsBack(items: seq<Item>, front: seq<Item>, name: string, text: Option<string>, back: seq<Item>)
    requires items == front + Optional(name, text) + back && NoneNamed(front, name) && NoneNamed(back, name)
    ensures Named(MeaningsOf(items), name)
         == if text.Some? && text.value != "" then Some(OneNewline(text.value)) else None
  {
    OptionalReadsBack(front, name, text, back);
  }

  lemma NotInOptional(name: string, other: string, text: Option<string>)
    requires name != other
    ensures NoneNamed(Optional(other, text), name)
  {
  }

  lemma NotInEither(a: seq<Item>, b: seq<Item>, name: string)
    requires NoneNamed(a, name) && NoneNamed(b, name)
    ensures NoneNamed(a + b, name)
  {
  }

  /** What stands in front of the optional fields. */
  function Lead(e: Event, start: string, end: string, stamp: string): seq<Item> {
    Opening() + Optional("X-WR-TIMEZONE", e.timezone) + Core(e, start, end, stamp)
  }

  lemma NotInLead(e: Event, start: string, end: string, stamp: string, name: string)
    requires name in {"DESCRIPTION", "LOCATION", "URL"}
    ensures NoneNamed(Lead(e, start, end, stamp), name)
  {
    NotInOpening(name);
    NotInOptional(name, "X-WR-TIMEZONE", e.timezone);
    NotInCore(e, start, end, stamp, name);
  }

  lemma DescriptionReadsBack(e: Event, start: string, end: string, stamp: string)
    ensures Named(MeaningsOf(Items(e, start, end, stamp)), "DESCRIPTION")
         == if e.description.Some? && e.description.value != "" then Some(OneNewline(e.description.value)) else None
  {
    var lead, l, u := Lead(e, start, end, stamp), Optional("LOCATION", e.location), Optional("URL", e.url);
    NotInLead(e, start, end, stamp, "DESCRIPTION");
    NotInOptional("DESCRIPTION", "LOCATION", e.location);
    NotInOptional("DESCRIPTION", "URL", e.url);
    NotInClosing(e, "DESCRIPTION");
    NotInEither(l, u, "DESCRIPTION");
    NotInEither(l + u, Closing(e), "DESCRIPTION");
    TailRegroups(lead + Optional("DESCRIPTION", e.description), l, u, Closing(e));
    OneOptionalReadsBack(Items(e, start, end, stamp), lead, "DESCRIPTION", e.description, l + u + Closing(e));
  }

  lemma LocationReadsBack(e: Event, start: string, end: string, stamp: string)
    ensures Named(MeaningsOf(Items(e, start, end, stamp)), "LOCATION")
         == if e.location.Some? && e.location.value != "" then Some(OneNewline(e.location.value)) else None
  {
    var lead, d, u := Lead(e, start, end, stamp), Optional("DESCRIPTION", e.description), Optional("URL", e.url);
    NotInLead(e, start, end, stamp, "LOCATION");
    NotInOptional("LOCATION", "DESCRIPTION", e.description);
    NotInOptional("LOCATION", "URL", e.url);
    NotInClosing(e, "LOCATION");
    NotInEither(lead, d, "LOCATION");
    NotInEither(u, Closing(e), "LOCATION");
    PairRegroups(lead + d + Optional("LOCATION", e.location), u, Closing(e));
    OneOptionalReadsBack(Items(e, start, end, stamp), lead + d, "LOCATION", e.location, u + Closing(e));
  }

  lemma UrlReadsBack(e: Event, start: string, end: string, stamp: string)
    ensures Named(MeaningsOf(Items(e, start, end, stamp)), "URL")
         == if e.url.Some? && e.url.value != "" then Some(OneNewline(e.url.value)) else None
  {
    var lead, d, l := Lead(e, start, end, stamp), Optional("DESCRIPTION", e.description), Optional("LOCATION", e.location);
    NotInLead(e, start, end, stamp, "URL");
    NotInOptional("URL", "DESCRIPTION", e.description);
    NotInOptional("URL", "LOCATION", e.location);
    NotInClosing(e, "URL");
    NotInEither(lead, d, "URL");
    NotInEither(lead + d, l, "URL");
    OneOptionalReadsBack(Items(e, start, end, stamp), lead + d + l, "URL", e.url, Closing(e));
  }

  lemma TailRegroups(front: seq<Item>, a: seq<Item>, b: seq<Item>, c: seq<Item>)
    ensures front + a + b + c == front + (a + b + c)
  {
  }

  lemma PairRegroups(front: seq<Item>, a: seq<Item>, b: seq<Item>)
    ensures front + a + b == front + (a + b)
  {
  }

  lemma {:induction false} MeaningsAppend(a: seq<Item>, b: seq<Item>)
    ensures MeaningsOf(a + b) == MeaningsOf(a) + MeaningsOf(b)
  {
    if a == [] {
      assert a + b == b;
      assert MeaningsOf(a) + MeaningsOf(b) == MeaningsOf(b);
    } else {
      assert (a + b)[1..] == a[1..] + b;
      MeaningsAppend(a[1..], b);
      assert [MeaningOf(a[0])] + (MeaningsOf(a[1..]) + MeaningsOf(b)) == MeaningsOf(a) + MeaningsOf(b);
    }
  }

  /** What a reader makes of an optional field. */
  function Shows(name: string, text: Option<string>): seq<Property> {
    if text.Some? && text.value != "" then [Property(name, OneNewline(text.value))] else []
  }

  lemma {:induction false} MeaningsAt(items: seq<Item>)
    ensures |MeaningsOf(items)| == |items|
    ensures forall i :: 0 <= i < |items| ==> MeaningsOf(items)[i] == MeaningOf(items[i])
  {
    if items != [] {
      MeaningsAt(items[1..]);
    }
  }

  lemma FixedPartsMean(e: Event, start: string, end: string, stamp: string)
    ensures MeaningsOf(Opening()) ==
            [Property("BEGIN", "VCALENDAR"), Property("VERSION", "2.0"), Property("PRODID", "-//Torim//Booking//EN"),
             Property("CALSCALE", "GREGORIAN"), Property("METHOD", "PUBLISH")]
    ensures MeaningsOf(Core(e, start, end, stamp)) ==
            [Property("BEGIN", "VEVENT"), Property("UID", OneNewline(e.uid)), Property("DTSTAMP", stamp),
             Property("DTSTART", start), Property("DTEND", end), Property("SUMMARY", OneNewline(e.summary))]
    ensures MeaningsOf(Closing(e)) ==
            [Property("STATUS", StatusText(Or(e.status, CONFIRMED))), Property("SEQUENCE", Decimal(Or(e.sequence, 0))),
             Property("TRANSP", "OPAQUE"), Property("END", "VEVENT"), Property("END", "VCALENDAR")]
  {
    MeaningsAt(Opening());
    MeaningsAt(Core(e, start, end, stamp));
    MeaningsAt(Closing(e));
  }

  lemma OptionalMeans(name: string, text: Option<string>)
    ensures MeaningsOf(Optional(name, text)) == Shows(name, text)
  {
    MeaningsAt(Optional(name, text));
  }

  lemma SevenMean(a: seq<Item>, b: seq<Item>, c: seq<Item>, d: seq<Item>, f: seq<Item>, g: seq<Item>, h: seq<Item>)
    ensures MeaningsOf(a + b + c + d + f + g + h)
         == MeaningsOf(a) + MeaningsOf(b) + MeaningsOf(c) + MeaningsOf(d) + MeaningsOf(f) + MeaningsOf(g) + MeaningsOf(h)
  {
    MeaningsAppend(a, b);
    MeaningsAppend(a + b, c);
    MeaningsAppend(a + b + c, d);
    MeaningsAppend(a + b + c + d, f);
    MeaningsAppend(a + b + c + d + f, g);
    MeaningsAppend(a + b + c + d + f + g, h);
  }

  /** The whole file as a reader sees it: every property, in order, with its name and its value. */
  lemma FileReadsAs(e: Event, start: string, end: string, stamp: string)
    ensures MeaningsOf(Items(e, start, end, stamp)) ==
            [Property("BEGIN", "VCALENDAR"), Property("VERSION", "2.0"), Property("PRODID", "-//Torim//Booking//EN"),
             Property("CALSCALE", "GREGORIAN"), Property("METHOD", "PUBLISH")]
            + Shows("X-WR-TIMEZONE", e.timezone)
            + [Property("BEGIN", "VEVENT"), Property("UID", OneNewline(e.uid)), Property("DTSTAMP", stamp),
               Property("DTSTART", start), Property("DTEND", end), Property("SUMMARY", OneNewline(e.summary))]
            + Shows("DESCRIPTION", e.description) + Shows("LOCATION", e.location) + Shows("URL", e.url)
            + [Property("STATUS", StatusText(Or(e.status, CONFIRMED))), Property("SEQUENCE", Decimal(Or(e.sequence, 0))),
               Property("TRANSP", "OPAQUE"), Property("END", "VEVENT"), Property("END", "VCALENDAR")]
  {
    SevenMean(Opening(), Optional("X-WR-TIMEZONE", e.timezone), Core(e, start, end, stamp),
              Optional("DESCRIPTION", e.description), Optional("LOCATION", e.location), Optional("URL", e.url), Closing(e));
    FixedPartsMean(e, start, end, stamp);
    OptionalMeans("X-WR-TIMEZONE", e.timezone);
    OptionalMeans("DESCRIPTION", e.description);
    OptionalMeans("LOCATION", e.location);
    OptionalMeans("URL", e.url);
  }

  // ---------------------------------------------------------------------------
  // Every line break is a CRLF
  // ---------------------------------------------------------------------------

  /** No half of a line break stands alone. */
  ghost predicate OnlyCrlfs(s: string) {
    && (forall i :: 0 <= i < |s| && s[i] == '\r' ==> i + 1 < |s| && s[i + 1] == '\n')
    && (forall i :: 0 <= i < |s| && s[i] == '\n' ==> 0 < i && s[i - 1] == '\r')
  }

  lemma CrlfsAppend(a: string, b: string)
    requires OnlyCrlfs(a) && OnlyCrlfs(b)
    ensures OnlyCrlfs(a + b)
  {
    var s := a + b;
    forall i | 0 <= i < |s| && s[i] == '\r' ensures i + 1 < |s| && s[i + 1] == '\n' {
      if i < |a| {
        assert a[i] == '\r';
      } else {
        assert b[i - |a|] == '\r';
      }
    }
    forall i | 0 <= i < |s| && s[i] == '\n' ensures 0 < i && s[i - 1] == '\r' {
      if i < |a| {
        assert a[i] == '\n';
      } else {
        assert b[i - |a|] == '\n';
      }
    }
  }

  lemma BreaklessHasOnlyCrlfs(s: string)
    requires Lacks(s, {'\r', '\n'})
    ensures OnlyCrlfs(s)
  {
  }

  lemma {:induction false} JoinedHasOnlyCrlfs(pieces: seq<string>)
    requires AllLack(pieces, {'\r', '\n'})
    ensures OnlyCrlfs(Join(pieces, FoldBreak()))
  {
    if pieces != [] {
      BreaklessHasOnlyCrlfs(pieces[0]);
      if |pieces| > 1 {
        JoinedHasOnlyCrlfs(pieces[1..]);
        CrlfsAppend(pieces[0], FoldBreak());
        CrlfsAppend(pieces[0] + FoldBreak(), Join(pieces[1..], FoldBreak()));
      }
    }
  }

  lemma FoldedHasOnlyCrlfs(line: string)
    requires Lacks(line, {'\r', '\n'})
    ensures OnlyCrlfs(Fold(line))
  {
    if Size(line) <= LINE_OCTETS {
      BreaklessHasOnlyCrlfs(line);
    } else {
      PiecesLack("", line, LINE_OCTETS, {'\r', '\n'});
      JoinedHasOnlyCrlfs(PiecesFrom("", line, LINE_OCTETS));
    }
  }

  /** The file ends with a CRLF, and every break in it is one. */
  lemma {:induction false} BreaksAreCrlfs(lines: seq<string>)
    requires LinesOk(lines)
    ensures OnlyCrlfs(Document(lines))
    ensures lines != [] ==> |Document(lines)| >= 2 && Document(lines)[|Document(lines)| - 2..] == "\r\n"
  {
    if lines != [] {
      var rest := Document(lines[1..]);
      BreaksAreCrlfs(lines[1..]);
      assert LineOk(lines[0]);
      FoldedHasOnlyCrlfs(lines[0]);
      CrlfsAppend(Fold(lines[0]), CRLF);
      CrlfsAppend(Fold(lines[0]) + CRLF, rest);
      EndsAlike(Fold(lines[0]), rest);
    }
  }

  lemma EndsAlike(a: string, rest: string)
    requires rest == "" || (|rest| >= 2 && rest[|rest| - 2..] == "\r\n")
    ensures var s := a + CRLF + rest; |s| >= 2 && s[|s| - 2..] == "\r\n"
  {
    var s := a + CRLF + rest;
    if rest == "" {
      assert s == a + CRLF;
    } else {
      assert s[|s| - 2..] == rest[|rest| - 2..];
    }
  }

  // ---------------------------------------------------------------------------
  // buildIcs
  // ---------------------------------------------------------------------------

  lemma {:induction false} LinesOfAppend(a: seq<Item>, b: seq<Item>)
    ensures LinesOf(a + b) == LinesOf(a) + LinesOf(b)
  {
    if a == [] {
      assert a + b == b;
      assert LinesOf(a) + LinesOf(b) == LinesOf(b);
    } else {
      assert (a + b)[1..] == a[1..] + b;
      LinesOfAppend(a[1..], b);
      assert [LineOf(a[0])] + (LinesOf(a[1..]) + LinesOf(b)) == LinesOf(a) + LinesOf(b);
    }
  }

  lemma {:induction false} DocumentAppends(a: seq<string>, line: string)
    ensures Document(a + [line]) == Document(a) + Fold(line) + CRLF
  {
    if a == [] {
      assert [] + [line] == [line];
      assert Document([line]) == Fold(line) + CRLF + Document([line][1..]);
      assert Document([line][1..]) == [];
      assert [] + Fold(line) + CRLF == Fold(line) + CRLF + [];
    } else {
      assert (a + [line])[1..] == a[1..] + [line];
      DocumentAppends(a[1..], line);
      assert Fold(a[0]) + CRLF + (Document(a[1..]) + Fold(line) + CRLF)
          == (Fold(a[0]) + CRLF + Document(a[1..])) + Fold(line) + CRLF;
    }
  }

  lemma {:induction false} LinesOfAt(items: seq<Item>)
    ensures |LinesOf(items)| == |items|
    ensures forall i :: 0 <= i < |items| ==> LinesOf(items)[i] == LineOf(items[i])
  {
    if items != [] {
      LinesOfAt(items[1..]);
    }
  }

  lemma OpeningLines()
    ensures LinesOf(Opening()) == [Line("BEGIN", "VCALENDAR"), Line("VERSION", "2.0"),
                                   Line("PRODID", "-//Torim//Booking//EN"), Line("CALSCALE", "GREGORIAN"),
                                   Line("METHOD", "PUBLISH")]
  {
    LinesOfAt(Opening());
  }

  lemma CoreLines(e: Event, start: string, end: string, stamp: string)
    ensures LinesOf(Core(e, start, end, stamp)) ==
            [Line("BEGIN", "VEVENT"), Line("UID", EscapeIcsText(e.uid)), Line("DTSTAMP", stamp), Line("DTSTART", start),
             Line("DTEND", end), Line("SUMMARY", EscapeIcsText(e.summary))]
  {
    LinesOfAt(Core(e, start, end, stamp));
  }

  lemma ClosingLines(e: Event)
    ensures LinesOf(Closing(e)) ==
            [Line("STATUS", StatusText(Or(e.status, CONFIRMED))), Line("SEQUENCE", Decimal(Or(e.sequence, 0))),
             Line("TRANSP", "OPAQUE"), Line("END", "VEVENT"), Line("END", "VCALENDAR")]
  {
    LinesOfAt(Closing(e));
  }

  /** Folds every line, joins them with line breaks and ends with one. */
  method WriteLines(lines: seq<string>) returns (document: string)
    requires lines != []
    ensures document == Document(lines)
  {
    document := FoldIcsLine(lines[0]);
    assert lines[..1] == [lines[0]] && [lines[0]][1..] == [];
    assert Document(lines[..1]) == Fold(lines[0]) + CRLF + Document([lines[0]][1..]);
    assert Document([lines[0]][1..]) == [];
    for i := 1 to |lines|
      invariant document + CRLF == Document(lines[..i])
    {
      var folded := FoldIcsLine(lines[i]);
      DocumentAppends(lines[..i], lines[i]);
      assert lines[..i + 1] == lines[..i] + [lines[i]];
      document := document + CRLF + folded;
    }
    assert lines[..|lines|] == lines;
    document := document + CRLF;
  }

  method PushOptional(lines: seq<string>, name: string, text: Option<string>, ghost items: seq<Item>)
    returns (more: seq<string>)
    requires lines == LinesOf(items)
    ensures more == LinesOf(items + Optional(name, text))
  {
    LinesOfAppend(items, Optional(name, text));
    more := lines;
    if text.Some? && |text.value| > 0 {
      more := more + [Line(name, EscapeIcsText(text.value))];
      assert LinesOf([Text(name, text.value)]) == [LineOf(Text(name, text.value))] + LinesOf([Text(name, text.value)][1..]);
    }
  }

  /** The whole file is what a reader makes of it, property by property. */
  lemma FileReadsBack(e: Event, start: string, end: string, stamp: string, items: seq<Item>, document: string)
    requires Plain(start) && Plain(end) && Plain(stamp)
    requires items == Items(e, start, end, stamp) && document == Document(LinesOf(items))
    ensures Read(document) == MeaningsOf(Items(e, start, end, stamp)) && LinesOk(LinesOf(items)) && LinesOf(items) != []
  {
    ItemsAreOk(e, start, end, stamp);
    ReadInvertsWrite(items);
    LinesAreOk(items);
  }

  lemma FileIsWellFormed(lines: seq<string>, document: string)
    requires LinesOk(lines) && lines != [] && document == Document(lines)
    ensures OnlyCrlfs(document) && |document| >= 2 && document[|document| - 2..] == "\r\n"
    ensures forall l :: l in Lines(document) ==> Size(l) <= 75
  {
    BreaksAreCrlfs(lines);
    PhysicalLinesFit(lines);
  }

  lemma FileNames(e: Event, start: string, end: string, stamp: string, document: string)
    requires Read(document) == MeaningsOf(Items(e, start, end, stamp))
    ensures
      && Named(Read(document), "UID") == Some(OneNewline(e.uid))
      && Named(Read(document), "DTSTAMP") == Some(stamp)
      && Named(Read(document), "DTSTART") == Some(start)
      && Named(Read(document), "DTEND") == Some(end)
      && Named(Read(document), "SUMMARY") == Some(OneNewline(e.summary))
    ensures
      && (Named(Read(document), "STATUS") == Some("CANCELLED") <==> e.status == Some(CANCELLED))
      && (Named(Read(document), "STATUS") == Some("TENTATIVE") <==> e.status == Some(TENTATIVE))
      && (Named(Read(document), "STATUS") == Some("CONFIRMED") <==> e.status in {None, Some(CONFIRMED)})
      && Named(Read(document), "SEQUENCE").Some?
      && ReadDecimal(Named(Read(document), "SEQUENCE").value) == if e.sequence.Some? then e.sequence.value else 0
    ensures
      && (Named(Read(document), "DESCRIPTION")
          == if e.description.Some? && e.description.value != "" then Some(OneNewline(e.description.value)) else None)
      && (Named(Read(document), "LOCATION")
          == if e.location.Some? && e.location.value != "" then Some(OneNewline(e.location.value)) else None)
      && (Named(Read(document), "URL")
          == if e.url.Some? && e.url.value != "" then Some(OneNewline(e.url.value)) else None)
  {
    CoreReadsBack(e, start, end, stamp);
    ClosingReadsBack(e, start, end, stamp);
    DescriptionReadsBack(e, start, end, stamp);
    LocationReadsBack(e, start, end, stamp);
    UrlReadsBack(e, start, end, stamp);
    DecimalReadsBack(Or(e.sequence, 0));
  }

  method WriteItems(e: Event, start: string, end: string, stamp: string) returns (document: string)
    requires Plain(start) && Plain(end) && Plain(stamp)
    ensures Read(document) == MeaningsOf(Items(e, start, end, stamp))
    ensures OnlyCrlfs(document) && |document| >= 2 && document[|document| - 2..] == "\r\n"
    ensures forall l :: l in Lines(document) ==> Size(l) <= 75
  {
    var lines, items := PushLines(e, start, end, stamp);
    document := WriteLines(lines);
    FileReadsBack(e, start, end, stamp, items, document);
    FileIsWellFormed(lines, document);
  }

  method WriteFile(e: Event, start: string, end: string, stamp: string) returns (document: string)
    requires Plain(start) && Plain(end) && Plain(stamp)
    ensures
      && OnlyCrlfs(document) && |document| >= 2 && document[|document| - 2..] == "\r\n"
      && (forall l :: l in Lines(document) ==> Size(l) <= 75)
      && Read(document) ==
           [Property("BEGIN", "VCALENDAR"), Property("VERSION", "2.0"), Property("PRODID", "-//Torim//Booking//EN"),
            Property("CALSCALE", "GREGORIAN"), Property("METHOD", "PUBLISH")]
           + Shows("X-WR-TIMEZONE", e.timezone)
           + [Property("BEGIN", "VEVENT"), Property("UID", OneNewline(e.uid)), Property("DTSTAMP", stamp),
              Property("DTSTART", start), Property("DTEND", end), Property("SUMMARY", OneNewline(e.summary))]
           + Shows("DESCRIPTION", e.description) + Shows("LOCATION", e.location) + Shows("URL", e.url)
           + [Property("STATUS", if e.status == Some(CANCELLED) then "CANCELLED"
                                 else if e.status == Some(TENTATIVE) then "TENTATIVE" else "CONFIRMED"),
              Property("SEQUENCE", Decimal(if e.sequence.Some? then e.sequence.value else 0)),
              Property("TRANSP", "OPAQUE"), Property("END", "VEVENT"), Property("END", "VCALENDAR")]
    ensures
      && Named(Read(document), "UID") == Some(OneNewline(e.uid))
      && Named(Read(document), "DTSTAMP") == Some(stamp)
      && Named(Read(document), "DTSTART") == Some(start)
      && Named(Read(document), "DTEND") == Some(end)
      && Named(Read(document), "SUMMARY") == Some(OneNewline(e.summary))
    ensures
      && (Named(Read(document), "STATUS") == Some("CANCELLED") <==> e.status == Some(CANCELLED))
      && (Named(Read(document), "STATUS") == Some("TENTATIVE") <==> e.status == Some(TENTATIVE))
      && (Named(Read(document), "STATUS") == Some("CONFIRMED") <==> e.status in {None, Some(CONFIRMED)})
      && Named(Read(document), "SEQUENCE").Some?
      && ReadDecimal(Named(Read(document), "SEQUENCE").value) == if e.sequence.Some? then e.sequence.value else 0
    ensures
      && (Named(Read(document), "DESCRIPTION")
          == if e.description.Some? && e.description.value != "" then Some(OneNewline(e.description.value)) else None)
      && (Named(Read(document), "LOCATION")
          == if e.location.Some? && e.location.value != "" then Some(OneNewline(e.location.value)) else None)
      && (Named(Read(document), "URL")
          == if e.url.Some? && e.url.value != "" then Some(OneNewline(e.url.value)) else None)
  {
    document := WriteItems(e, start, end, stamp);
    FileReadsAs(e, start, end, stamp);
    FileNames(e, start, end, stamp, document);
  }

  /**
   * `buildIcs`; `now` is what `new Date()` gives when the event has no stamp. A reader of
   * the file gets back exactly the event's properties, in order, and each text with its line
   * breaks as newlines; with `InstantReadsBackExactly` it gets the instants too.
   */
  method BuildIcs(e: Event, now: TimeValue) returns (r: Result<string, IcsError>)
    ensures e.start.NotATime? ==> r == Err(InvalidStart)
    ensures e.start.At? && e.end.NotATime? ==> r == Err(InvalidEnd)
    ensures e.start.At? && e.end.At? && e.end.time <= e.start.time ==> r == Err(EndNotAfterStart)
    ensures e.start.At? && e.end.At? && e.start.time < e.end.time && e.stamp == Some(NotATime) ==> r == Err(InvalidStamp)
    ensures r.Ok? <==> e.start.At? && e.end.At? && e.start.time < e.end.time && e.stamp != Some(NotATime)
    ensures r.Ok? ==>
      && OnlyCrlfs(r.value) && |r.value| >= 2 && r.value[|r.value| - 2..] == "\r\n"
      && (forall l :: l in Lines(r.value) ==> Size(l) <= 75)
      && Read(r.value) ==
           [Property("BEGIN", "VCALENDAR"), Property("VERSION", "2.0"), Property("PRODID", "-//Torim//Booking//EN"),
            Property("CALSCALE", "GREGORIAN"), Property("METHOD", "PUBLISH")]
           + Shows("X-WR-TIMEZONE", e.timezone)
           + [Property("BEGIN", "VEVENT"), Property("UID", OneNewline(e.uid)),
              Property("DTSTAMP", Shown(if e.stamp.Some? then e.stamp.value.time else now)),
              Property("DTSTART", Shown(e.start.time)), Property("DTEND", Shown(e.end.time)),
              Property("SUMMARY", OneNewline(e.summary))]
           + Shows("DESCRIPTION", e.description) + Shows("LOCATION", e.location) + Shows("URL", e.url)
           + [Property("STATUS", if e.status == Some(CANCELLED) then "CANCELLED"
                                 else if e.status == Some(TENTATIVE) then "TENTATIVE" else "CONFIRMED"),
              Property("SEQUENCE", Decimal(if e.sequence.Some? then e.sequence.value else 0)),
              Property("TRANSP", "OPAQUE"), Property("END", "VEVENT"), Property("END", "VCALENDAR")]
    ensures r.Ok? ==>
      && Named(Read(r.value), "UID") == Some(OneNewline(e.uid))
      && Named(Read(r.value), "DTSTAMP") == Some(Shown(if e.stamp.Some? then e.stamp.value.time else now))
      && Named(Read(r.value), "DTSTART") == Some(Shown(e.start.time))
      && Named(Read(r.value), "DTEND") == Some(Shown(e.end.time))
      && Named(Read(r.value), "SUMMARY") == Some(OneNewline(e.summary))
    ensures r.Ok? ==>
      && (Named(Read(r.value), "STATUS") == Some("CANCELLED") <==> e.status == Some(CANCELLED))
      && (Named(Read(r.value), "STATUS") == Some("TENTATIVE") <==> e.status == Some(TENTATIVE))
      && (Named(Read(r.value), "STATUS") == Some("CONFIRMED") <==> e.status in {None, Some(CONFIRMED)})
      && Named(Read(r.value), "SEQUENCE").Some?
      && ReadDecimal(Named(Read(r.value), "SEQUENCE").value) == if e.sequence.Some? then e.sequence.value else 0
    ensures r.Ok? ==>
      && (Named(Read(r.value), "DESCRIPTION")
          == if e.description.Some? && e.description.value != "" then Some(OneNewline(e.description.value)) else None)
      && (Named(Read(r.value), "LOCATION")
          == if e.location.Some? && e.location.value != "" then Some(OneNewline(e.location.value)) else None)
      && (Named(Read(r.value), "URL")
          == if e.url.Some? && e.url.value != "" then Some(OneNewline(e.url.value)) else None)
  {
    var stamp := Or(e.stamp, At(now));
    if e.start.NotATime? {
      return Err(InvalidStart);
    }
    if e.end.NotATime? {
      return Err(InvalidEnd);
    }
    if e.end.time <= e.start.time {
      return Err(EndNotAfterStart);
    }
    if stamp.NotATime? {
      return Err(InvalidStamp);
    }
    ShownIsPlain(e.start.time);
    ShownIsPlain(e.end.time);
    ShownIsPlain(stamp.time);
    var document := WriteFile(e, Shown(e.start.time), Shown(e.end.time), Shown(stamp.time));
    r := Ok(document);
  }

  method PushLines(e: Event, start: string, end: string, stamp: string)
    returns (lines: seq<string>, ghost items: seq<Item>)
    ensures items == Items(e, start, end, stamp) && lines == LinesOf(items) && lines != []
  {
    lines := [Line("BEGIN", "VCALENDAR"), Line("VERSION", "2.0"), Line("PRODID", "-//Torim//Booking//EN"),
              Line("CALSCALE", "GREGORIAN"), Line("METHOD", "PUBLISH")];
    items := Opening();
    OpeningLines();
    lines := PushOptional(lines, "X-WR-TIMEZONE", e.timezone, items);
    items := items + Optional("X-WR-TIMEZONE", e.timezone);
    LinesOfAppend(items, Core(e, start, end, stamp));
    CoreLines(e, start, end, stamp);
    lines := lines + [Line("BEGIN", "VEVENT"), Line("UID", EscapeIcsText(e.uid)), Line("DTSTAMP", stamp),
                      Line("DTSTART", start), Line("DTEND", end), Line("SUMMARY", EscapeIcsText(e.summary))];
    items := items + Core(e, start, end, stamp);
    lines := PushOptional(lines, "DESCRIPTION", e.description, items);
    items := items + Optional("DESCRIPTION", e.description);
    lines := PushOptional(lines, "LOCATION", e.location, items);
    items := items + Optional("LOCATION", e.location);
    lines := PushOptional(lines, "URL", e.url, items);
    items := items + Optional("URL", e.url);
    LinesOfAppend(items, Closing(e));
    ClosingLines(e);
    lines := lines + [Line("STATUS", StatusText(Or(e.status, CONFIRMED))), Line("SEQUENCE", Decimal(Or(e.sequence, 0))),
                      Line("TRANSP", "OPAQUE"), Line("END", "VEVENT"), Line("END", "VCALENDAR")];
    items := items + Closing(e);
  }
}

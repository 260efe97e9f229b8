/**
 * Escaping and folding for the iCalendar writer (sections 3.1 and 3.3.11 of RFC 5545), and
 * the reader that undoes them. A string is a sequence of Unicode scalar values.
 */
module IcsText {
  // ---------------------------------------------------------------------------
  // Escaping
  // ---------------------------------------------------------------------------

  /** `s.replace(/c/g, by)` for a one-character pattern. */
  function Replace(s: string, c: char, with: string): string {
    if s == [] then []
    else if s[0] == c then with + Replace(s[1..], c, with)
    else [s[0]] + Replace(s[1..], c, with)
  }

  /** The rest of the text after a leading carriage return and the newline it may bring. */
  function AfterCr(s: string): (r: string)
    requires s != [] && s[0] == '\r'
    ensures |r| < |s|
  {
    if |s| > 1 && s[1] == '\n' then s[2..] else s[1..]
  }

  /** `s.replace(/\r\n?/g, '\n')`. */
  function OneNewline(s: string): string
    decreases |s|
  {
    if s == [] then []
    else if s[0] == '\r' then ['\n'] + OneNewline(AfterCr(s))
    else [s[0]] + OneNewline(s[1..])
  }

  /** The first three replacements: backslash, then semicolon, then comma. */
  function Guarded(s: string): string {
    Replace(Replace(Replace(s, '\\', "\\\\"), ';', "\\;"), ',', "\\,")
  }

  function EscapeIcsText(s: string): string {
    Replace(OneNewline(Guarded(s)), '\n', "\\n")
  }

  /** What one character becomes. */
  function Escaped(c: char): string {
    if c == '\\' then "\\\\" else if c == ';' then "\\;" else if c == ',' then "\\,"
    else if c == '\n' then "\\n" else [c]
  }

  /** The same in a single pass, with no replacement seeing another's output. */
  function EscapeOnce(s: string): string
    decreases |s|
  {
    if s == [] then []
    else if s[0] == '\r' then "\\n" + EscapeOnce(AfterCr(s))
    else Escaped(s[0]) + EscapeOnce(s[1..])
  }

  /** The reader: a backslash gives the next character, `n` and `N` a newline. */
  function Unescape(s: string): string {
    if s == [] then []
    else if s[0] == '\\' && |s| > 1 then
      [if s[1] == 'n' || s[1] == 'N' then '\n' else s[1]] + Unescape(s[2..])
    else [s[0]] + Unescape(s[1..])
  }

  lemma Regroup(a: string, b: string, c: string)
    ensures a + (b + c) == (a + b) + c
  {
  }

  lemma {:induction false} ReplaceAppends(a: string, b: string, c: char, with: string)
    ensures Replace(a + b, c, with) == Replace(a, c, with) + Replace(b, c, with)
  {
    if a == [] {
      assert a + b == b;
      assert [] + Replace(b, c, with) == Replace(b, c, with);
    } else {
      ReplaceStep(a, b, c, with);
      ReplaceAppends(a[1..], b, c, with);
      Regroup(if a[0] == c then with else [a[0]], Replace(a[1..], c, with), Replace(b, c, with));
    }
  }

  lemma ReplaceStep(a: string, b: string, c: char, with: string)
    requires a != []
    ensures Replace(a + b, c, with) == (if a[0] == c then with else [a[0]]) + Replace(a[1..] + b, c, with)
    ensures Replace(a, c, with) == (if a[0] == c then with else [a[0]]) + Replace(a[1..], c, with)
  {
    assert (a + b)[0] == a[0] && (a + b)[1..] == a[1..] + b;
  }

  lemma ReplaceOne(x: char, c: char, with: string)
    ensures Replace([x], c, with) == if x == c then with else [x]
  {
    assert [x][1..] == [];
    assert Replace([x][1..], c, with) == [];
    assert with + [] == with && [x] + [] == [x];
  }

  lemma ReplaceTwo(x: char, y: char, c: char, with: string)
    requires x != c && y != c
    ensures Replace([x, y], c, with) == [x, y]
  {
    ReplaceOne(x, c, with);
    ReplaceOne(y, c, with);
    ReplaceAppends([x], [y], c, with);
    assert [x] + [y] == [x, y];
  }

  /** What the first three replacements make of one character. */
  function Guard(c: char): string {
    if c == '\\' then "\\\\" else if c == ';' then "\\;" else if c == ',' then "\\," else [c]
  }

  lemma GuardedStep(s: string)
    requires s != []
    ensures Guarded(s) == Guard(s[0]) + Guarded(s[1..])
  {
    var x, rest := s[0], s[1..];
    var one := Replace([x], '\\', "\\\\");
    var two := Replace(one, ';', "\\;");
    var r1 := Replace(rest, '\\', "\\\\");
    var r2 := Replace(r1, ';', "\\;");
    assert s == [x] + rest;
    ReplaceAppends([x], rest, '\\', "\\\\");
    ReplaceAppends(one, r1, ';', "\\;");
    ReplaceAppends(two, r2, ',', "\\,");
    ReplaceOne(x, '\\', "\\\\");
    if x == '\\' {
      ReplaceTwo('\\', '\\', ';', "\\;");
      ReplaceTwo('\\', '\\', ',', "\\,");
    } else {
      ReplaceOne(x, ';', "\\;");
      if x == ';' {
        ReplaceTwo('\\', ';', ',', "\\,");
      } else {
        ReplaceOne(x, ',', "\\,");
      }
    }
  }

  /** A guarded text starts with a newline exactly when the text does. */
  lemma GuardedStart(s: string)
    ensures Guarded([]) == []
    ensures s != [] ==> Guarded(s) != []
    ensures (s != [] && s[0] == '\n') <==> (Guarded(s) != [] && Guarded(s)[0] == '\n')
  {
    if s != [] {
      GuardedStep(s);
    }
  }

  lemma {:induction false} OneNewlinePrefix(a: string, b: string)
    requires forall i :: 0 <= i < |a| ==> a[i] != '\r'
    ensures OneNewline(a + b) == a + OneNewline(b)
  {
    if a == [] {
      assert a + b == b;
      assert a + OneNewline(b) == OneNewline(b);
    } else {
      assert (a + b)[1..] == a[1..] + b;
      OneNewlinePrefix(a[1..], b);
      assert [a[0]] + (a[1..] + OneNewline(b)) == a + OneNewline(b);
    }
  }

  lemma CrThen(g: string)
    ensures OneNewline(['\r'] + g) == ['\n'] + OneNewline(if g != [] && g[0] == '\n' then g[1..] else g)
  {
    var s := ['\r'] + g;
    assert s[1..] == g;
    if g != [] && g[0] == '\n' {
      assert s[2..] == g[1..];
    }
  }

  lemma GuardedCr(s: string)
    requires s != [] && s[0] == '\r'
    ensures OneNewline(Guarded(s)) == ['\n'] + OneNewline(Guarded(AfterCr(s)))
  {
    var rest := s[1..];
    GuardedStep(s);
    GuardedStart(rest);
    CrThen(Guarded(rest));
    if rest != [] && rest[0] == '\n' {
      GuardedStep(rest);
      assert rest[1..] == s[2..];
      assert (['\n'] + Guarded(s[2..]))[1..] == Guarded(s[2..]);
    }
  }

  lemma EscapedIsGuarded(c: char)
    requires c != '\r'
    ensures Replace(Guard(c), '\n', "\\n") == Escaped(c)
  {
    if c == '\\' || c == ';' || c == ',' {
      ReplaceTwo('\\', c, '\n', "\\n");
    } else {
      ReplaceOne(c, '\n', "\\n");
    }
  }

  /** The five chained replacements are the single pass. */
  lemma {:induction false} ChainIsOnePass(s: string)
    ensures EscapeIcsText(s) == EscapeOnce(s)
    decreases |s|
  {
    if s == [] {
      GuardedStart(s);
    } else if s[0] == '\r' {
      GuardedCr(s);
      var rest := OneNewline(Guarded(AfterCr(s)));
      ReplaceAppends(['\n'], rest, '\n', "\\n");
      ReplaceOne('\n', '\n', "\\n");
      ChainIsOnePass(AfterCr(s));
    } else {
      GuardedStep(s);
      OneNewlinePrefix(Guard(s[0]), Guarded(s[1..]));
      ReplaceAppends(Guard(s[0]), OneNewline(Guarded(s[1..])), '\n', "\\n");
      EscapedIsGuarded(s[0]);
      ChainIsOnePass(s[1..]);
    }
  }

  lemma UnescapeEscaped(c: char, t: string)
    requires c != '\r'
    ensures Unescape(Escaped(c) + t) == [c] + Unescape(t)
  {
    var e := Escaped(c) + t;
    if |Escaped(c)| == 2 {
      assert e[2..] == t;
    } else {
      assert e[1..] == t;
    }
  }

  lemma UnescapeNewline(t: string)
    ensures Unescape("\\n" + t) == ['\n'] + Unescape(t)
  {
    assert ("\\n" + t)[2..] == t;
  }

  /** Reading an escaped value gives the text back, with every kind of line break a newline. */
  lemma {:induction false} UnescapeInvertsEscape(s: string)
    ensures Unescape(EscapeIcsText(s)) == OneNewline(s)
    decreases |s|
  {
    ChainIsOnePass(s);
    if s == [] {
    } else if s[0] == '\r' {
      UnescapeNewline(EscapeOnce(AfterCr(s)));
      ChainIsOnePass(AfterCr(s));
      UnescapeInvertsEscape(AfterCr(s));
    } else {
      UnescapeEscaped(s[0], EscapeOnce(s[1..]));
      ChainIsOnePass(s[1..]);
      UnescapeInvertsEscape(s[1..]);
    }
  }

  /** No character of the text is one of these. */
  predicate Lacks(s: string, bad: set<char>) {
    forall i :: 0 <= i < |s| ==> s[i] !in bad
  }

  /**
   * The escaped form, character by character: a backslash in front of a backslash, a
   * semicolon or a comma, one `\\n` for each of the three kinds of line break, and anything
   * else as it is.
   */
  lemma EscapeExactly(c: char, t: string)
    ensures EscapeIcsText("") == ""
    ensures c in {'\\', ';', ','} ==> EscapeIcsText([c] + t) == ['\\', c] + EscapeIcsText(t)
    ensures c !in {'\\', ';', ',', '\n', '\r'} ==> EscapeIcsText([c] + t) == [c] + EscapeIcsText(t)
    ensures EscapeIcsText("\n" + t) == "\\n" + EscapeIcsText(t)
    ensures EscapeIcsText("\r\n" + t) == "\\n" + EscapeIcsText(t)
    ensures (t == "" || t[0] != '\n') ==> EscapeIcsText("\r" + t) == "\\n" + EscapeIcsText(t)
  {
    ChainIsOnePass("");
    ChainIsOnePass(t);
    ChainIsOnePass([c] + t);
    ChainIsOnePass("\n" + t);
    ChainIsOnePass("\r\n" + t);
    ChainIsOnePass("\r" + t);
    assert ([c] + t)[1..] == t && ("\n" + t)[1..] == t && ("\r\n" + t)[2..] == t && ("\r" + t)[1..] == t;
  }

  /** No escaped value holds a raw line break. */
  lemma {:induction false} EscapedHasNoBreaks(s: string)
    ensures Lacks(EscapeIcsText(s), {'\r', '\n'})
    decreases |s|
  {
    ChainIsOnePass(s);
    if s == [] {
    } else if s[0] == '\r' {
      ChainIsOnePass(AfterCr(s));
      EscapedHasNoBreaks(AfterCr(s));
    } else {
      ChainIsOnePass(s[1..]);
      EscapedHasNoBreaks(s[1..]);
    }
  }

  lemma {:induction false} OnePassIgnoresBreakKind(s: string)
    ensures EscapeOnce(OneNewline(s)) == EscapeOnce(s)
    decreases |s|
  {
    if s == [] {
    } else if s[0] == '\r' {
      var t := OneNewline(AfterCr(s));
      assert (['\n'] + t)[1..] == t;
      OnePassIgnoresBreakKind(AfterCr(s));
    } else {
      var t := OneNewline(s[1..]);
      assert ([s[0]] + t)[1..] == t;
      OnePassIgnoresBreakKind(s[1..]);
    }
  }

  /** Two texts are written alike exactly when they differ at most in the kind of line break. */
  lemma WrittenAlike(a: string, b: string)
    ensures EscapeIcsText(a) == EscapeIcsText(b) <==> OneNewline(a) == OneNewline(b)
  {
    UnescapeInvertsEscape(a);
    UnescapeInvertsEscape(b);
    ChainIsOnePass(a);
    ChainIsOnePass(b);
    OnePassIgnoresBreakKind(a);
    OnePassIgnoresBreakKind(b);
  }

  function WithoutCrs(s: string): string {
    Replace(s, '\r', "")
  }

  predicate EveryCrHasItsLf(s: string) {
    forall i :: 0 <= i < |s| && s[i] == '\r' ==> i + 1 < |s| && s[i + 1] == '\n'
  }

  lemma {:induction false} NoCrsLeft(s: string)
    ensures OneNewline(WithoutCrs(s)) == WithoutCrs(s)
  {
    if s != [] {
      var rest := WithoutCrs(s[1..]);
      NoCrsLeft(s[1..]);
      if s[0] == '\r' {
        assert "" + rest == rest;
      } else {
        assert ([s[0]] + rest)[1..] == rest;
      }
    }
  }

  lemma CrLfWithoutItsCr(s: string)
    requires |s| > 1 && s[0] == '\r' && s[1] == '\n'
    ensures WithoutCrs(s) == ['\n'] + WithoutCrs(s[2..])
  {
    var rest := s[1..];
    assert rest[0] == '\n' && rest[1..] == s[2..];
    assert WithoutCrs(rest) == ['\n'] + WithoutCrs(s[2..]);
    assert "" + WithoutCrs(rest) == WithoutCrs(rest);
  }

  /** Dropping every carriage return loses a break for each one that stood alone. */
  lemma {:induction false} NoLongerWithoutCrs(s: string)
    ensures |WithoutCrs(s)| <= |OneNewline(s)|
    decreases |s|
  {
    if s == [] {
    } else if s[0] == '\r' && |s| > 1 && s[1] == '\n' {
      CrLfWithoutItsCr(s);
      NoLongerWithoutCrs(s[2..]);
    } else {
      NoLongerWithoutCrs(s[1..]);
    }
  }

  lemma PairedFromSecond(s: string, n: nat)
    requires n <= |s| && (n == 1 || (n == 2 && s[1] == '\n'))
    requires s[0] == '\r' ==> n == 2
    ensures EveryCrHasItsLf(s) <==> EveryCrHasItsLf(s[n..])
  {
    if EveryCrHasItsLf(s) {
      forall i | 0 <= i < |s[n..]| && s[n..][i] == '\r' ensures i + 1 < |s[n..]| && s[n..][i + 1] == '\n' {
        assert s[n + i] == '\r';
      }
    }
    if EveryCrHasItsLf(s[n..]) {
      forall i | 0 <= i < |s| && s[i] == '\r' ensures i + 1 < |s| && s[i + 1] == '\n' {
        if i >= n {
          assert s[n..][i - n] == '\r';
        }
      }
    }
  }

  lemma {:induction false} DroppingCrsExactly(s: string)
    ensures OneNewline(s) == WithoutCrs(s) <==> EveryCrHasItsLf(s)
    decreases |s|
  {
    if s == [] {
    } else if s[0] == '\r' && |s| > 1 && s[1] == '\n' {
      var a, b := OneNewline(s[2..]), WithoutCrs(s[2..]);
      CrLfWithoutItsCr(s);
      assert (['\n'] + a)[1..] == a && (['\n'] + b)[1..] == b;
      PairedFromSecond(s, 2);
      DroppingCrsExactly(s[2..]);
    } else if s[0] == '\r' {
      NoLongerWithoutCrs(s[1..]);
      assert |OneNewline(s)| > |WithoutCrs(s)|;
    } else {
      var a, b := OneNewline(s[1..]), WithoutCrs(s[1..]);
      assert ([s[0]] + a)[1..] == a && ([s[0]] + b)[1..] == b;
      PairedFromSecond(s, 1);
      DroppingCrsExactly(s[1..]);
    }
  }

  /** Carriage returns leave no trace exactly when each of them is half of a CRLF. */
  lemma CrsLeaveNoTraceExactly(s: string)
    ensures EscapeIcsText(s) == EscapeIcsText(WithoutCrs(s)) <==> EveryCrHasItsLf(s)
  {
    WrittenAlike(s, WithoutCrs(s));
    NoCrsLeft(s);
    DroppingCrsExactly(s);
  }

  /** A carriage return on its own becomes a written newline. */
  lemma LoneCrIsABreak()
    ensures EscapeIcsText("\r") == "\\n" && EscapeIcsText(WithoutCrs("\r")) == ""
  {
    ChainIsOnePass("\r");
    ChainIsOnePass("");
    assert AfterCr("\r") == "";
    assert WithoutCrs("\r") == "" + WithoutCrs("");
  }

  lemma {:induction false} UnescapeLeavesPlain(s: string)
    requires Lacks(s, {'\\'})
    ensures Unescape(s) == s
  {
    if s != [] {
      assert s[0] !in {'\\'};
      assert forall i :: 0 <= i < |s[1..]| ==> s[1..][i] == s[i + 1];
      UnescapeLeavesPlain(s[1..]);
    }
  }

  // ---------------------------------------------------------------------------
  // Folding
  // ---------------------------------------------------------------------------

  const CRLF := "\r\n"
  const LINE_OCTETS := 75

  /** How many octets UTF-8 spends on a character. */
  function Octets(c: char): (n: nat)
    ensures 1 <= n <= 4
  {
    var code := c as int;
    if code < 0x80 then 1 else if code < 0x800 then 2 else if code < 0x10000 then 3 else 4
  }

  function Size(s: string): nat {
    if s == [] then 0 else Size(s[..|s| - 1]) + Octets(s[|s| - 1])
  }

  /** The octets of a character, `encoder.encode`: section 3 of RFC 3629. */
  function Utf8(c: char): seq<int> {
    var code := c as int;
    if code < 0x80 then [code]
    else if code < 0x800 then [0xC0 + code / 64, 0x80 + code % 64]
    else if code < 0x10000 then [0xE0 + code / 4096, 0x80 + code / 64 % 64, 0x80 + code % 64]
    else [0xF0 + code / 262_144, 0x80 + code / 4096 % 64, 0x80 + code / 64 % 64, 0x80 + code % 64]
  }

  function Encoded(s: string): seq<int> {
    if s == [] then [] else Encoded(s[..|s| - 1]) + Utf8(s[|s| - 1])
  }

  /** The code point a decoder reads: the low bits of the lead octet, then six from each other one. */
  function Decoded(octets: seq<int>): int
    requires 1 <= |octets| <= 4
  {
    match |octets|
    case 1 => octets[0]
    case 2 => octets[0] % 32 * 64 + octets[1] % 64
    case 3 => octets[0] % 16 * 4096 + octets[1] % 64 * 64 + octets[2] % 64
    case _ => octets[0] % 8 * 262_144 + octets[1] % 64 * 4096 + octets[2] % 64 * 64 + octets[3] % 64
  }

  lemma TwelveBits(code: int)
    requires 0 <= code
    ensures code == code / 4096 * 4096 + code / 64 % 64 * 64 + code % 64
  {
    assert code / 64 / 64 == code / 4096;
  }

  lemma EighteenBits(code: int)
    requires 0 <= code
    ensures code == code / 262_144 * 262_144 + code / 4096 % 64 * 4096 + code / 64 % 64 * 64 + code % 64
  {
    TwelveBits(code);
    assert code / 4096 / 64 == code / 262_144;
  }

  lemma TwoOctets(code: int)
    requires 0x80 <= code < 0x800
    ensures 0xC2 <= 0xC0 + code / 64 <= 0xDF && (0xC0 + code / 64) % 32 == code / 64
  {
  }

  lemma ThreeOctets(code: int)
    requires 0x800 <= code < 0x10000
    ensures 0xE0 <= 0xE0 + code / 4096 <= 0xEF && (0xE0 + code / 4096) % 16 == code / 4096
    ensures code / 4096 == 0 ==> code / 64 % 64 >= 0x20
  {
  }

  lemma FourOctets(code: int)
    requires 0x10000 <= code < 0x110000
    ensures 0xF0 <= 0xF0 + code / 262_144 <= 0xF4 && (0xF0 + code / 262_144) % 8 == code / 262_144
    ensures code / 262_144 == 0 ==> code / 4096 % 64 >= 0x10
  {
  }

  lemma LowBits(octet: int)
    ensures (0x80 + octet % 64) % 64 == octet % 64 && 0x80 <= 0x80 + octet % 64 <= 0xBF
  {
  }

  /** Each encoding is a well-formed one, the shortest there is, and decodes to its character. */
  lemma Utf8IsDecodable(c: char)
    ensures var octets := Utf8(c);
      && 1 <= |octets| <= 4 && Decoded(octets) == c as int
      && (|octets| == 1 ==> 0 <= octets[0] <= 0x7F)
      && (|octets| == 2 ==> 0xC2 <= octets[0] <= 0xDF)
      && (|octets| == 3 ==> 0xE0 <= octets[0] <= 0xEF && (octets[0] == 0xE0 ==> octets[1] >= 0xA0))
      && (|octets| == 4 ==> 0xF0 <= octets[0] <= 0xF4 && (octets[0] == 0xF0 ==> octets[1] >= 0x90))
      && forall i :: 1 <= i < |octets| ==> 0x80 <= octets[i] <= 0xBF
  {
    var code := c as int;
    LowBits(code);
    LowBits(code / 64);
    LowBits(code / 4096);
    if 0x80 <= code < 0x800 {
      TwoOctets(code);
    } else if 0x800 <= code < 0x10000 {
      ThreeOctets(code);
      TwelveBits(code);
    } else if 0x10000 <= code {
      FourOctets(code);
      EighteenBits(code);
    }
  }

  lemma {:induction false} SizeIsEncodedLength(s: string)
    ensures Size(s) == |Encoded(s)|
  {
    if s != [] {
      SizeIsEncodedLength(s[..|s| - 1]);
    }
  }

  /** What is still to come once `current` has been collected on a line with this budget. */
  function PiecesFrom(current: string, rest: string, budget: nat): seq<string>
    decreases |rest|
  {
    if rest == [] then if current == [] then [] else [current]
    else if Size(current) + Octets(rest[0]) > budget then [current] + PiecesFrom([rest[0]], rest[1..], LINE_OCTETS - 1)
    else PiecesFrom(current + [rest[0]], rest[1..], budget)
  }

  function Join(pieces: seq<string>, glue: string): string {
    if pieces == [] then []
    else if |pieces| == 1 then pieces[0]
    else pieces[0] + glue + Join(pieces[1..], glue)
  }

  function FoldBreak(): string {
    CRLF + " "
  }

  function Fold(line: string): string {
    if Size(line) <= LINE_OCTETS then line else Join(PiecesFrom("", line, LINE_OCTETS), FoldBreak())
  }

  lemma SizeAppends(s: string, c: char)
    ensures Size(s + [c]) == Size(s) + Octets(c)
  {
    assert (s + [c])[..|s + [c]| - 1] == s;
  }

  lemma SizeOfOne(c: char)
    ensures Size([c]) == Octets(c)
  {
    assert [c][..0] == [];
    assert Size([c][..0]) == 0;
  }

  method EncodedLength(s: string) returns (n: nat)
    ensures n == Size(s)
  {
    n := 0;
    for i := 0 to |s|
      invariant n == Size(s[..i])
    {
      assert s[..i + 1][..i] == s[..i];
      n := n + Octets(s[i]);
    }
    assert s[..|s|] == s;
  }

  method FoldIcsLine(line: string) returns (folded: string)
    ensures folded == Fold(line)
  {
    var length := EncodedLength(line);
    if length <= 75 {
      return line;
    }
    var pieces: seq<string>, current: string := [], "";
    var currentBytes, budget := 0, 75;
    assert line[0..] == line;
    assert pieces + PiecesFrom(current, line, budget) == PiecesFrom(current, line, budget);
    for i := 0 to |line|
      invariant currentBytes == Size(current)
      invariant pieces + PiecesFrom(current, line[i..], budget) == PiecesFrom("", line, LINE_OCTETS)
    {
      var size := Octets(line[i]);
      assert line[i..][0] == line[i] && line[i..][1..] == line[i + 1..];
      if currentBytes + size > budget {
        assert pieces + ([current] + PiecesFrom([line[i]], line[i + 1..], 74))
            == (pieces + [current]) + PiecesFrom([line[i]], line[i + 1..], 74);
        pieces := pieces + [current];
        current, currentBytes, budget := "", 0, 74;
        assert current + [line[i]] == [line[i]];
      }
      SizeAppends(current, line[i]);
      current := current + [line[i]];
      currentBytes := currentBytes + size;
    }
    assert line[|line|..] == [];
    if |current| > 0 {
      pieces := pieces + [current];
    }
    assert pieces == PiecesFrom("", line, LINE_OCTETS);
    folded := Join(pieces, FoldBreak());
  }

  // ---------------------------------------------------------------------------
  // The reader's half of folding
  // ---------------------------------------------------------------------------

  predicate IsBreak(s: string) {
    |s| >= 2 && s[0] == '\r' && s[1] == '\n'
  }

  /** A line break followed by one blank: the writer's or another writer's fold. */
  predicate IsFold(s: string) {
    IsBreak(s) && |s| >= 3 && (s[2] == ' ' || s[2] == '\t')
  }

  function Unfold(s: string): string {
    if s == [] then []
    else if IsFold(s) then Unfold(s[3..])
    else [s[0]] + Unfold(s[1..])
  }

  /** The lines of a text, each of which a line break ends. */
  function LinesFrom(current: string, s: string): seq<string>
    decreases |s|
  {
    if s == [] then if current == [] then [] else [current]
    else if IsBreak(s) then [current] + LinesFrom("", s[2..])
    else LinesFrom(current + [s[0]], s[1..])
  }

  function Lines(s: string): seq<string> {
    LinesFrom("", s)
  }

  lemma {:induction false} UnfoldSkips(a: string, t: string)
    requires Lacks(a, {'\r'})
    ensures Unfold(a + t) == a + Unfold(t)
  {
    if a == [] {
      assert a + t == t;
      assert a + Unfold(t) == Unfold(t);
    } else {
      assert a[0] !in {'\r'};
      assert (a + t)[1..] == a[1..] + t;
      assert forall i :: 0 <= i < |a[1..]| ==> a[1..][i] == a[i + 1];
      UnfoldSkips(a[1..], t);
      assert [a[0]] + (a[1..] + Unfold(t)) == a + Unfold(t);
    }
  }

  lemma UnfoldRemovesFold(t: string)
    ensures Unfold(FoldBreak() + t) == Unfold(t)
  {
    assert (FoldBreak() + t)[3..] == t;
  }

  predicate StartsBlank(s: string) {
    s != [] && (s[0] == ' ' || s[0] == '\t')
  }

  lemma UnfoldKeepsBreak(t: string)
    requires !StartsBlank(t)
    ensures Unfold(CRLF + t) == CRLF + Unfold(t)
  {
    var s := CRLF + t;
    assert s[1..] == ['\n'] + t;
    assert s[1..][1..] == t;
    assert !IsFold(s) && !IsFold(s[1..]);
    assert Unfold(s[1..]) == ['\n'] + Unfold(t);
    assert ['\r'] + (['\n'] + Unfold(t)) == CRLF + Unfold(t);
  }

  function Concat(pieces: seq<string>): string {
    if pieces == [] then [] else if |pieces| == 1 then pieces[0] else pieces[0] + Concat(pieces[1..])
  }

  predicate AllLack(pieces: seq<string>, bad: set<char>) {
    forall p :: p in pieces ==> Lacks(p, bad)
  }

  lemma JoinStep(pieces: seq<string>, t: string)
    requires |pieces| > 1
    ensures Join(pieces, FoldBreak()) + t == pieces[0] + (FoldBreak() + (Join(pieces[1..], FoldBreak()) + t))
  {
  }

  lemma {:induction false} UnfoldJoined(pieces: seq<string>, t: string)
    requires AllLack(pieces, {'\r'})
    ensures Unfold(Join(pieces, FoldBreak()) + t) == Concat(pieces) + Unfold(t)
  {
    if pieces == [] {
      assert Join(pieces, FoldBreak()) + t == t;
      assert Concat(pieces) + Unfold(t) == Unfold(t);
    } else if |pieces| == 1 {
      UnfoldSkips(pieces[0], t);
    } else {
      var rest := Join(pieces[1..], FoldBreak());
      JoinStep(pieces, t);
      UnfoldSkips(pieces[0], FoldBreak() + (rest + t));
      UnfoldRemovesFold(rest + t);
      UnfoldJoined(pieces[1..], t);
      Regroup(pieces[0], Concat(pieces[1..]), Unfold(t));
    }
  }

  lemma {:induction false} PiecesConcat(current: string, rest: string, budget: nat)
    ensures Concat(PiecesFrom(current, rest, budget)) == current + rest
    ensures current + rest != [] ==> PiecesFrom(current, rest, budget) != []
    decreases |rest|
  {
    if rest == [] {
      assert current + rest == current;
    } else if Size(current) + Octets(rest[0]) > budget {
      var more := PiecesFrom([rest[0]], rest[1..], LINE_OCTETS - 1);
      PiecesConcat([rest[0]], rest[1..], LINE_OCTETS - 1);
      assert ([current] + more)[1..] == more;
      assert current + ([rest[0]] + rest[1..]) == current + rest;
    } else {
      PiecesConcat(current + [rest[0]], rest[1..], budget);
      assert (current + [rest[0]]) + rest[1..] == current + rest;
    }
  }

  /** The first piece fits its budget and every later one leaves an octet for the blank. */
  ghost predicate PiecesFit(pieces: seq<string>, budget: nat) {
    forall i :: 0 <= i < |pieces| ==> Size(pieces[i]) <= if i == 0 then budget else LINE_OCTETS - 1
  }

  lemma FitsAfter(first: string, more: seq<string>, budget: nat)
    requires Size(first) <= budget && PiecesFit(more, LINE_OCTETS - 1)
    ensures PiecesFit([first] + more, budget)
  {
    var all := [first] + more;
    forall i | 0 <= i < |all| ensures Size(all[i]) <= if i == 0 then budget else LINE_OCTETS - 1 {
      assert i > 0 ==> all[i] == more[i - 1];
    }
  }

  lemma {:induction false} PiecesFromFit(current: string, rest: string, budget: nat)
    requires Size(current) <= budget && 4 <= budget
    ensures PiecesFit(PiecesFrom(current, rest, budget), budget)
    decreases |rest|
  {
    if rest == [] {
    } else if Size(current) + Octets(rest[0]) > budget {
      SizeOfOne(rest[0]);
      var more := PiecesFrom([rest[0]], rest[1..], LINE_OCTETS - 1);
      PiecesFromFit([rest[0]], rest[1..], LINE_OCTETS - 1);
      FitsAfter(current, more, budget);
    } else {
      SizeAppends(current, rest[0]);
      PiecesFromFit(current + [rest[0]], rest[1..], budget);
    }
  }

  lemma {:induction false} FirstPieceStart(current: string, rest: string, budget: nat)
    requires current != []
    ensures var pieces := PiecesFrom(current, rest, budget);
            pieces != [] && pieces[0] != [] && pieces[0][0] == current[0]
    decreases |rest|
  {
    if rest != [] && Size(current) + Octets(rest[0]) <= budget {
      FirstPieceStart(current + [rest[0]], rest[1..], budget);
    }
  }

  /** The next piece was started because its first character did not fit any more. */
  predicate NoRoom(piece: string, next: string, budget: nat) {
    next != "" && Size(piece) + Octets(next[0]) > budget
  }

  ghost predicate Greedy(pieces: seq<string>, budget: nat) {
    |pieces| < 2 || (NoRoom(pieces[0], pieces[1], budget) && Greedy(pieces[1..], LINE_OCTETS - 1))
  }

  lemma {:induction false} GreedyAt(pieces: seq<string>, budget: nat, j: nat)
    requires Greedy(pieces, budget) && 0 < j < |pieces|
    ensures NoRoom(pieces[j - 1], pieces[j], if j == 1 then budget else LINE_OCTETS - 1)
  {
    if j > 1 {
      GreedyAt(pieces[1..], LINE_OCTETS - 1, j - 1);
    }
  }

  lemma {:induction false} PiecesAreGreedy(current: string, rest: string, budget: nat)
    ensures Greedy(PiecesFrom(current, rest, budget), budget)
    decreases |rest|
  {
    if rest == [] {
    } else if Size(current) + Octets(rest[0]) > budget {
      var more := PiecesFrom([rest[0]], rest[1..], LINE_OCTETS - 1);
      FirstPieceStart([rest[0]], rest[1..], LINE_OCTETS - 1);
      PiecesAreGreedy([rest[0]], rest[1..], LINE_OCTETS - 1);
      assert ([current] + more)[1..] == more;
    } else {
      PiecesAreGreedy(current + [rest[0]], rest[1..], budget);
    }
  }

  lemma LongLinesAreJoined(line: string)
    requires Size(line) > LINE_OCTETS
    ensures Fold(line) == Join(PiecesFrom("", line, LINE_OCTETS), FoldBreak())
    ensures Concat(PiecesFrom("", line, LINE_OCTETS)) == line
  {
    PiecesConcat("", line, LINE_OCTETS);
    assert "" + line == line;
  }

  lemma BreakIsCrlfAndABlank()
    ensures FoldBreak() == "\r\n "
  {
  }

  lemma PiecesAreFull(pieces: seq<string>, line: string)
    requires pieces == PiecesFrom("", line, LINE_OCTETS)
    ensures forall i :: 0 <= i < |pieces| ==> Size(pieces[i]) <= if i == 0 then 75 else 74
    ensures forall j :: 0 < j < |pieces| ==>
              NoRoom(pieces[j - 1], pieces[j], if j == 1 then 75 else 74)
  {
    PiecesFromFit("", line, LINE_OCTETS);
    PiecesAreGreedy("", line, LINE_OCTETS);
    forall j | 0 < j < |pieces| ensures NoRoom(pieces[j - 1], pieces[j], if j == 1 then 75 else 74) {
      GreedyAt(pieces, LINE_OCTETS, j);
    }
  }

  /**
   * A line of at most 75 octets is left alone. A longer one is cut into pieces, each as long
   * as fits, 75 octets for the first and 74 for the others, joined by a break and one blank.
   */
  lemma FoldExactly(line: string, pieces: seq<string>)
    requires pieces == PiecesFrom("", line, LINE_OCTETS)
    ensures Size(line) <= 75 ==> Fold(line) == line
    ensures Size(line) > 75 ==> Fold(line) == Join(pieces, "\r\n ") && Concat(pieces) == line
    ensures forall i :: 0 <= i < |pieces| ==> Size(pieces[i]) <= if i == 0 then 75 else 74
    ensures forall j :: 0 < j < |pieces| ==>
              pieces[j] != "" && Size(pieces[j - 1]) + Octets(pieces[j][0]) > if j == 1 then 75 else 74
  {
    BreakIsCrlfAndABlank();
    PiecesAreFull(pieces, line);
    forall j | 0 < j < |pieces|
      ensures pieces[j] != "" && Size(pieces[j - 1]) + Octets(pieces[j][0]) > if j == 1 then 75 else 74
    {
      assert NoRoom(pieces[j - 1], pieces[j], if j == 1 then 75 else 74);
    }
    if Size(line) > LINE_OCTETS {
      LongLinesAreJoined(line);
    }
  }

  lemma {:induction false} PiecesLack(current: string, rest: string, budget: nat, bad: set<char>)
    requires Lacks(current, bad) && Lacks(rest, bad)
    ensures AllLack(PiecesFrom(current, rest, budget), bad)
    decreases |rest|
  {
    if rest != [] {
      assert rest[0] !in bad;
      assert forall i :: 0 <= i < |rest[1..]| ==> rest[1..][i] == rest[i + 1];
      if Size(current) + Octets(rest[0]) > budget {
        PiecesLack([rest[0]], rest[1..], LINE_OCTETS - 1, bad);
      } else {
        PiecesLack(current + [rest[0]], rest[1..], budget, bad);
      }
    }
  }

  /** Unfolding a folded line gives the line back, whatever follows it. */
  lemma UnfoldInvertsFold(line: string, t: string)
    requires Lacks(line, {'\r'})
    ensures Unfold(Fold(line) + t) == line + Unfold(t)
  {
    if Size(line) <= LINE_OCTETS {
      UnfoldSkips(line, t);
    } else {
      PiecesLack("", line, LINE_OCTETS, {'\r'});
      UnfoldJoined(PiecesFrom("", line, LINE_OCTETS), t);
      PiecesConcat("", line, LINE_OCTETS);
      assert "" + line == line;
    }
  }

  // ---------------------------------------------------------------------------
  // Physical lines
  // ---------------------------------------------------------------------------

  lemma {:induction false} LinesCollect(current: string, a: string, t: string)
    requires Lacks(a, {'\r'})
    ensures LinesFrom(current, a + t) == LinesFrom(current + a, t)
    decreases |a|
  {
    if a == [] {
      assert a + t == t && current + a == current;
    } else {
      assert a[0] !in {'\r'};
      assert (a + t)[1..] == a[1..] + t;
      assert (current + [a[0]]) + a[1..] == current + a;
      assert forall i :: 0 <= i < |a[1..]| ==> a[1..][i] == a[i + 1];
      LinesCollect(current + [a[0]], a[1..], t);
    }
  }

  lemma LineEnds(a: string, t: string)
    requires Lacks(a, {'\r'})
    ensures Lines(a + CRLF + t) == [a] + Lines(t)
  {
    assert a + CRLF + t == a + (CRLF + t);
    LinesCollect("", a, CRLF + t);
    assert "" + a == a;
    assert (CRLF + t)[2..] == t;
  }

  ghost predicate AllFit(lines: seq<string>) {
    forall l :: l in lines ==> Size(l) <= LINE_OCTETS
  }

  lemma {:induction false} SizeOfBlankLine(s: string)
    ensures Size([' '] + s) == 1 + Size(s)
  {
    if s == [] {
      assert [' '] + s == [' '];
      SizeOfOne(' ');
    } else {
      SizeOfBlankLine(s[..|s| - 1]);
      assert ([' '] + s)[..|[' '] + s| - 1] == [' '] + s[..|s| - 1];
    }
  }

  predicate IsLead(lead: string) {
    lead == "" || lead == " "
  }

  lemma LeadAdds(lead: string, piece: string)
    requires IsLead(lead) && Lacks(piece, {'\r'})
    ensures Size(lead + piece) == |lead| + Size(piece) && Lacks(lead + piece, {'\r'})
  {
    if lead == "" {
      assert lead + piece == piece;
    } else {
      SizeOfBlankLine(piece);
      assert lead + piece == [' '] + piece;
    }
  }

  lemma FirstLineFits(lead: string, piece: string, t: string)
    requires IsLead(lead) && Lacks(piece, {'\r'}) && |lead| + Size(piece) <= LINE_OCTETS
    requires AllFit(Lines(t))
    ensures AllFit(Lines(lead + piece + CRLF + t))
  {
    LeadAdds(lead, piece);
    LineEnds(lead + piece, t);
  }

  lemma JoinedStep(lead: string, pieces: seq<string>, t: string)
    requires |pieces| > 1
    ensures lead + Join(pieces, FoldBreak()) + CRLF + t
         == lead + pieces[0] + CRLF + (" " + Join(pieces[1..], FoldBreak()) + CRLF + t)
  {
  }

  /** Each physical line of joined pieces holds one piece, after a blank from the second on. */
  lemma {:induction false} JoinedLinesFit(lead: string, pieces: seq<string>, t: string)
    requires IsLead(lead) && pieces != [] && AllLack(pieces, {'\r'})
    requires PiecesFit(pieces, LINE_OCTETS - |lead|) && AllFit(Lines(t))
    ensures AllFit(Lines(lead + Join(pieces, FoldBreak()) + CRLF + t))
    decreases |pieces|
  {
    assert pieces[0] in pieces;
    if |pieces| == 1 {
      FirstLineFits(lead, pieces[0], t);
    } else {
      FitsLater(pieces, LINE_OCTETS - |lead|);
      JoinedLinesFit(" ", pieces[1..], t);
      FirstLineFits(lead, pieces[0], " " + Join(pieces[1..], FoldBreak()) + CRLF + t);
      JoinedStep(lead, pieces, t);
    }
  }

  lemma FitsLater(pieces: seq<string>, budget: nat)
    requires pieces != [] && PiecesFit(pieces, budget)
    ensures PiecesFit(pieces[1..], LINE_OCTETS - 1)
  {
    forall i | 0 <= i < |pieces[1..]| ensures Size(pieces[1..][i]) <= LINE_OCTETS - 1 {
      assert pieces[1..][i] == pieces[i + 1];
    }
  }

  lemma FoldedLinesFit(line: string, t: string)
    requires Lacks(line, {'\r'}) && AllFit(Lines(t))
    ensures AllFit(Lines(Fold(line) + CRLF + t))
  {
    if Size(line) <= LINE_OCTETS {
      LineEnds(line, t);
    } else {
      var pieces := PiecesFrom("", line, LINE_OCTETS);
      PiecesLack("", line, LINE_OCTETS, {'\r'});
      PiecesFromFit("", line, LINE_OCTETS);
      PiecesConcat("", line, LINE_OCTETS);
      assert "" + line == line != [];
      JoinedLinesFit("", pieces, t);
      assert "" + Join(pieces, FoldBreak()) == Join(pieces, FoldBreak());
    }
  }
}

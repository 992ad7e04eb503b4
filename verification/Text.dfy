/** The few text operations of Go's `strings` and `bufio` packages that the parsers rely on. */
module Text {
  import opened Wrappers

  /** White space in the sense of Go's unicode.IsSpace. */
  predicate IsSpace(c: char) {
    || '\t' <= c <= '\r' || c == ' ' || c == '\U{85}' || c == '\U{A0}' || c == '\U{1680}'
    || '\U{2000}' <= c <= '\U{200A}' || c == '\U{2028}' || c == '\U{2029}' || c == '\U{202F}'
    || c == '\U{205F}' || c == '\U{3000}'
  }

  predicate IsQuote(c: char) {
    c == '\"' || c == '\''
  }

  function TrimLeft(cut: char -> bool, s: string): string {
    if s != "" && cut(s[0]) then TrimLeft(cut, s[1..]) else s
  }

  function TrimRight(cut: char -> bool, s: string): string {
    if s != "" && cut(s[|s| - 1]) then TrimRight(cut, s[..|s| - 1]) else s
  }

  function TrimBy(cut: char -> bool, s: string): string {
    TrimRight(cut, TrimLeft(cut, s))
  }

  /** strings.TrimSpace. */
  function Trim(s: string): string {
    TrimBy(IsSpace, s)
  }

  predicate Trimmed(s: string) {
    s != "" ==> !IsSpace(s[0]) && !IsSpace(s[|s| - 1])
  }

  predicate AllSpace(s: string) {
    forall i | 0 <= i < |s| :: IsSpace(s[i])
  }

  lemma {:induction false} TrimLeftSplits(cut: char -> bool, s: string)
    ensures var t := TrimLeft(cut, s);
            && |t| <= |s| && s[|s| - |t|..] == t
            && (forall i | 0 <= i < |s| - |t| :: cut(s[i]))
            && (t != "" ==> !cut(t[0]))
  {
    if s != "" && cut(s[0]) {
      TrimLeftSplits(cut, s[1..]);
      var t := TrimLeft(cut, s[1..]);
      forall i | 0 <= i < |s| - |t| ensures cut(s[i]) {
        if i > 0 { assert cut(s[1..][i - 1]); }
      }
    }
  }

  lemma {:induction false} TrimRightSplits(cut: char -> bool, s: string)
    ensures var t := TrimRight(cut, s);
            && |t| <= |s| && s[..|t|] == t
            && (forall i | |t| <= i < |s| :: cut(s[i]))
            && (t != "" ==> !cut(t[|t| - 1]))
  {
    if s != "" && cut(s[|s| - 1]) {
      TrimRightSplits(cut, s[..|s| - 1]);
      var t := TrimRight(cut, s[..|s| - 1]);
      forall i | |t| <= i < |s| ensures cut(s[i]) {
        if i < |s| - 1 { assert cut(s[..|s| - 1][i]); }
      }
    }
  }

  /** Trimming peels white space off both ends and nothing else. */
  lemma TrimSplits(s: string) returns (left: string, right: string)
    ensures s == left + Trim(s) + right && AllSpace(left) && AllSpace(right) && Trimmed(Trim(s))
  {
    var t := TrimLeft(IsSpace, s);
    TrimLeftSplits(IsSpace, s);
    TrimRightSplits(IsSpace, t);
    left, right := s[..|s| - |t|], t[|Trim(s)|..];
    assert s == left + t && t == Trim(s) + right;
    if Trim(s) != "" { assert Trim(s)[0] == t[0]; }
  }

  lemma {:induction false} TrimLeftSkips(left: string, s: string)
    requires AllSpace(left)
    ensures TrimLeft(IsSpace, left + s) == TrimLeft(IsSpace, s)
  {
    if left == "" {
      assert left + s == s;
    } else {
      assert (left + s)[1..] == left[1..] + s;
      TrimLeftSkips(left[1..], s);
    }
  }

  lemma {:induction false} TrimRightSkips(s: string, right: string)
    requires AllSpace(right)
    ensures TrimRight(IsSpace, s + right) == TrimRight(IsSpace, s)
  {
    if right == "" {
      assert s + right == s;
    } else {
      assert (s + right)[..|s + right| - 1] == s + right[..|right| - 1];
      TrimRightSkips(s, right[..|right| - 1]);
    }
  }

  lemma TrimBySkips(left: string, s: string)
    requires AllSpace(left)
    ensures Trim(left + s) == Trim(s)
  {
    TrimLeftSkips(left, s);
  }

  /** However white space is peeled off, the same core remains. */
  lemma TrimUnique(left: string, core: string, right: string)
    requires AllSpace(left) && AllSpace(right) && Trimmed(core)
    ensures Trim(left + core + right) == core
  {
    assert left + core + right == left + (core + right);
    TrimLeftSkips(left, core + right);
    if core == "" {
      assert core + right == right + "";
      TrimLeftSkips(right, "");
    } else {
      TrimRightSkips(core, right);
    }
  }

  lemma TrimOfTrimmed(s: string)
    requires Trimmed(s)
    ensures Trim(s) == s
  {
    TrimUnique("", s, "");
    assert "" + s + "" == s;
  }

  lemma TrimKeepsFirst(s: string)
    requires s != "" && !IsSpace(s[0])
    ensures Trim(s) != "" && Trim(s)[0] == s[0]
  {
    assert TrimLeft(IsSpace, s) == s;
    TrimRightSplits(IsSpace, s);
  }

  /** Position of the first `c`, if any. */
  function IndexOf(s: string, c: char): (r: Option<nat>)
    ensures r.Some? ==> r.value < |s| && s[r.value] == c && c !in s[..r.value]
    ensures r.None? <==> c !in s
  {
    if s == "" then None
    else if s[0] == c then Some(0)
    else match IndexOf(s[1..], c)
      case None => None
      case Some(i) => assert s[..i + 1] == [s[0]] + s[1..][..i]; Some(i + 1)
  }

  lemma {:induction false} IndexOfFirst(a: string, c: char, b: string)
    requires c !in a
    ensures IndexOf(a + [c] + b, c) == Some(|a|)
  {
    if a != "" {
      assert (a + [c] + b)[1..] == a[1..] + [c] + b;
      IndexOfFirst(a[1..], c, b);
    }
  }

  /** strings.Cut around the first `c`. */
  function Cut(s: string, c: char): Option<(string, string)> {
    match IndexOf(s, c)
    case None => None
    case Some(i) => Some((s[..i], s[i + 1..]))
  }

  /** Cutting splits at the first `c`, and only if there is one. */
  lemma CutIs(s: string, c: char, a: string, b: string)
    ensures Cut(s, c) == Some((a, b)) <==> s == a + [c] + b && c !in a
  {
    if c !in a {
      IndexOfFirst(a, c, b);
      assert (a + [c] + b)[..|a|] == a && (a + [c] + b)[|a| + 1..] == b;
    }
  }

  predicate HasPrefix(s: string, p: string) {
    |p| <= |s| && s[..|p|] == p
  }

  /** The pieces between line feeds; a final empty piece is not reported. */
  function RawLines(text: string): seq<string>
    decreases |text|
  {
    if text == "" then []
    else match IndexOf(text, '\n')
      case None => [text]
      case Some(i) => [text[..i]] + RawLines(text[i + 1..])
  }

  /** The pieces between line feeds, a final empty one included. */
  function Pieces(s: string): (r: seq<string>)
    ensures r != []
    decreases |s|
  {
    match IndexOf(s, '\n')
    case None => [s]
    case Some(i) => [s[..i]] + Pieces(s[i + 1..])
  }

  function FirstLine(s: string): string {
    Pieces(s)[0]
  }

  function MoreLines(s: string): seq<string> {
    Pieces(s)[1..]
  }

  lemma OnePiece(s: string)
    requires '\n' !in s
    ensures Pieces(s) == [s] && FirstLine(s) == s && MoreLines(s) == []
  {
  }

  lemma PiecesCons(line: string, rest: string)
    requires '\n' !in line
    ensures Pieces(line + "\n" + rest) == [line] + Pieces(rest)
  {
    IndexOfFirst(line, '\n', rest);
    var s := line + "\n" + rest;
    assert s == line + ['\n'] + rest;
    assert s[..|line|] == line && s[|line| + 1..] == rest;
  }

  /** A text either is one line or starts with one. */
  lemma SplitFirst(s: string) returns (rest: string)
    ensures '\n' !in FirstLine(s) && Pieces(s) == [FirstLine(s)] + MoreLines(s)
    ensures '\n' in s ==> s == FirstLine(s) + "\n" + rest && MoreLines(s) == Pieces(rest)
    ensures '\n' !in s ==> s == FirstLine(s) && MoreLines(s) == []
  {
    match IndexOf(s, '\n')
    case None => rest := "";
    case Some(i) =>
      rest := s[i + 1..];
      assert s == s[..i] + "\n" + rest;
  }

  /** Every piece is part of the text, between the texts before and after it. */
  lemma {:induction false} PieceAt(s: string, i: nat) returns (before: string, after: string)
    requires i < |Pieces(s)|
    ensures s == before + Pieces(s)[i] + after && '\n' !in Pieces(s)[i]
    decreases |s|
  {
    hide Pieces, FirstLine, MoreLines;
    var rest := SplitFirst(s);
    if i == 0 {
      before, after := "", if '\n' in s then "\n" + rest else "";
      assert "" + FirstLine(s) == FirstLine(s) && FirstLine(s) + "" == FirstLine(s);
      assert FirstLine(s) + "\n" + rest == FirstLine(s) + ("\n" + rest);
    } else {
      before, after := PieceAt(rest, i - 1);
      assert FirstLine(s) + "\n" + (before + Pieces(s)[i] + after) ==
          FirstLine(s) + "\n" + before + Pieces(s)[i] + after;
      before := FirstLine(s) + "\n" + before;
    }
  }

  /** A text and a line feed in front of some lines add the text's pieces to them. */
  lemma {:induction false} RawLinesOf(s: string, rest: string)
    ensures RawLines(s + "\n" + rest) == Pieces(s) + RawLines(rest)
    decreases |s|
  {
    hide Pieces, FirstLine, MoreLines, RawLines;
    var more := SplitFirst(s);
    var first := FirstLine(s);
    if '\n' in s {
      RawLinesOf(more, rest);
      assert first + "\n" + more + "\n" + rest == first + "\n" + (more + "\n" + rest);
      RawLinesCons(first, more + "\n" + rest);
      assert [first] + (Pieces(more) + RawLines(rest)) == [first] + Pieces(more) + RawLines(rest);
    } else {
      RawLinesCons(s, rest);
      assert [first] + [] == [first];
    }
  }

  /** Where in a text its trimmed part starts. */
  lemma TrimSpan(s: string) returns (at: nat)
    ensures at + |Trim(s)| <= |s| && s[at..at + |Trim(s)|] == Trim(s) && Trimmed(Trim(s))
    ensures forall j | 0 <= j < |s| && !(at <= j < at + |Trim(s)|) :: IsSpace(s[j])
  {
    var l, r := TrimSplits(s);
    at := |l|;
    assert forall j | 0 <= j < |l| :: s[j] == l[j];
    assert forall j | 0 <= j < |r| :: s[at + |Trim(s)| + j] == r[j];
  }

  /** Trimming keeps at least what trimming any part keeps. */
  lemma TrimContains(before: string, part: string, after: string)
    ensures |Trim(part)| <= |Trim(before + part + after)|
  {
    hide TrimBy;
    var s := before + part + after;
    var at := TrimSpan(s);
    var inner := TrimSpan(part);
    var size := |Trim(part)|;
    if size > 0 {
      assert s[|before| + inner] == part[inner] == Trim(part)[0];
      assert s[|before| + inner + size - 1] == part[inner + size - 1] == Trim(part)[size - 1];
    }
  }

  lemma BlankTrims(s: string)
    ensures AllSpace(s) <==> Trim(s) == ""
  {
    var l, r := TrimSplits(s);
    if AllSpace(s) {
      TrimUnique(s, "", "");
      assert s + "" + "" == s;
    }
  }

  /** If a text trims to what its first line trims to, its other lines are blank. */
  lemma MoreLinesBlank(s: string, i: nat)
    requires Trim(FirstLine(s)) == Trim(s) && i < |MoreLines(s)|
    ensures Trim(MoreLines(s)[i]) == ""
  {
    hide Pieces, FirstLine, Trim;
    var rest := SplitFirst(s);
    OnlyFirstCounts(FirstLine(s), "\n" + rest);
    assert s == FirstLine(s) + ("\n" + rest);
    var before, after := PieceAt(rest, i);
    var piece := MoreLines(s)[i];
    assert rest == before + piece + after;
    forall j | 0 <= j < |piece| ensures IsSpace(piece[j]) {
      assert piece[j] == ("\n" + rest)[1 + |before| + j];
    }
    BlankTrims(piece);
  }

  lemma OnlyFirstCounts(first: string, rest: string)
    requires Trim(first) == Trim(first + rest)
    ensures AllSpace(rest)
  {
    hide TrimBy;
    var s := first + rest;
    var at := TrimSpan(s);
    var inner := TrimSpan(first);
    var size := |Trim(s)|;
    if size > 0 {
      assert s[inner] == first[inner] == Trim(s)[0] && s[at] == Trim(s)[0];
      assert s[inner + size - 1] == first[inner + size - 1];
    }
    forall j | 0 <= j < |rest| ensures IsSpace(rest[j]) {
      assert rest[j] == s[|first| + j];
    }
  }

  function DropCR(line: string): string {
    if line != "" && line[|line| - 1] == '\r' then line[..|line| - 1] else line
  }

  function Utf8Len(c: char): nat {
    if c < '\U{80}' then 1 else if c < '\U{800}' then 2 else if c < '\U{10000}' then 3 else 4
  }

  function ByteLen(s: string): nat {
    if s == "" then 0 else ByteLen(s[..|s| - 1]) + Utf8Len(s[|s| - 1])
  }

  /** Bytes add up over texts, and a character has one to four of them by its range of code points. */
  lemma {:induction false} ByteLenIs(a: string, b: string, c: char)
    ensures ByteLen("") == 0 && ByteLen(a + b) == ByteLen(a) + ByteLen(b)
    ensures c <= '\U{7F}' ==> ByteLen([c]) == 1
    ensures '\U{80}' <= c <= '\U{7FF}' ==> ByteLen([c]) == 2
    ensures '\U{800}' <= c <= '\U{FFFF}' ==> ByteLen([c]) == 3
    ensures '\U{10000}' <= c ==> ByteLen([c]) == 4
    decreases |b|
  {
    assert [c][..0] == [];
    if b == [] {
      assert a + b == a;
    } else {
      var n := |b| - 1;
      assert (a + b)[..|a| + n] == a + b[..n];
      ByteLenIs(a, b[..n], c);
    }
  }

  /** bufio.MaxScanTokenSize: a line whose line feed is not among the first 64 KiB stops the scanner. */
  const MAX_SCAN_TOKEN := 0x1_0000

  predicate TooLong(line: string) {
    ByteLen(line) >= MAX_SCAN_TOKEN
  }

  /** What a bufio.Scanner hands out, and whether it stopped on an overlong line. */
  datatype Scan = Scan(lines: seq<string>, overlong: bool)

  function ScanRaw(raw: seq<string>): (r: Scan)
    ensures |r.lines| <= |raw|
  {
    if raw == [] then Scan([], false)
    else if TooLong(raw[0]) then Scan([], true)
    else var rest := ScanRaw(raw[1..]); Scan([DropCR(raw[0])] + rest.lines, rest.overlong)
  }

  function ScanLines(text: string): Scan {
    ScanRaw(RawLines(text))
  }

  lemma RawLinesCons(line: string, rest: string)
    requires '\n' !in line
    ensures RawLines(line + "\n" + rest) == [line] + RawLines(rest)
  {
    IndexOfFirst(line, '\n', rest);
    var s := line + "\n" + rest;
    assert s == line + ['\n'] + rest;
    assert s[..|line|] == line && s[|line| + 1..] == rest;
  }

  /** A text without a final line feed still has a last line. */
  lemma LastRawLine(s: string)
    requires '\n' !in s
    ensures RawLines(s) == if s == "" then [] else [s]
  {
  }

  /** The scanner hands out the lines before the first overlong one, each without one final carriage return. */
  lemma {:induction false} ScanRawIs(raw: seq<string>, n: nat)
    requires n <= |raw| && (n < |raw| ==> TooLong(raw[n])) && forall i | 0 <= i < n :: !TooLong(raw[i])
    ensures var scan := ScanRaw(raw);
            && |scan.lines| == n && (scan.overlong <==> n < |raw|)
            && forall i | 0 <= i < n :: raw[i] == scan.lines[i] + "\r" ||
                                        (raw[i] == scan.lines[i] && (raw[i] == "" || raw[i][|raw[i]| - 1] != '\r'))
  {
    hide TooLong;
    if n > 0 { ScanRawIs(raw[1..], n - 1); }
  }

  lemma TrimDropCR(line: string)
    ensures Trim(DropCR(line)) == Trim(line)
  {
    var l, r := TrimSplits(DropCR(line));
    if line != "" && line[|line| - 1] == '\r' {
      assert line == l + Trim(DropCR(line)) + (r + "\r");
      TrimUnique(l, Trim(DropCR(line)), r + "\r");
    }
  }

  /** Decimal text of an integer, as strconv.Itoa writes it. */
  function Itoa(n: int): (r: string)
    ensures r != "" && forall c | c in r :: c == '-' || '0' <= c <= '9'
    decreases n < 0, if n < 0 then -n else n
  {
    if n < 0 then "-" + Itoa(-n)
    else if n < 10 then [('0' as int + n) as char]
    else Itoa(n / 10) + [('0' as int + n % 10) as char]
  }

  /** The number that decimal digits stand for. */
  function Digits(s: string): int {
    if s == "" then 0 else 10 * Digits(s[..|s| - 1]) + (s[|s| - 1] as int - '0' as int)
  }

  /** The text stands for the number, in digits with a minus sign before a negative one. */
  lemma {:induction false} ItoaIs(n: int)
    ensures n >= 0 ==> Digits(Itoa(n)) == n && forall c | c in Itoa(n) :: '0' <= c <= '9'
    ensures n < 0 ==> Itoa(n) == "-" + Itoa(-n) && Digits(Itoa(-n)) == -n
    decreases n < 0, if n < 0 then -n else n
  {
    if n < 0 {
      ItoaIs(-n);
    } else if n >= 10 {
      ItoaIs(n / 10);
      assert Itoa(n)[..|Itoa(n)| - 1] == Itoa(n / 10);
    } else {
      assert Itoa(n)[..0] == "";
    }
  }
}

/** node.ini: the writer and the line reader of internal/config/nodeini.go, and the health check's own reader. */
module NodeIni {
  import opened Wrappers
  import opened Text

  type NodeState = map<string, string>

  datatype LoadError = LineTooLong

  // ---------------------------------------------------------------- reader

  datatype Line = Skipped | Header(node: bool) | Pair(key: string, value: string)

  function Parse(line: string): Line {
    var l := Trim(line);
    if l == "" || HasPrefix(l, "#") || HasPrefix(l, ";") then Skipped
    else if HasPrefix(l, "[") && l[|l| - 1] == ']' then Header(l == "[node]")
    else match Cut(l, '=')
      case None => Skipped
      case Some(cut) => Pair(Trim(cut.0), Trim(cut.1))
  }

  /** What a line is: comments and blanks, section headers, and pairs around the first equals sign. */
  lemma ParseIs(line: string, key: string, value: string)
    ensures var t := Trim(line);
            var comment := t == "" || t[0] == '#' || t[0] == ';';
            var header := !comment && t[0] == '[' && t[|t| - 1] == ']';
            && (Parse(line).Header? <==> header)
            && (Parse(line) == Header(true) <==> t == "[node]")
            && (Parse(line) == Pair(key, value) <==>
                  && !comment && !header
                  && exists a, b :: t == a + "=" + b && '=' !in a && Trim(a) == key && Trim(b) == value)
  {
    hide Trim, Cut;
    var t := Trim(line);
    FirstIs(t, "#");
    FirstIs(t, ";");
    FirstIs(t, "[");
    if Parse(line) == Pair(key, value) {
      var (a, b) := Cut(t, '=').value;
      CutIs(t, '=', a, b);
      assert t == a + "=" + b;
    }
    forall a, b | t == a + "=" + b && '=' !in a ensures Cut(t, '=') == Some((a, b)) {
      CutIs(t, '=', a, b);
    }
  }

  lemma FirstIs(t: string, p: string)
    requires |p| == 1
    ensures HasPrefix(t, p) <==> t != "" && t[0] == p[0]
  {
    if t != "" { assert t[..1] == [t[0]] && p == [p[0]]; }
  }

  datatype Reader = Reader(inSection: bool, found: bool, state: NodeState)

  function Feed(r: Reader, line: Line): Reader {
    match line
    case Skipped => r
    case Header(node) => Reader(node, r.found || node, r.state)
    case Pair(key, value) => if r.inSection then r.(state := r.state[key := value]) else r
  }

  function FeedFrom(r: Reader, lines: seq<Line>): Reader {
    if lines == [] then r else Feed(FeedFrom(r, lines[..|lines| - 1]), lines[|lines| - 1])
  }

  const START := Reader(false, false, map[])

  /** Line i is inside the section: the last header before it is [node]. */
  ghost predicate Inside(lines: seq<Line>, i: nat) {
    exists h :: 0 <= h < i && h < |lines| && lines[h] == Header(true) &&
                forall j | h < j < i && j < |lines| :: !lines[j].Header?
  }

  ghost predicate Defines(lines: seq<Line>, i: nat, key: string) {
    i < |lines| && lines[i].Pair? && lines[i].key == key && Inside(lines, i)
  }

  ghost predicate LastDefines(lines: seq<Line>, i: nat, key: string) {
    Defines(lines, i, key) && forall j: nat | i < j :: !Defines(lines, j, key)
  }

  lemma InsidePrefix(lines: seq<Line>, i: nat)
    requires lines != [] && i <= |lines| - 1
    ensures Inside(lines, i) <==> Inside(lines[..|lines| - 1], i)
  {
    var prior := lines[..|lines| - 1];
    if Inside(lines, i) {
      var h :| 0 <= h < i && h < |lines| && lines[h] == Header(true)
               && forall j | h < j < i && j < |lines| :: !lines[j].Header?;
      assert prior[h] == Header(true) && forall j | h < j < i && j < |prior| :: !prior[j].Header?;
    }
    if Inside(prior, i) {
      var h :| 0 <= h < i && h < |prior| && prior[h] == Header(true)
               && forall j | h < j < i && j < |prior| :: !prior[j].Header?;
      assert lines[h] == Header(true) && forall j | h < j < i && j < |lines| :: !lines[j].Header?;
    }
  }

  lemma InsideEnd(lines: seq<Line>)
    requires lines != []
    ensures var n := |lines| - 1;
            Inside(lines, n + 1) <==> lines[n] == Header(true) || (!lines[n].Header? && Inside(lines, n))
  {
    var n := |lines| - 1;
    if Inside(lines, n + 1) && lines[n] != Header(true) {
      var h :| 0 <= h < n + 1 && lines[h] == Header(true)
               && forall j | h < j < n + 1 && j < |lines| :: !lines[j].Header?;
      assert h < n && !lines[n].Header?;
    }
    if !lines[n].Header? && Inside(lines, n) {
      var h :| 0 <= h < n && lines[h] == Header(true) && forall j | h < j < n && j < |lines| :: !lines[j].Header?;
      assert forall j | h < j < n + 1 && j < |lines| :: !lines[j].Header?;
    }
  }

  lemma {:induction false} ReaderSections(lines: seq<Line>)
    ensures FeedFrom(START, lines).found <==> Header(true) in lines
    ensures FeedFrom(START, lines).inSection <==> Inside(lines, |lines|)
  {
    if lines != [] {
      var n := |lines| - 1;
      ReaderSections(lines[..n]);
      InsideEnd(lines);
      InsidePrefix(lines, n);
      hide Inside;
      assert lines == lines[..n] + [lines[n]];
    }
  }

  lemma SameDefines(lines: seq<Line>, i: nat, key: string)
    requires i < |lines| - 1
    ensures Defines(lines, i, key) <==> Defines(lines[..|lines| - 1], i, key)
  {
    InsidePrefix(lines, i);
    hide Inside;
  }

  /**
   * What the reader collects: it found the section if some line is [node], and a key has the value of its last
   * definition inside the section.
   */
  lemma {:induction false} ReaderIs(lines: seq<Line>, key: string)
    ensures var f := FeedFrom(START, lines);
            && (f.found <==> Header(true) in lines)
            && (key !in f.state ==> forall i: nat :: !Defines(lines, i, key))
            && (key in f.state ==> exists i: nat :: LastDefines(lines, i, key) && lines[i].value == f.state[key])
  {
    ReaderSections(lines);
    if lines != [] {
      var n := |lines| - 1;
      var prior := lines[..n];
      ReaderIs(prior, key);
      ReaderSections(prior);
      InsidePrefix(lines, n);
      forall i: nat | i < n ensures Defines(lines, i, key) <==> Defines(prior, i, key) { SameDefines(lines, i, key); }
      assert Defines(lines, n, key) <==> lines[n].Pair? && lines[n].key == key && FeedFrom(START, prior).inSection;
      assert forall i: nat | n < i :: !Defines(lines, i, key);
      hide Inside, Defines;
      if Defines(lines, n, key) {
        assert LastDefines(lines, n, key);
      } else if key in FeedFrom(START, prior).state {
        var i: nat :| LastDefines(prior, i, key) && prior[i].value == FeedFrom(START, prior).state[key];
        LastStays(lines, i, key);
      }
    }
  }

  lemma LastStays(lines: seq<Line>, i: nat, key: string)
    requires lines != [] && LastDefines(lines[..|lines| - 1], i, key) && !Defines(lines, |lines| - 1, key)
    ensures LastDefines(lines, i, key)
  {
    forall j: nat | j < |lines| - 1 ensures Defines(lines, j, key) <==> Defines(lines[..|lines| - 1], j, key) {
      SameDefines(lines, j, key);
    }
  }

  function ParseAll(lines: seq<string>): (r: seq<Line>)
    ensures |r| == |lines| && forall i | 0 <= i < |r| :: r[i] == Parse(lines[i])
  {
    seq(|lines|, i requires 0 <= i < |lines| => Parse(lines[i]))
  }

  function LoadText(text: string): Result<Option<NodeState>, LoadError> {
    var scan := ScanLines(text);
    var r := FeedFrom(START, ParseAll(scan.lines));
    if scan.overlong then Failure(LineTooLong) else Success(if r.found then Some(r.state) else None)
  }

  /** A missing file reads as no state at all. */
  function Load(file: Option<string>): Result<Option<NodeState>, LoadError> {
    match file
    case None => Success(None)
    case Some(text) => LoadText(text)
  }

  method LoadNodeState(file: Option<string>) returns (r: Result<Option<NodeState>, LoadError>)
    ensures r == Load(file)
  {
    if file.None? {
      return Success(None);
    }
    var scan := ScanLines(file.value);
    ghost var parsed := ParseAll(scan.lines);
    var state: NodeState, inSection, found := map[], false, false;
    for i := 0 to |scan.lines|
      invariant FeedFrom(START, parsed[..i]) == Reader(inSection, found, state)
    {
      assert parsed[..i + 1][..i] == parsed[..i] && parsed[i] == Parse(scan.lines[i]);
      var line := Trim(scan.lines[i]);
      if line == "" || HasPrefix(line, "#") || HasPrefix(line, ";") {
        continue;
      }
      if HasPrefix(line, "[") && line[|line| - 1] == ']' {
        inSection := line == "[node]";
        if inSection {
          found := true;
        }
        continue;
      }
      if !inSection {
        continue;
      }
      var cut := Cut(line, '=');
      if cut.None? {
        continue;
      }
      state := state[Trim(cut.value.0) := Trim(cut.value.1)];
    }
    assert parsed[..|scan.lines|] == parsed;
    if scan.overlong {
      return Failure(LineTooLong);
    }
    r := Success(if found then Some(state) else None);
  }

  // ---------------------------------------------------------------- writer

  /** Byte order of strings, which for UTF-8 is code point order. */
  predicate Leq(a: string, b: string) {
    a == "" || (b != "" && (a[0] < b[0] || (a[0] == b[0] && Leq(a[1..], b[1..]))))
  }

  ghost predicate StrictlySorted(s: seq<string>) {
    forall i, j | 0 <= i < j < |s| :: s[i] != s[j] && Leq(s[i], s[j])
  }

  ghost function Elements(s: seq<string>): set<string> {
    set x | x in s
  }

  lemma {:induction false} LeqTotal(a: string, b: string)
    ensures Leq(a, b) || Leq(b, a)
    ensures Leq(a, b) && Leq(b, a) ==> a == b
  {
    if a != "" && b != "" {
      LeqTotal(a[1..], b[1..]);
      if a[0] == b[0] && a[1..] == b[1..] {
        assert a == [a[0]] + a[1..] == b;
      }
    }
  }

  lemma {:induction false} LeqTransitive(a: string, b: string, c: string)
    requires Leq(a, b) && Leq(b, c)
    ensures Leq(a, c)
  {
    if a != "" && a[0] == b[0] == c[0] {
      LeqTransitive(a[1..], b[1..], c[1..]);
    }
  }

  function Insert(x: string, s: seq<string>): seq<string> {
    if s == [] then [x] else if Leq(x, s[0]) then [x] + s else [s[0]] + Insert(x, s[1..])
  }

  /** sort.Strings. */
  function SortStrings(s: seq<string>): seq<string> {
    if s == [] then [] else Insert(s[0], SortStrings(s[1..]))
  }

  lemma {:induction false} InsertSorted(x: string, s: seq<string>)
    requires StrictlySorted(s) && x !in s
    ensures StrictlySorted(Insert(x, s)) && Elements(Insert(x, s)) == Elements(s) + {x}
  {
    if s != [] {
      LeqTotal(x, s[0]);
      if Leq(x, s[0]) {
        forall j | 0 <= j < |s| ensures Leq(x, s[j]) {
          if j > 0 { LeqTransitive(x, s[0], s[j]); }
        }
        assert Elements([x] + s) == Elements(s) + {x};
      } else {
        InsertSorted(x, s[1..]);
        var t := Insert(x, s[1..]);
        assert Elements(s) == Elements(s[1..]) + {s[0]};
        forall j | 0 <= j < |t| ensures t[j] != s[0] && Leq(s[0], t[j]) {
          assert t[j] in Elements(t);
        }
        assert Elements([s[0]] + t) == Elements(t) + {s[0]};
      }
    }
  }

  ghost predicate Distinct(s: seq<string>) {
    forall i, j | 0 <= i < j < |s| :: s[i] != s[j]
  }

  lemma {:induction false} SortStringsSorts(s: seq<string>)
    requires Distinct(s)
    ensures StrictlySorted(SortStrings(s)) && Elements(SortStrings(s)) == Elements(s)
  {
    if s != [] {
      SortStringsSorts(s[1..]);
      assert s[0] !in Elements(s[1..]);
      InsertSorted(s[0], SortStrings(s[1..]));
      assert Elements(s) == Elements(s[1..]) + {s[0]};
    }
  }

  /** Sorting forgets the order in which a map was iterated: there is one sorted listing of a set of keys. */
  lemma {:induction false} SortedUnique(a: seq<string>, b: seq<string>)
    requires StrictlySorted(a) && StrictlySorted(b) && Elements(a) == Elements(b)
    ensures a == b
  {
    if a == [] {
      assert forall i | 0 <= i < |b| :: b[i] in Elements(b);
    } else {
      assert a[0] in Elements(a) && Elements(a) != {};
      assert b != [];
      assert b[0] in Elements(b);
      LeqTotal(a[0], b[0]);
      assert a[0] in b && b[0] in a;
      assert a[0] == b[0];
      assert Elements(a[1..]) == Elements(a) - {a[0]};
      assert Elements(b[1..]) == Elements(b) - {b[0]};
      SortedUnique(a[1..], b[1..]);
    }
  }

  ghost function SortedKeys(keys: set<string>): (r: seq<string>)
    ensures StrictlySorted(r) && Elements(r) == keys
  {
    if keys == {} then []
    else
      var k :| k in keys;
      var rest := SortedKeys(keys - {k});
      assert k !in Elements(rest);
      InsertSorted(k, rest);
      Insert(k, rest)
  }

  function NonEmpty(fields: NodeState): set<string> {
    set k | k in fields && fields[k] != ""
  }

  function Entry(key: string, value: string): string {
    key + " = " + value
  }

  /** Go's map read: a missing key reads as the empty string. */
  function At(fields: NodeState, key: string): string {
    if key in fields then fields[key] else ""
  }

  function Render(keys: seq<string>, fields: NodeState): string {
    if keys == [] then "" else Entry(keys[0], At(fields, keys[0])) + "\n" + Render(keys[1..], fields)
  }

  /** The text written for `fields`: sorted keys, empty values left out. */
  ghost function SaveText(fields: NodeState): string {
    "[node]\n" + Render(SortedKeys(NonEmpty(fields)), fields)
  }

  method SaveNodeState(fields: NodeState) returns (text: string)
    ensures text == SaveText(fields)
  {
    var keys := CollectKeys(fields);
    SortStringsSorts(keys);
    SortedUnique(SortStrings(keys), SortedKeys(NonEmpty(fields)));
    keys := SortStrings(keys);
    text := "[node]\n";
    for i := 0 to |keys|
      invariant text + Render(keys[i..], fields) == SaveText(fields)
    {
      var entry := Entry(keys[i], At(fields, keys[i])) + "\n";
      ghost var rest := Render(keys[i + 1..], fields);
      assert keys[i..][1..] == keys[i + 1..];
      assert text + (entry + rest) == text + entry + rest;
      text := text + entry;
    }
    assert text + "" == text;
  }

  /** Go iterates a map in no particular order. */
  method CollectKeys(fields: NodeState) returns (keys: seq<string>)
    ensures Distinct(keys) && Elements(keys) == NonEmpty(fields)
  {
    keys := [];
    var todo := fields.Keys;
    while todo != {}
      invariant todo <= fields.Keys && Distinct(keys)
      invariant Elements(keys) == NonEmpty(fields) - todo
      decreases todo
    {
      var k :| k in todo;
      if fields[k] != "" {
        assert k !in Elements(keys);
        assert Elements(keys + [k]) == Elements(keys) + {k};
        keys := keys + [k];
      }
      todo := todo - {k};
    }
  }

  // ---------------------------------------------------------------- one entry

  /** A key that one `key = value` line can carry at all, whatever the value. */
  predicate PlainKey(key: string) {
    Trimmed(key) && '=' !in key && !HasPrefix(key, "#") && !HasPrefix(key, ";")
  }

  /** The one shape of an entry that reads as a section header instead. */
  predicate LooksLikeHeader(key: string, value: string) {
    HasPrefix(key, "[") && Trim(value) != "" && Trim(value)[|Trim(value)| - 1] == ']'
  }

  predicate KeyOk(key: string, value: string) {
    PlainKey(key) && !LooksLikeHeader(key, value)
  }

  /** Whatever line a key was read from, it is plain. */
  lemma ParsedKeyIsPlain(line: string)
    requires Parse(line).Pair?
    ensures PlainKey(Parse(line).key)
  {
    var l := Trim(line);
    var _, _ := TrimSplits(line);
    var before := l[..IndexOf(l, '=').value];
    var left, right := TrimSplits(before);
    var key := Trim(before);
    if before == "" {
      assert key == "";
    } else {
      assert before[0] == l[0];
      TrimKeepsFirst(before);
      assert forall p | |p| == 1 :: HasPrefix(l, p) == (p[0] == l[0]);
    }
    assert forall j | 0 <= j < |key| :: key[j] == before[|left| + j];
  }

  function Head(key: string): string {
    if key == "" then "" else key + " "
  }

  function Tail(value: string): string {
    if Trim(value) == "" then "" else " " + TrimRight(IsSpace, value)
  }

  lemma TailShape(value: string) returns (left: string, right: string)
    ensures value == left + Trim(value) + right && AllSpace(left) && AllSpace(right)
    ensures Trimmed(Trim(value))
    ensures Tail(value) == if Trim(value) == "" then "" else " " + left + Trim(value)
  {
    left, right := TrimSplits(value);
    var core := Trim(value);
    if core != "" {
      TrimRightSkips(left + core, right);
      assert TrimRight(IsSpace, left + core) == left + core;
    }
  }

  lemma Glue(key: string, value: string, tail: string, trail: string)
    requires tail + trail == " " + value
    ensures Entry(key, value) == (if key == "" then " " else "") + (Head(key) + "=" + tail) + trail
  {
    var lead := if key == "" then " " else "";
    assert lead + Head(key) == key + " ";
    calc {
      lead + (Head(key) + "=" + tail) + trail;
      (lead + Head(key)) + "=" + (tail + trail);
      (key + " ") + "=" + (" " + value);
      Entry(key, value);
    }
  }

  /** An entry is its core between white space. */
  lemma EntrySplits(key: string, value: string) returns (lead: string, trail: string)
    ensures AllSpace(lead) && AllSpace(trail)
    ensures Entry(key, value) == lead + (Head(key) + "=" + Tail(value)) + trail
  {
    hide Trim, Tail, Entry, Head, Trimmed;
    var left, right := TailShape(value);
    lead := if key == "" then " " else "";
    trail := if Trim(value) == "" then " " + value else right;
    assert Trim(value) == "" ==> value == left + right;
    assert Tail(value) + trail == " " + value;
    Glue(key, value, Tail(value), trail);
  }

  lemma CoreTrimmed(key: string, value: string)
    requires Trimmed(key)
    ensures var l := Head(key) + "=" + Tail(value);
            && Trimmed(l) && l[0] == (if key == "" then '=' else key[0])
            && l[|l| - 1] == if Trim(value) == "" then '=' else Trim(value)[|Trim(value)| - 1]
  {
    var left, right := TailShape(value);
    assert Tail(value) != "" ==> Tail(value)[|Tail(value)| - 1] == Trim(value)[|Trim(value)| - 1];
  }

  /** An entry's trimmed line. */
  lemma EntryCore(key: string, value: string)
    requires Trimmed(key)
    ensures Trim(Entry(key, value)) == Head(key) + "=" + Tail(value)
  {
    var lead, trail := EntrySplits(key, value);
    CoreTrimmed(key, value);
    TrimUnique(lead, Head(key) + "=" + Tail(value), trail);
  }

  lemma CoreCut(head: string, tail: string)
    requires '=' !in head
    ensures Cut(head + "=" + tail, '=') == Some((head, tail)) && head + "=" + tail != "[node]"
  {
    var l := head + "=" + tail;
    IndexOfFirst(head, '=', tail);
    assert l == head + ['='] + tail;
    assert l[..|head|] == head && l[|head| + 1..] == tail;
    assert l[|head|] == '=' && '=' !in "[node]";
  }

  lemma PartsTrim(key: string, value: string)
    requires Trimmed(key)
    ensures Trim(Head(key)) == key && Trim(Tail(value)) == Trim(value)
  {
    var left, _ := TailShape(value);
    var _, _ := TrimSplits(value);
    var core := Trim(value);
    TrimOfTrimmed("");
    TrimUnique("", key, " ");
    assert "" + key + " " == key + " ";
    TrimUnique(" " + left, core, "");
    assert " " + left + core + "" == " " + left + core;
  }

  /** How an entry with a plain key reads back. */
  lemma ParseEntry(key: string, value: string)
    requires PlainKey(key)
    ensures Parse(Entry(key, value)) ==
            if LooksLikeHeader(key, value) then Header(false) else Pair(key, Trim(value))
  {
    var l := Head(key) + "=" + Tail(value);
    EntryCore(key, value);
    CoreTrimmed(key, value);
    CoreCut(Head(key), Tail(value));
    PartsTrim(key, value);
    FirstChar(l, key, "#");
    FirstChar(l, key, ";");
    FirstChar(l, key, "[");
  }

  lemma FirstChar(l: string, key: string, p: string)
    requires |p| == 1 && p != "=" && l != "" && l[0] == if key == "" then '=' else key[0]
    ensures HasPrefix(l, p) == HasPrefix(key, p)
  {
    assert l[..1] == [l[0]] && p == [p[0]];
    assert key != "" ==> key[..1] == [key[0]];
  }

  /** An entry reads back as exactly the pair it was written for just when its key is acceptable. */
  lemma EntryRoundTrip(key: string, value: string)
    ensures Parse(Entry(key, value)) == Pair(key, Trim(value)) <==> KeyOk(key, value)
  {
    if Parse(Entry(key, value)) == Pair(key, Trim(value)) {
      ParsedKeyIsPlain(Entry(key, value));
    }
    if PlainKey(key) {
      ParseEntry(key, value);
    }
  }

  // ---------------------------------------------------------------- the whole file

  /** What a reader should get back. */
  function Reloaded(fields: NodeState): NodeState {
    map k | k in NonEmpty(fields) :: Trim(fields[k])
  }

  /** The lines that the entries take up in the file. */
  ghost function Entries(keys: seq<string>, fields: NodeState): seq<string> {
    if keys == [] then [] else Pieces(Entry(keys[0], At(fields, keys[0]))) + Entries(keys[1..], fields)
  }

  ghost function SavedLines(fields: NodeState): seq<string> {
    Entries(SortedKeys(NonEmpty(fields)), fields)
  }

  lemma {:induction false} RenderedLines(keys: seq<string>, fields: NodeState)
    ensures RawLines(Render(keys, fields)) == Entries(keys, fields)
  {
    if keys != [] {
      var entry := Entry(keys[0], At(fields, keys[0]));
      RenderedLines(keys[1..], fields);
      hide RawLines, Entry, At, Pieces;
      RawLinesOf(entry, Render(keys[1..], fields));
    }
  }

  lemma SavedRaw(fields: NodeState)
    ensures RawLines(SaveText(fields)) == ["[node]"] + SavedLines(fields)
  {
    var keys := SortedKeys(NonEmpty(fields));
    RenderedLines(keys, fields);
    RawLinesCons("[node]", Render(keys, fields));
    assert "[node]\n" == "[node]" + "\n";
  }

  lemma {:induction false} LineOfEntry(keys: seq<string>, fields: NodeState, line: string)
    ensures line in Entries(keys, fields) <==> exists k :: k in keys && line in Pieces(Entry(k, At(fields, k)))
  {
    hide Pieces, Entry;
    if keys != [] {
      LineOfEntry(keys[1..], fields, line);
      assert forall k :: k in keys <==> k == keys[0] || k in keys[1..];
    }
  }

  /** Some line of the entry reaches the scanner's limit. */
  ghost predicate LongEntry(key: string, value: string) {
    exists l :: l in Pieces(Entry(key, value)) && TooLong(l)
  }

  ghost predicate Overlong(fields: NodeState) {
    exists k :: k in NonEmpty(fields) && LongEntry(k, fields[k])
  }

  lemma {:induction false} ScanRawShort(raw: seq<string>)
    requires forall i | 0 <= i < |raw| :: !TooLong(raw[i])
    ensures !ScanRaw(raw).overlong && |ScanRaw(raw).lines| == |raw|
    ensures forall i | 0 <= i < |raw| :: ScanRaw(raw).lines[i] == DropCR(raw[i])
  {
    if raw != [] {
      ScanRawShort(raw[1..]);
    }
  }

  /** One overlong line and the scanner fails, wherever the line stands. */
  lemma {:induction false} OverlongLineFails(raw: seq<string>)
    ensures ScanRaw(raw).overlong <==> exists l :: l in raw && TooLong(l)
  {
    if raw != [] {
      OverlongLineFails(raw[1..]);
      assert forall l :: l in raw <==> l == raw[0] || l in raw[1..];
    }
  }

  lemma HeaderReads()
    ensures Parse("[node]") == Header(true) && !TooLong("[node]")
  {
    TrimOfTrimmed("[node]");
    ByteLenBound("[node]");
  }

  lemma {:induction false} ByteLenBound(s: string)
    ensures ByteLen(s) <= 4 * |s|
  {
    if s != "" { ByteLenBound(s[..|s| - 1]); }
  }

  lemma LongSavedLine(fields: NodeState)
    ensures Overlong(fields) <==> exists l :: l in ["[node]"] + SavedLines(fields) && TooLong(l)
  {
    hide TooLong, Pieces, Entry;
    HeaderReads();
    var keys := SortedKeys(NonEmpty(fields));
    assert forall k :: k in keys <==> k in Elements(keys);
    forall l
      ensures l in SavedLines(fields) <==> exists k :: k in NonEmpty(fields) && l in Pieces(Entry(k, fields[k]))
    {
      LineOfEntry(keys, fields, l);
    }
    assert forall l :: l in ["[node]"] + SavedLines(fields) <==> l == "[node]" || l in SavedLines(fields);
  }

  /** A saved file cannot be read back at all exactly if one of its entries has an overlong line. */
  lemma OverlongSaved(fields: NodeState)
    ensures LoadText(SaveText(fields)) == Failure(LineTooLong) <==> Overlong(fields)
  {
    hide Overlong, SavedLines, SaveText, TooLong, FeedFrom;
    SavedRaw(fields);
    OverlongLineFails(RawLines(SaveText(fields)));
    LongSavedLine(fields);
  }

  lemma ParseDropCR(line: string)
    ensures Parse(DropCR(line)) == Parse(line)
  {
    TrimDropCR(line);
  }

  /** Reading more lines goes on from where reading the first ones ended. */
  lemma {:induction false} FeedConcat(r: Reader, a: seq<Line>, b: seq<Line>)
    ensures FeedFrom(r, a + b) == FeedFrom(FeedFrom(r, a), b)
    decreases |b|
  {
    if b == [] {
      assert a + b == a;
    } else {
      var n := |b| - 1;
      assert (a + b)[..|a| + n] == a + b[..n] && (a + b)[|a| + n] == b[n];
      FeedConcat(r, a, b[..n]);
    }
  }

  lemma {:induction false} FoundStays(r: Reader, lines: seq<Line>)
    requires r.found
    ensures FeedFrom(r, lines).found
  {
    if lines != [] { FoundStays(r, lines[..|lines| - 1]); }
  }

  /** The reader just behind the file's first line. */
  const OPEN := Reader(true, true, map[])

  lemma HeaderOpens(lines: seq<string>)
    ensures FeedFrom(START, ParseAll(["[node]"] + lines)) == FeedFrom(OPEN, ParseAll(lines))
  {
    hide Parse;
    HeaderReads();
    assert ParseAll(["[node]"] + lines) == [Header(true)] + ParseAll(lines);
    FeedConcat(START, [Header(true)], ParseAll(lines));
    assert FeedFrom(START, [Header(true)]) == Feed(FeedFrom(START, []), Header(true));
  }

  /** Loading what was saved: one pass over the lines of the saved entries, from inside the section. */
  lemma LoadSaved(fields: NodeState)
    requires !Overlong(fields)
    ensures LoadText(SaveText(fields)) == Success(Some(FeedFrom(OPEN, ParseAll(SavedLines(fields))).state))
  {
    hide Overlong, SavedLines, SaveText, TooLong, Parse, DropCR, RawLines;
    SavedRaw(fields);
    LongSavedLine(fields);
    var raw := RawLines(SaveText(fields));
    ScanRawShort(raw);
    forall i | 0 <= i < |raw| ensures Parse(DropCR(raw[i])) == Parse(raw[i]) { ParseDropCR(raw[i]); }
    assert ParseAll(ScanRaw(raw).lines) == ParseAll(raw);
    HeaderOpens(SavedLines(fields));
    FoundStays(OPEN, ParseAll(SavedLines(fields)));
  }

  // ---------------------------------------------------------------- the round trip

  /** An entry that the file can carry: a key that can be read back, a value on one line, and none of it too long. */
  ghost predicate Carried(key: string, value: string) {
    '\n' !in key && KeyOk(key, value) && Trim(FirstLine(value)) == Trim(value) && !LongEntry(key, value)
  }

  lemma EntryPieces(key: string, value: string)
    requires '\n' !in key
    ensures Pieces(Entry(key, value)) == [Entry(key, FirstLine(value))] + MoreLines(value)
  {
    hide Pieces, FirstLine, MoreLines;
    var rest := SplitFirst(value);
    var first := FirstLine(value);
    assert '\n' !in Entry(key, first);
    if '\n' in value {
      assert Entry(key, value) == Entry(key, first) + "\n" + rest;
      PiecesCons(Entry(key, first), rest);
    } else {
      OnePiece(Entry(key, value));
    }
  }

  lemma {:induction false} SkippedLines(r: Reader, lines: seq<Line>)
    requires forall i | 0 <= i < |lines| :: lines[i] == Skipped
    ensures FeedFrom(r, lines) == r
  {
    if lines != [] { SkippedLines(r, lines[..|lines| - 1]); }
  }

  lemma BlankIsSkipped(line: string)
    requires Trim(line) == ""
    ensures Parse(line) == Skipped
  {
  }

  lemma CarriedReads(r: Reader, key: string, value: string)
    requires r.inSection && Carried(key, value)
    ensures FeedFrom(r, ParseAll(Pieces(Entry(key, value)))) == r.(state := r.state[key := Trim(value)])
  {
    hide Parse, Pieces, Entry, LongEntry, Trim;
    EntryPieces(key, value);
    EntryRoundTrip(key, FirstLine(value));
    var first, more := [Parse(Entry(key, FirstLine(value)))], ParseAll(MoreLines(value));
    assert ParseAll(Pieces(Entry(key, value))) == first + more;
    forall i | 0 <= i < |more| ensures more[i] == Skipped {
      MoreLinesBlank(value, i);
      BlankIsSkipped(MoreLines(value)[i]);
    }
    FeedConcat(r, first, more);
    SkippedLines(FeedFrom(r, first), more);
    assert FeedFrom(r, first) == Feed(FeedFrom(r, []), first[0]);
  }

  ghost function TrimmedValues(keys: seq<string>, fields: NodeState): NodeState {
    map k | k in Elements(keys) :: Trim(At(fields, k))
  }

  lemma AddsValue(state: NodeState, keys: seq<string>, fields: NodeState)
    requires keys != []
    ensures state[keys[0] := Trim(At(fields, keys[0]))] + TrimmedValues(keys[1..], fields) ==
        state + TrimmedValues(keys, fields)
  {
    hide Trim;
    assert Elements(keys) == Elements(keys[1..]) + {keys[0]};
  }

  lemma ParseAllConcat(a: seq<string>, b: seq<string>)
    ensures ParseAll(a + b) == ParseAll(a) + ParseAll(b)
  {
    hide Parse;
  }

  /** Reading the lines of carried entries collects exactly those entries. */
  lemma {:induction false} FeedSaved(r: Reader, keys: seq<string>, fields: NodeState)
    requires r.inSection && forall k | k in keys :: Carried(k, At(fields, k))
    ensures FeedFrom(r, ParseAll(Entries(keys, fields))) == r.(state := r.state + TrimmedValues(keys, fields))
    decreases keys
  {
    if keys == [] {
      assert TrimmedValues(keys, fields) == map[] && ParseAll(Entries(keys, fields)) == [];
    } else {
      hide Parse, Carried, Pieces, Entry, Trim, At, FeedFrom, TrimmedValues;
      var key, value := keys[0], At(fields, keys[0]);
      var own, rest := Pieces(Entry(key, value)), Entries(keys[1..], fields);
      var next := r.(state := r.state[key := Trim(value)]);
      CarriedReads(r, key, value);
      FeedSaved(next, keys[1..], fields);
      ParseAllConcat(own, rest);
      FeedConcat(r, ParseAll(own), ParseAll(rest));
      AddsValue(r.state, keys, fields);
    }
  }

  /** What the reader reports for a key, it read from some line. */
  lemma {:induction false} LoadedFromSomeLine(lines: seq<string>, key: string) returns (line: string)
    requires key in FeedFrom(OPEN, ParseAll(lines)).state
    ensures line in lines && Parse(line) == Pair(key, FeedFrom(OPEN, ParseAll(lines)).state[key])
  {
    hide Parse;
    var n := |lines| - 1;
    assert ParseAll(lines)[..n] == ParseAll(lines[..n]);
    if Parse(lines[n]).Pair? && Parse(lines[n]).key == key && FeedFrom(OPEN, ParseAll(lines[..n])).inSection {
      line := lines[n];
    } else {
      line := LoadedFromSomeLine(lines[..n], key);
    }
  }

  /** A pair's value is shorter than the line it was read from, and has no line feed if that has none. */
  lemma PairIsPart(line: string)
    requires Parse(line).Pair?
    ensures |Parse(line).value| < |Trim(line)|
    ensures '\n' !in line ==> '\n' !in Parse(line).key && '\n' !in Parse(line).value
  {
    hide TrimBy;
    var at := TrimSpan(line);
    var cut := Cut(Trim(line), '=').value;
    var k := TrimSpan(cut.0);
    var v := TrimSpan(cut.1);
    if '\n' !in line {
      forall i | 0 <= i < |Trim(line)| ensures Trim(line)[i] != '\n' { assert Trim(line)[i] == line[at + i]; }
      forall i | 0 <= i < |Trim(cut.0)| ensures Trim(cut.0)[i] != '\n' { assert Trim(cut.0)[i] == cut.0[k + i]; }
      forall i | 0 <= i < |Trim(cut.1)| ensures Trim(cut.1)[i] != '\n' { assert Trim(cut.1)[i] == cut.1[v + i]; }
    }
  }

  ghost predicate ComesBack(fields: NodeState) {
    LoadText(SaveText(fields)) == Success(Some(Reloaded(fields)))
  }

  /** Where a field that comes back was read: a line of some entry. */
  lemma SourceOf(fields: NodeState, key: string) returns (source: string, line: string)
    requires ComesBack(fields) && key in NonEmpty(fields)
    ensures source in NonEmpty(fields) && line in Pieces(Entry(source, fields[source])) && '\n' !in line
    ensures Parse(line) == Pair(key, Trim(fields[key])) && PlainKey(key) && '\n' !in key
  {
    hide Parse, Pieces, Entry, SaveText, FeedFrom, LoadText, Trim, PlainKey, Overlong;
    OverlongSaved(fields);
    LoadSaved(fields);
    var keys := SortedKeys(NonEmpty(fields));
    assert forall k :: k in keys <==> k in Elements(keys);
    line := LoadedFromSomeLine(SavedLines(fields), key);
    LineOfEntry(keys, fields, line);
    source :| source in keys && line in Pieces(Entry(source, At(fields, source)));
    var pieces := Pieces(Entry(source, At(fields, source)));
    var i :| 0 <= i < |pieces| && pieces[i] == line;
    var _, _ := PieceAt(Entry(source, At(fields, source)), i);
    ParsedKeyIsPlain(line);
    PairIsPart(line);
  }

  /** A line behind an entry's first trims to no more than the entry's value. */
  lemma StrayIsShorter(value: string, line: string)
    requires line in MoreLines(value)
    ensures |Trim(line)| <= |Trim(value)|
  {
    hide Trim;
    var i :| 0 <= i < |MoreLines(value)| && MoreLines(value)[i] == line;
    var before, after := PieceAt(value, i + 1);
    TrimContains(before, line, after);
  }

  ghost function TotalTrimmed(keys: seq<string>, fields: NodeState): nat {
    if keys == [] then 0 else |Trim(At(fields, keys[0]))| + TotalTrimmed(keys[1..], fields)
  }

  lemma {:induction false} TrimmedBound(keys: seq<string>, fields: NodeState, key: string)
    requires key in keys
    ensures |Trim(At(fields, key))| <= TotalTrimmed(keys, fields)
  {
    if key != keys[0] { TrimmedBound(keys[1..], fields, key); }
  }

  /**
   * If everything comes back, each field comes from the first line of its own entry. Any other source would
   * be a line behind the first of a longer entry, which would then itself need a still longer source.
   */
  lemma {:induction false} OwnSource(fields: NodeState, key: string)
    requires ComesBack(fields) && key in NonEmpty(fields)
    ensures Parse(Entry(key, FirstLine(fields[key]))) == Pair(key, Trim(fields[key]))
    decreases TotalTrimmed(SortedKeys(NonEmpty(fields)), fields) - |Trim(fields[key])|
  {
    hide Parse, Entry, ComesBack, Trim, TotalTrimmed, Pieces, FirstLine, MoreLines, KeyOk, PlainKey;
    var source, line := SourceOf(fields, key);
    var _, _ := SourceOf(fields, source);
    EntryPieces(source, fields[source]);
    if line in MoreLines(fields[source]) {
      StrayIsShorter(fields[source], line);
      PairIsPart(line);
      var keys := SortedKeys(NonEmpty(fields));
      assert source in Elements(keys) && At(fields, source) == fields[source];
      TrimmedBound(keys, fields, source);
      OwnSource(fields, source);
      EntryRoundTripValue(source, FirstLine(fields[source]), Trim(fields[source]));
      var i :| 0 <= i < |MoreLines(fields[source])| && MoreLines(fields[source])[i] == line;
      MoreLinesBlank(fields[source], i);
      BlankIsSkipped(line);
    } else {
      ParsedEntryKey(source, FirstLine(fields[source]));
    }
  }

  lemma ParsedEntryKey(key: string, value: string)
    requires PlainKey(key)
    ensures Parse(Entry(key, value)).Pair? ==> Parse(Entry(key, value)) == Pair(key, Trim(value))
  {
    ParseEntry(key, value);
  }

  lemma EntryRoundTripValue(key: string, value: string, read: string)
    requires PlainKey(key) && Parse(Entry(key, value)) == Pair(key, read)
    ensures KeyOk(key, value) && read == Trim(value)
  {
    ParseEntry(key, value);
  }

  lemma FieldIsCarried(fields: NodeState, key: string)
    requires ComesBack(fields) && key in NonEmpty(fields)
    ensures Carried(key, fields[key])
  {
    hide Parse, Entry, FirstLine, LongEntry, Pieces, Trim, LoadText, SaveText;
    var _, _ := SourceOf(fields, key);
    OverlongSaved(fields);
    OwnSource(fields, key);
    EntryRoundTripValue(key, FirstLine(fields[key]), Trim(fields[key]));
  }

  lemma CarriedComesBack(fields: NodeState)
    requires forall k | k in NonEmpty(fields) :: Carried(k, fields[k])
    ensures ComesBack(fields)
  {
    hide LongEntry, SaveText, LoadText, FeedFrom, Parse, Entry, KeyOk, FirstLine, Trim;
    var keys := SortedKeys(NonEmpty(fields));
    assert forall k :: k in keys <==> k in Elements(keys);
    LoadSaved(fields);
    FeedSaved(OPEN, keys, fields);
    assert OPEN.state + TrimmedValues(keys, fields) == Reloaded(fields);
  }

  /**
   * Saving and loading gives back every non-empty field, trimmed, exactly when each entry can be carried;
   * for every map of fields whatever.
   */
  lemma RoundTrip(fields: NodeState)
    ensures LoadText(SaveText(fields)) == Success(Some(Reloaded(fields))) <==>
            forall k | k in NonEmpty(fields) :: Carried(k, fields[k])
  {
    hide Carried, SaveText, LoadText;
    if forall k | k in NonEmpty(fields) :: Carried(k, fields[k]) {
      CarriedComesBack(fields);
    }
    if ComesBack(fields) {
      forall k | k in NonEmpty(fields) ensures Carried(k, fields[k]) {
        FieldIsCarried(fields, k);
      }
    }
  }
}

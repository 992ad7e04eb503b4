/** The node key in a saved node.ini: what the agent's loader and what docker/node-healthcheck.sh make of it. */
module AgentFile {
  import opened Wrappers
  import opened Text
  import opened NodeIni

  /** The fields the agent writes, in the order of the file, around node_key. */
  const BEFORE: seq<string> := ["address", "listen_port", "name", "node_id"]
  const AFTER: seq<string> := ["port", "protocol", "updated_at"]
  const AGENT_FIELDS: seq<string> := BEFORE + ["node_key"] + AFTER

  // ---------------------------------------------------------------- the loader, as far as node_key goes

  /** Whether the reader is inside the section after some lines. */
  function SectionAfter(open: bool, lines: seq<string>): bool {
    if lines == [] then open
    else match Parse(lines[|lines| - 1])
      case Header(node) => node
      case _ => SectionAfter(open, lines[..|lines| - 1])
  }

  /** The last node_key that some lines define inside the section. */
  function Redefined(open: bool, lines: seq<string>): Option<string> {
    if lines == [] then None
    else
      var prior := lines[..|lines| - 1];
      match Parse(lines[|lines| - 1])
      case Pair(key, value) =>
        if key == "node_key" && SectionAfter(open, prior) then Some(value) else Redefined(open, prior)
      case _ => Redefined(open, prior)
  }

  function KeyIn(state: NodeState): Option<string> {
    if "node_key" in state then Some(state["node_key"]) else None
  }

  function Later(later: Option<string>, earlier: Option<string>): Option<string> {
    if later.Some? then later else earlier
  }

  /** The node key that is read from some lines, node_key's own value, and some more lines. */
  function KeyRead(before: seq<string>, own: string, after: seq<string>): Option<string> {
    var open := SectionAfter(true, before);
    Later(Redefined(open, after), if open then Some(own) else Redefined(true, before))
  }

  lemma {:induction false} ReadsNodeKey(r: Reader, lines: seq<string>)
    ensures var f := FeedFrom(r, ParseAll(lines));
            && f.inSection == SectionAfter(r.inSection, lines)
            && KeyIn(f.state) == Later(Redefined(r.inSection, lines), KeyIn(r.state))
  {
    hide Parse;
    if lines != [] {
      assert ParseAll(lines)[..|lines| - 1] == ParseAll(lines[..|lines| - 1]);
      ReadsNodeKey(r, lines[..|lines| - 1]);
    }
  }

  // ---------------------------------------------------------------- the health check

  predicate IsCSpace(c: char) {
    '\t' <= c <= '\r' || c == ' '
  }

  /** The sed substitution of docker/node-healthcheck.sh on one line. */
  function SedNodeKey(line: string): Option<string> {
    var a := TrimLeft(IsCSpace, line);
    if !HasPrefix(a, "node_key") then None
    else
      var b := TrimLeft(IsCSpace, a[8..]);
      if !HasPrefix(b, "=") then None else Some(TrimLeft(IsCSpace, b[1..]))
  }

  ghost predicate CSpaces(s: string) {
    forall i | 0 <= i < |s| :: IsCSpace(s[i])
  }

  /** What the substitution matches, and what is left of the line: the longest white space is eaten everywhere. */
  lemma SedIs(line: string, value: string)
    ensures SedNodeKey(line) == Some(value) <==>
            && (value != "" ==> !IsCSpace(value[0]))
            && exists a, b, c ::
                 && CSpaces(a) && CSpaces(b) && CSpaces(c)
                 && line == a + ("node_key" + (b + ("=" + (c + value))))
  {
    hide TrimLeft;
    if SedNodeKey(line) == Some(value) {
      var a, x := Leading(line);
      var b, y := Leading(x[8..]);
      var c, z := Leading(y[1..]);
      assert x == "node_key" + x[8..] && y == "=" + y[1..];
    }
    forall a, b, c | CSpaces(a) && CSpaces(b) && CSpaces(c) && line == a + ("node_key" + (b + ("=" + (c + value))))
      ensures (value != "" ==> !IsCSpace(value[0])) ==> SedNodeKey(line) == Some(value)
    {
      if value != "" ==> !IsCSpace(value[0]) {
        SedMatches(a, b, c, value);
      }
    }
  }

  lemma Leading(s: string) returns (left: string, rest: string)
    ensures s == left + rest && CSpaces(left) && rest == TrimLeft(IsCSpace, s) && (rest != "" ==> !IsCSpace(rest[0]))
  {
    rest := TrimLeft(IsCSpace, s);
    TrimLeftSplits(IsCSpace, s);
    left := s[..|s| - |rest|];
  }

  lemma {:induction false} Skips(left: string, rest: string)
    requires CSpaces(left) && (rest != "" ==> !IsCSpace(rest[0]))
    ensures TrimLeft(IsCSpace, left + rest) == rest
  {
    if left == "" {
      assert left + rest == rest;
    } else {
      assert (left + rest)[1..] == left[1..] + rest;
      Skips(left[1..], rest);
    }
  }

  lemma SedMatches(a: string, b: string, c: string, value: string)
    requires CSpaces(a) && CSpaces(b) && CSpaces(c) && (value != "" ==> !IsCSpace(value[0]))
    ensures SedNodeKey(a + ("node_key" + (b + ("=" + (c + value))))) == Some(value)
  {
    hide TrimLeft;
    var y := "=" + (c + value);
    var x := "node_key" + (b + y);
    Skips(a, x);
    Skips(b, y);
    Skips(c, value);
    assert x[..8] == "node_key" && x[8..] == b + y;
    assert y[..1] == "=" && y[1..] == c + value;
  }

  /** `tail -n1`: the last match. */
  function SedLast(lines: seq<string>): Option<string> {
    if lines == [] then None
    else Later(SedNodeKey(lines[|lines| - 1]), SedLast(lines[..|lines| - 1]))
  }

  lemma {:induction false} SedLastIs(lines: seq<string>)
    ensures SedLast(lines).None? ==> forall i | 0 <= i < |lines| :: SedNodeKey(lines[i]) == None
    ensures SedLast(lines).Some? ==>
              exists i :: 0 <= i < |lines| && SedNodeKey(lines[i]) == SedLast(lines) &&
                          forall j | i < j < |lines| :: SedNodeKey(lines[j]) == None
  {
    hide SedNodeKey;
    if lines != [] {
      var n := |lines| - 1;
      SedLastIs(lines[..n]);
      if SedNodeKey(lines[n]).None? && SedLast(lines).Some? {
        var i :| 0 <= i < n && SedNodeKey(lines[..n][i]) == SedLast(lines[..n]) &&
                 forall j | i < j < n :: SedNodeKey(lines[..n][j]) == None;
        assert lines[..n][i] == lines[i];
        forall j | i < j < |lines| ensures SedNodeKey(lines[j]) == None {
          if j < n { assert lines[..n][j] == lines[j]; }
        }
      }
    }
  }

  /** The key that docker/node-healthcheck.sh reads out of the file. */
  function HealthCheckKey(text: string): string {
    match SedLast(RawLines(text))
    case None => ""
    case Some(key) => key
  }

  // ---------------------------------------------------------------- lines that make no difference

  lemma {:induction false} EffectConcat(open: bool, a: seq<string>, b: seq<string>)
    ensures SectionAfter(open, a + b) == SectionAfter(SectionAfter(open, a), b)
    ensures Redefined(open, a + b) == Later(Redefined(SectionAfter(open, a), b), Redefined(open, a))
    ensures SedLast(a + b) == Later(SedLast(b), SedLast(a))
    decreases |b|
  {
    hide Parse, SedNodeKey;
    if b == [] {
      assert a + b == a;
    } else {
      var n := |b| - 1;
      assert (a + b)[..|a| + n] == a + b[..n] && (a + b)[|a| + n] == b[n];
      EffectConcat(open, a, b[..n]);
    }
  }

  lemma StartsPlain(line: string, c: char)
    requires line != "" && line[0] == c && !IsCSpace(c)
    ensures TrimLeft(IsCSpace, line) == line
  {
  }

  lemma SkipsOne(value: string)
    ensures TrimLeft(IsCSpace, " " + value) == TrimLeft(IsCSpace, value)
  {
    assert (" " + value)[1..] == value;
  }

  lemma EntryParts(key: string, value: string)
    ensures Entry(key, value)[..|key|] == key && Entry(key, value)[|key|..] == " " + ("= " + value)
    ensures ("= " + value)[..1] == "=" && ("= " + value)[1..] == " " + value
  {
  }

  lemma SedOnNodeKey(key: string, value: string)
    requires key == "node_key"
    ensures SedNodeKey(Entry(key, value)) == Some(TrimLeft(IsCSpace, value))
  {
    var line, rest := Entry(key, value), "= " + value;
    EntryParts(key, value);
    assert line[0] == 'n' && rest[0] == '=';
    hide TrimLeft, Entry;
    StartsPlain(line, 'n');
    SkipsOne(rest);
    StartsPlain(rest, '=');
    SkipsOne(value);
  }

  lemma NotNodeKey(line: string)
    ensures HasPrefix(line, "node_key") ==> line[0] == 'n' && line[1] == 'o' && line[5] == 'k'
  {
    if HasPrefix(line, "node_key") {
      assert line[..8][0] == 'n' && line[..8][1] == 'o' && line[..8][5] == 'k';
    }
  }

  lemma SedOnOther(key: string, value: string)
    requires key in AGENT_FIELDS && key != "node_key"
    ensures SedNodeKey(Entry(key, value)) == None
  {
    hide TrimLeft;
    var line := Entry(key, value);
    StartsPlain(line, key[0]);
    assert line[1] == key[1] && (key == "node_id" ==> line[5] == key[5] == 'i');
    NotNodeKey(line);
  }

  lemma LettersArePlain(key: string)
    requires key != "" && 'a' <= key[0] <= 'z' && 'a' <= key[|key| - 1] <= 'z'
    requires forall c | c in key :: 'a' <= c <= 'z' || c == '_'
    ensures PlainKey(key) && !HasPrefix(key, "[") && '\n' !in key
  {
    assert forall p | |p| == 1 && HasPrefix(key, p) :: p[0] == key[0];
  }

  lemma AgentFieldPlain(key: string)
    requires key in AGENT_FIELDS
    ensures PlainKey(key) && !HasPrefix(key, "[") && '\n' !in key
  {
    hide PlainKey;
    LettersArePlain(key);
  }

  lemma AgentEntryReads(key: string, value: string)
    requires key in AGENT_FIELDS
    ensures Parse(Entry(key, value)) == Pair(key, Trim(value)) && '\n' !in key
  {
    AgentFieldPlain(key);
    ParseEntry(key, value);
  }

  /** Of another field's entry, only the lines behind its first can concern the node key. */
  lemma OtherFieldEffect(open: bool, key: string, value: string)
    requires key in AGENT_FIELDS && key != "node_key"
    ensures var all, more := Pieces(Entry(key, value)), MoreLines(value);
            && SectionAfter(open, all) == SectionAfter(open, more)
            && Redefined(open, all) == Redefined(open, more)
            && SedLast(all) == SedLast(more)
  {
    var first := [Entry(key, FirstLine(value))];
    AgentEntryReads(key, FirstLine(value));
    SedOnOther(key, FirstLine(value));
    EntryPieces(key, value);
    hide Parse, SedNodeKey, Entry, Pieces, FirstLine, MoreLines, AGENT_FIELDS;
    EffectConcat(open, first, MoreLines(value));
    assert first[..0] == [];
  }

  lemma NodeKeyEffect(open: bool, value: string)
    ensures var all, more := Pieces(Entry("node_key", value)), MoreLines(value);
            && SectionAfter(open, all) == SectionAfter(open, more)
            && Redefined(open, all) == Later(Redefined(open, more), if open then Some(Trim(FirstLine(value))) else None)
            && SedLast(all) == Later(SedLast(more), Some(TrimLeft(IsCSpace, FirstLine(value))))
  {
    var key := "node_key";
    var first := [Entry(key, FirstLine(value))];
    AgentEntryReads(key, FirstLine(value));
    SedOnNodeKey(key, FirstLine(value));
    EntryPieces(key, value);
    hide Parse, SedNodeKey, Entry, Pieces, FirstLine, MoreLines, AGENT_FIELDS, TrimLeft, Trim;
    EffectConcat(open, first, MoreLines(value));
    assert first[..0] == [];
  }

  // ---------------------------------------------------------------- the saved fields in order

  /** The lines of these fields, empty fields left out. */
  ghost function Blocks(keys: seq<string>, fields: NodeState): seq<string> {
    if keys == [] then []
    else
      var value := At(fields, keys[0]);
      (if value == "" then [] else Pieces(Entry(keys[0], value))) + Blocks(keys[1..], fields)
  }

  /** The lines behind the first of each of these fields: only a value with a line feed has any. */
  ghost function Strays(keys: seq<string>, fields: NodeState): seq<string> {
    if keys == [] then [] else MoreLines(At(fields, keys[0])) + Strays(keys[1..], fields)
  }

  lemma {:induction false} BlocksEffect(open: bool, keys: seq<string>, fields: NodeState)
    requires forall k | k in keys :: k in AGENT_FIELDS && k != "node_key"
    ensures var all, more := Blocks(keys, fields), Strays(keys, fields);
            && SectionAfter(open, all) == SectionAfter(open, more)
            && Redefined(open, all) == Redefined(open, more)
            && SedLast(all) == SedLast(more)
    decreases keys
  {
    if keys != [] {
      var key, value := keys[0], At(fields, keys[0]);
      OnePiece("");
      OtherFieldEffect(open, key, value);
      hide Entry, Pieces, MoreLines, At, AGENT_FIELDS, SectionAfter, Redefined, SedLast;
      var own := if value == "" then [] else Pieces(Entry(key, value));
      EmptyEffect(open);
      BlocksEffect(SectionAfter(open, MoreLines(value)), keys[1..], fields);
      EffectConcat(open, own, Blocks(keys[1..], fields));
      EffectConcat(open, MoreLines(value), Strays(keys[1..], fields));
    }
  }

  lemma EmptyEffect(open: bool)
    ensures SectionAfter(open, []) == open && Redefined(open, []) == None && SedLast([]) == None
  {
  }

  ghost function Present(keys: seq<string>, fields: NodeState): seq<string> {
    if keys == [] then []
    else (if At(fields, keys[0]) == "" then [] else [keys[0]]) + Present(keys[1..], fields)
  }

  lemma {:induction false} PresentElements(keys: seq<string>, fields: NodeState)
    ensures forall k :: k in Present(keys, fields) <==> k in keys && At(fields, k) != ""
  {
    if keys != [] {
      PresentElements(keys[1..], fields);
      assert forall k :: k in keys <==> k == keys[0] || k in keys[1..];
    }
  }

  lemma {:induction false} PresentSorted(keys: seq<string>, fields: NodeState)
    requires StrictlySorted(keys)
    ensures StrictlySorted(Present(keys, fields))
  {
    hide At, Leq;
    if keys != [] {
      var rest := Present(keys[1..], fields);
      PresentSorted(keys[1..], fields);
      PresentElements(keys[1..], fields);
      forall j | 0 <= j < |rest| ensures keys[0] != rest[j] && Leq(keys[0], rest[j]) {
        assert rest[j] in rest;
      }
    }
  }

  lemma {:induction false} PresentEntries(keys: seq<string>, fields: NodeState)
    ensures Entries(Present(keys, fields), fields) == Blocks(keys, fields)
  {
    hide At, Entry, Pieces;
    if keys != [] {
      PresentEntries(keys[1..], fields);
      var rest := Present(keys[1..], fields);
      assert [] + rest == rest && ([keys[0]] + rest)[1..] == rest;
    }
  }

  lemma Ascending(a: string, b: string, i: nat)
    requires i < |a| && i < |b| && a[..i] == b[..i] && a[i] < b[i]
    ensures a != b && Leq(a, b)
    decreases i
  {
    if i > 0 {
      assert a[0] == a[..i][0] == b[0];
      assert a[1..][..i - 1] == a[..i][1..] == b[1..][..i - 1];
      Ascending(a[1..], b[1..], i - 1);
    }
  }

  lemma {:induction false} ChainSorted(keys: seq<string>)
    requires forall i | 0 <= i < |keys| - 1 :: keys[i] != keys[i + 1] && Leq(keys[i], keys[i + 1])
    ensures StrictlySorted(keys)
  {
    hide Leq;
    if |keys| > 1 {
      ChainSorted(keys[1..]);
      forall j | 1 <= j < |keys| ensures keys[0] != keys[j] && Leq(keys[0], keys[j]) {
        if j > 1 {
          LeqTransitive(keys[0], keys[1], keys[j]);
          if keys[0] == keys[j] { LeqTotal(keys[0], keys[1]); }
        }
      }
    }
  }

  lemma AgentFieldsSorted()
    ensures StrictlySorted(AGENT_FIELDS)
  {
    hide Leq;
    Ascending("address", "listen_port", 0);
    Ascending("listen_port", "name", 0);
    Ascending("name", "node_id", 1);
    Ascending("node_id", "node_key", 5);
    Ascending("node_key", "port", 0);
    Ascending("port", "protocol", 1);
    Ascending("protocol", "updated_at", 0);
    ChainSorted(AGENT_FIELDS);
  }

  lemma {:induction false} BlocksConcat(a: seq<string>, b: seq<string>, fields: NodeState)
    ensures Blocks(a + b, fields) == Blocks(a, fields) + Blocks(b, fields)
  {
    hide At, Entry, Pieces;
    if a == [] {
      assert a + b == b;
    } else {
      assert (a + b)[1..] == a[1..] + b;
      BlocksConcat(a[1..], b, fields);
    }
  }

  ghost predicate HasNodeKey(fields: NodeState) {
    "node_key" in NonEmpty(fields) && forall k | k in NonEmpty(fields) :: k in AGENT_FIELDS
  }

  lemma FieldsInOrder(fields: NodeState)
    requires HasNodeKey(fields)
    ensures SortedKeys(NonEmpty(fields)) == Present(AGENT_FIELDS, fields)
  {
    AgentFieldsSorted();
    hide Leq, AGENT_FIELDS;
    var keys := Present(AGENT_FIELDS, fields);
    PresentSorted(AGENT_FIELDS, fields);
    PresentElements(AGENT_FIELDS, fields);
    assert forall k :: k in NonEmpty(fields) <==> At(fields, k) != "";
    assert Elements(keys) == NonEmpty(fields);
    SortedUnique(keys, SortedKeys(NonEmpty(fields)));
  }

  lemma OwnBlock(fields: NodeState)
    requires "node_key" in NonEmpty(fields)
    ensures Blocks(["node_key"], fields) == Pieces(Entry("node_key", fields["node_key"]))
  {
    hide Pieces, Entry;
    assert ["node_key"][1..] == [];
  }

  lemma SavedInOrder(fields: NodeState)
    requires HasNodeKey(fields)
    ensures SavedLines(fields) ==
            Blocks(BEFORE, fields) + (Pieces(Entry("node_key", fields["node_key"])) + Blocks(AFTER, fields))
  {
    FieldsInOrder(fields);
    assert AGENT_FIELDS == BEFORE + (["node_key"] + AFTER);
    hide Leq, Entry, Pieces, BEFORE, AFTER, AGENT_FIELDS, Blocks, Present, HasNodeKey;
    PresentEntries(AGENT_FIELDS, fields);
    BlocksConcat(BEFORE, ["node_key"] + AFTER, fields);
    BlocksConcat(["node_key"], AFTER, fields);
    OwnBlock(fields);
  }

  /** The lines that may follow node_key's own and still concern the key. */
  ghost function StraysAfter(fields: NodeState): seq<string> {
    MoreLines(At(fields, "node_key")) + Strays(AFTER, fields)
  }

  ghost predicate SameEffect(open: bool, a: seq<string>, b: seq<string>) {
    && SectionAfter(open, a) == SectionAfter(open, b) && Redefined(open, a) == Redefined(open, b)
    && SedLast(a) == SedLast(b)
  }

  /** Three stretches of lines, the middle one an entry that defines the key. */
  lemma Assemble(a: seq<string>, a': seq<string>, own: seq<string>, more: seq<string>, b: seq<string>, b': seq<string>,
                 key: string, sed: string)
    requires SameEffect(true, a, a')
    requires var open := SectionAfter(true, a');
             && SectionAfter(open, own) == SectionAfter(open, more)
             && Redefined(open, own) == Later(Redefined(open, more), if open then Some(key) else None)
             && SedLast(own) == Later(SedLast(more), Some(sed))
             && SameEffect(SectionAfter(open, more), b, b')
    ensures Redefined(true, a + (own + b)) == KeyRead(a', key, more + b')
    ensures SedLast(a + (own + b)) == Later(SedLast(more + b'), Some(sed))
  {
    hide SectionAfter, Redefined, SedLast;
    var open := SectionAfter(true, a');
    EffectConcat(open, own, b);
    EffectConcat(open, more, b');
    EffectConcat(true, a, own + b);
  }

  lemma SavedEffect(fields: NodeState)
    requires HasNodeKey(fields)
    ensures var key := fields["node_key"];
            var lines := SavedLines(fields);
            && Redefined(true, lines) == KeyRead(Strays(BEFORE, fields), Trim(FirstLine(key)), StraysAfter(fields))
            && SedLast(lines) == Later(SedLast(StraysAfter(fields)), Some(TrimLeft(IsCSpace, FirstLine(key))))
  {
    var key := fields["node_key"];
    SavedInOrder(fields);
    assert At(fields, "node_key") == key;
    OtherFields();
    hide SavedLines, Entry, Pieces, FirstLine, MoreLines, Trim, TrimLeft, SectionAfter, Redefined, SedLast;
    hide AGENT_FIELDS;
    hide BEFORE, AFTER, Blocks, Strays, HasNodeKey, KeyRead, Later;
    var open := SectionAfter(true, Strays(BEFORE, fields));
    BlocksEffect(true, BEFORE, fields);
    NodeKeyEffect(open, key);
    BlocksEffect(SectionAfter(open, MoreLines(key)), AFTER, fields);
    Assemble(Blocks(BEFORE, fields), Strays(BEFORE, fields), Pieces(Entry("node_key", key)), MoreLines(key),
             Blocks(AFTER, fields), Strays(AFTER, fields), Trim(FirstLine(key)), TrimLeft(IsCSpace, FirstLine(key)));
  }

  lemma OtherFields()
    ensures forall k | k in BEFORE || k in AFTER :: k in AGENT_FIELDS && k != "node_key"
  {
  }

  /** The node_key that the loader finds in a file, if it can read it and there is one. */
  function KeyInFile(text: string): Option<string> {
    match LoadText(text)
    case Success(Some(state)) => KeyIn(state)
    case _ => None
  }

  /**
   * What the agent loads as node_key, for any values of its fields: if the lines before it leave the section
   * open, its own first line, unless a later line defines it again.
   */
  lemma LoadedNodeKey(fields: NodeState)
    requires HasNodeKey(fields) && !Overlong(fields)
    ensures LoadText(SaveText(fields)).Success?
    ensures KeyInFile(SaveText(fields)) ==
            KeyRead(Strays(BEFORE, fields), Trim(FirstLine(fields["node_key"])), StraysAfter(fields))
  {
    hide SavedLines, SaveText, LoadText, Parse, Redefined, KeyRead, Overlong, BEFORE, AFTER, AGENT_FIELDS;
    LoadSaved(fields);
    ReadsNodeKey(OPEN, SavedLines(fields));
    SavedEffect(fields);
  }

  /** A loaded key never has a line feed. */
  lemma KeyIsOneLine(fields: NodeState)
    ensures KeyInFile(SaveText(fields)).Some? ==> '\n' !in KeyInFile(SaveText(fields)).value
  {
    hide SaveText, LoadText, Parse, Overlong, FeedFrom, Pieces, Entry;
    if KeyInFile(SaveText(fields)).Some? {
      OverlongSaved(fields);
      LoadSaved(fields);
      var line := LoadedFromSomeLine(SavedLines(fields), "node_key");
      var keys := SortedKeys(NonEmpty(fields));
      LineOfEntry(keys, fields, line);
      var source :| source in keys && line in Pieces(Entry(source, At(fields, source)));
      var pieces := Pieces(Entry(source, At(fields, source)));
      var i :| 0 <= i < |pieces| && pieces[i] == line;
      var _, _ := PieceAt(Entry(source, At(fields, source)), i);
      PairIsPart(line);
    }
  }

  /** What the health check reads, for any values: sections and long lines mean nothing to it. */
  lemma HealthCheckReads(fields: NodeState)
    requires HasNodeKey(fields)
    ensures HealthCheckKey(SaveText(fields)) ==
            Later(SedLast(StraysAfter(fields)), Some(TrimLeft(IsCSpace, FirstLine(fields["node_key"])))).value
  {
    hide SavedLines, SaveText, SedNodeKey, TrimLeft;
    SavedRaw(fields);
    SavedEffect(fields);
    NotNodeKey("[node]");
    assert SedNodeKey("[node]") == None by { HeaderIsNoKey(); }
    EffectConcat(true, ["[node]"], SavedLines(fields));
    assert ["[node]"][..0] == [];
  }

  lemma {:induction false} RawLinesNoFeed(text: string, i: nat)
    requires i < |RawLines(text)|
    ensures '\n' !in RawLines(text)[i]
    decreases |text|
  {
    match IndexOf(text, '\n')
    case None =>
    case Some(at) =>
      if i > 0 {
        assert RawLines(text)[i] == RawLines(text[at + 1..])[i - 1];
        RawLinesNoFeed(text[at + 1..], i - 1);
      }
  }

  lemma SuffixNoFeed(s: string)
    requires '\n' !in s
    ensures '\n' !in TrimLeft(IsCSpace, s)
  {
    TrimLeftSplits(IsCSpace, s);
  }

  lemma SedNoFeed(line: string)
    requires '\n' !in line
    ensures SedNodeKey(line).Some? ==> '\n' !in SedNodeKey(line).value
  {
    hide TrimLeft;
    if SedNodeKey(line).Some? {
      SuffixNoFeed(line);
      var a := TrimLeft(IsCSpace, line);
      SuffixNoFeed(a[8..]);
      var b := TrimLeft(IsCSpace, a[8..]);
      SuffixNoFeed(b[1..]);
    }
  }

  lemma {:induction false} SedLastNoFeed(lines: seq<string>)
    requires forall i | 0 <= i < |lines| :: '\n' !in lines[i]
    ensures SedLast(lines).Some? ==> '\n' !in SedLast(lines).value
  {
    hide SedNodeKey;
    if lines != [] {
      SedNoFeed(lines[|lines| - 1]);
      SedLastNoFeed(lines[..|lines| - 1]);
    }
  }

  /** What the health check reads is always one line. */
  lemma HealthCheckKeyIsOneLine(text: string)
    ensures '\n' !in HealthCheckKey(text)
  {
    forall i | 0 <= i < |RawLines(text)| ensures '\n' !in RawLines(text)[i] { RawLinesNoFeed(text, i); }
    SedLastNoFeed(RawLines(text));
  }

  lemma HeaderIsNoKey()
    ensures SedNodeKey("[node]") == None
  {
    NotNodeKey("[node]");
  }

  /**
   * With every field on one line, the two read the same key exactly if what the health check finds is trimmed
   * on both sides: it keeps white space at the end, and leading white space that only Go knows.
   */
  lemma HealthCheckAgrees(fields: NodeState)
    requires HasNodeKey(fields) && !Overlong(fields) && forall k | k in NonEmpty(fields) :: '\n' !in fields[k]
    ensures var sed := HealthCheckKey(SaveText(fields));
            && sed == TrimLeft(IsCSpace, At(fields, "node_key"))
            && KeyInFile(SaveText(fields)) == Some(Trim(At(fields, "node_key")))
            && (Some(sed) == KeyInFile(SaveText(fields)) <==> Trimmed(sed))
  {
    OneLineFields(fields);
    EmptyEffect(true);
    assert At(fields, "node_key") == fields["node_key"];
    hide SaveText, LoadText, TrimLeft, Trim, Overlong, HasNodeKey, StraysAfter, Strays, HealthCheckKey, BEFORE, AFTER;
    hide KeyInFile, FirstLine, At, Redefined, SectionAfter, SedLast;
    LoadedNodeKey(fields);
    HealthCheckReads(fields);
    LeadingSpace(fields["node_key"]);
  }

  lemma OneLineFields(fields: NodeState)
    requires HasNodeKey(fields) && forall k | k in NonEmpty(fields) :: '\n' !in fields[k]
    ensures Strays(BEFORE, fields) == [] && StraysAfter(fields) == []
    ensures FirstLine(fields["node_key"]) == fields["node_key"]
  {
    hide FirstLine, MoreLines;
    OnePiece(fields["node_key"]);
    forall k ensures '\n' !in At(fields, k) {
    }
    OneLineNoStrays(BEFORE, fields);
    OneLineNoStrays(AFTER, fields);
  }

  lemma {:induction false} OneLineNoStrays(keys: seq<string>, fields: NodeState)
    requires forall k | k in keys :: '\n' !in At(fields, k)
    ensures Strays(keys, fields) == []
  {
    if keys != [] {
      OnePiece(At(fields, keys[0]));
      OneLineNoStrays(keys[1..], fields);
    }
  }

  /** Taking off C white space first does not change what trimming leaves. */
  lemma LeadingSpace(value: string)
    ensures var sed := TrimLeft(IsCSpace, value); sed == Trim(value) <==> Trimmed(sed)
  {
    hide TrimBy;
    var sed := TrimLeft(IsCSpace, value);
    TrimLeftSplits(IsCSpace, value);
    var left := value[..|value| - |sed|];
    assert value == left + sed;
    TrimBySkips(left, sed);
    var _ := TrimSpan(sed);
    if Trimmed(sed) {
      TrimOfTrimmed(sed);
    }
  }
}

/** cmd/node/main.go: how a node agent comes by the key it serves with. */
module NodeAgent {
  import opened Wrappers
  import opened Text
  import opened NodeIni
  import opened AgentFile
  import Backoff

  /** NODE_LISTEN_PORT and NODE_ADVERTISE_PORT are refused outside this range. */
  type Port = p: int | 1 <= p <= 65535 witness 8081

  datatype AgentConfig = AgentConfig(
    nodeKey: string,
    registerUrl: string,
    registrationToken: string,
    name: string,
    address: string,
    port: Port,
    listenPort: Port,
    protocol: string,
    metadataIsJson: bool,
    retries: int)

  datatype RegisterResult = RegisterResult(id: int, nodeKey: string, reused: bool)

  datatype AgentError = MissingSetting | BadMetadata | UnreadableState(e: LoadError) | RegistrationFailed | EmptyKey

  /** The key that a restarting agent will offer: the trimmed node_key of its ini file, or none. */
  function OldKey(disk: Option<string>): Result<string, LoadError> {
    match Load(disk)
    case Failure(e) => Failure(e)
    case Success(None) => Success("")
    case Success(Some(state)) => Success(Trim(At(state, "node_key")))
  }

  lemma OldKeyIsLoaded(text: string)
    requires LoadText(text).Success?
    ensures OldKey(Some(text)) == Success(match KeyInFile(text) case Some(key) => Trim(key) case None => "")
  {
  }

  function IniFields(cfg: AgentConfig, id: int, key: string, updatedAt: string): NodeState {
    map["node_id" := Itoa(id), "node_key" := key, "name" := cfg.name, "address" := cfg.address,
        "port" := Itoa(cfg.port), "listen_port" := Itoa(cfg.listenPort), "protocol" := cfg.protocol,
        "updated_at" := updatedAt]
  }

  /** The settings that self-registration needs are there. */
  predicate Registers(cfg: AgentConfig) {
    cfg.registerUrl != "" && cfg.registrationToken != "" && cfg.address != "" && cfg.metadataIsJson
  }

  class Agent {
    var disk: Option<string>

    /**
     * `reply(key)(k)` answers the k-th registration attempt, each of which carries the same old key;
     * `saved` tells whether the file could be written, which the agent only logs.
     */
    method ResolveNodeKey(cfg: AgentConfig, reply: string -> nat -> Option<RegisterResult>, saved: bool,
                          updatedAt: string)
      returns (r: Result<string, AgentError>, sleeps: seq<nat>)
      modifies this
      ensures Trim(cfg.nodeKey) != "" ==> r == Success(Trim(cfg.nodeKey))
      ensures Trim(cfg.nodeKey) == "" && (cfg.registerUrl == "" || cfg.registrationToken == "" || cfg.address == "") ==>
                r == Failure(MissingSetting)
      ensures Trim(cfg.nodeKey) == "" && cfg.registerUrl != "" && cfg.registrationToken != "" && cfg.address != ""
              && !cfg.metadataIsJson ==>
                r == Failure(BadMetadata)
      ensures Trim(cfg.nodeKey) != "" || !Registers(cfg) ==> sleeps == []
      ensures Trim(cfg.nodeKey) == "" && Registers(cfg) ==>
                match OldKey(old(disk))
                case Failure(e) => r == Failure(UnreadableState(e))
                case Success(oldKey) =>
                  var result := reply(oldKey)(|sleeps| + 1);
                  && Backoff.Retried(reply(oldKey), cfg.retries, result, sleeps)
                  && r == if result.None? then Failure(RegistrationFailed)
                          else if Trim(result.value.nodeKey) == "" then Failure(EmptyKey)
                          else Success(Trim(result.value.nodeKey))
      ensures disk == if r.Success? && Trim(cfg.nodeKey) == "" && saved
                      then Some(SaveText(IniFields(cfg, reply(OldKey(old(disk)).value)(|sleeps| + 1).value.id,
                                                   r.value, updatedAt)))
                      else old(disk)
    {
      sleeps := [];
      var explicit := Trim(cfg.nodeKey);
      if explicit != "" {
        return Success(explicit), sleeps;
      }
      if cfg.registerUrl == "" || cfg.registrationToken == "" || cfg.address == "" {
        return Failure(MissingSetting), sleeps;
      }
      if !cfg.metadataIsJson {
        return Failure(BadMetadata), sleeps;
      }
      var state := LoadNodeState(disk);
      if state.Failure? {
        return Failure(UnreadableState(state.error)), sleeps;
      }
      var existingKey := "";
      if state.value.Some? {
        existingKey := Trim(At(state.value.value, "node_key"));
      }
      var result;
      result, sleeps := Backoff.RegisterWithRetries(reply(existingKey), cfg.retries);
      if result.None? {
        return Failure(RegistrationFailed), sleeps;
      }
      var nodeKey := Trim(result.value.nodeKey);
      if nodeKey == "" {
        return Failure(EmptyKey), sleeps;
      }
      if saved {
        var text := SaveNodeState(IniFields(cfg, result.value.id, nodeKey, updatedAt));
        disk := Some(text);
      }
      r := Success(nodeKey);
    }
  }

  // ---------------------------------------------------------------- what is written is what a restart offers

  const INT64_LIMIT := 0x8000_0000_0000_0000

  /** The stray lines of the settings that precede node_key in the file, and of those that follow it. */
  function LinesBefore(cfg: AgentConfig): seq<string> {
    MoreLines(cfg.address) + MoreLines(cfg.name)
  }

  function LinesAfter(cfg: AgentConfig, updatedAt: string): seq<string> {
    MoreLines(cfg.protocol) + MoreLines(updatedAt)
  }

  /**
   * The settings let the written key be read back: no entry has a line of 64 KiB; and of the lines behind the
   * first of a setting, those before node_key leave the section open, or close it only after giving the very
   * same key, and those after it give no other key. A caller can tell before anything is written.
   */
  ghost predicate ReadsBack(cfg: AgentConfig, id: int, key: string, updatedAt: string) {
    && '\n' !in key
    && !Overlong(IniFields(cfg, id, key, updatedAt))
    && KeyRead(LinesBefore(cfg), key, LinesAfter(cfg, updatedAt)) == Some(key)
  }

  function Pow10(d: nat): nat {
    if d == 0 then 1 else 10 * Pow10(d - 1)
  }

  lemma {:induction false} ItoaDigits(n: int, d: nat)
    requires d >= 1 && 0 <= n < Pow10(d)
    ensures |Itoa(n)| <= d
  {
    assert Pow10(1) == 10;
    if n >= 10 {
      ItoaDigits(n / 10, d - 1);
    }
  }

  lemma NumberIsShort(n: int)
    requires -INT64_LIMIT <= n < INT64_LIMIT
    ensures |Itoa(n)| <= 20
  {
    assert Pow10(19) == 1_0000_0000_0000_0000_000 by {
      assert Pow10(4) == 1_0000;
      assert Pow10(8) == 1_0000 * Pow10(4);
      assert Pow10(12) == 1_0000 * Pow10(8);
      assert Pow10(16) == 1_0000 * Pow10(12);
    }
    ItoaDigits(if n < 0 then -n else n, 19);
  }

  lemma NumberIsOneLine(n: int)
    ensures '\n' !in Itoa(n) && MoreLines(Itoa(n)) == []
  {
    OnePiece(Itoa(n));
  }

  lemma FieldValues(cfg: AgentConfig, id: int, key: string, updatedAt: string)
    ensures var fields := IniFields(cfg, id, key, updatedAt);
            && At(fields, "address") == cfg.address && At(fields, "listen_port") == Itoa(cfg.listenPort)
            && At(fields, "name") == cfg.name && At(fields, "node_id") == Itoa(id) && At(fields, "node_key") == key
            && At(fields, "port") == Itoa(cfg.port) && At(fields, "protocol") == cfg.protocol
            && At(fields, "updated_at") == updatedAt
  {
    hide Itoa;
  }

  lemma FieldNames(cfg: AgentConfig, id: int, key: string, updatedAt: string, name: string)
    requires name in IniFields(cfg, id, key, updatedAt)
    ensures name in AGENT_FIELDS
  {
    hide Itoa;
  }

  lemma {:induction false} StraysOf(keys: seq<string>, fields: NodeState, lines: seq<seq<string>>)
    requires |lines| == |keys| && forall i | 0 <= i < |keys| :: MoreLines(At(fields, keys[i])) == lines[i]
    ensures Strays(keys, fields) == Joined(lines)
  {
    hide MoreLines, At;
    if keys != [] {
      StraysOf(keys[1..], fields, lines[1..]);
    }
  }

  ghost function Joined(lines: seq<seq<string>>): seq<string> {
    if lines == [] then [] else lines[0] + Joined(lines[1..])
  }

  lemma JoinedCons(a: seq<string>, rest: seq<seq<string>>)
    ensures Joined([a] + rest) == a + Joined(rest)
  {
    assert ([a] + rest)[1..] == rest;
  }

  lemma JoinedFour(a: seq<string>, b: seq<string>)
    ensures Joined([a, [], b, []]) == a + b && Joined([[], a, b]) == a + b
  {
    var none: seq<string> := [];
    hide Joined;
    JoinedNone();
    JoinedCons(none, []);
    JoinedCons(b, []);
    JoinedCons(b, [none]);
    JoinedCons(none, [b, none]);
    JoinedCons(a, [none, b, none]);
    JoinedCons(a, [b]);
    JoinedCons(none, [a, b]);
    assert [none] + [] == [none] && [b] + [] == [b];
    assert [b] + [none] == [b, none] && [none] + [b, none] == [none, b, none] &&
        [a] + [none, b, none] == [a, none, b, none];
    assert [a] + [b] == [a, b] && [none] + [a, b] == [none, a, b];
  }

  lemma JoinedNone()
    ensures Joined([]) == []
  {
  }

  /** The stray lines of the saved file are those of the four text settings. */
  lemma FieldStrays(cfg: AgentConfig, id: int, key: string, updatedAt: string)
    requires '\n' !in key && key != ""
    ensures var fields := IniFields(cfg, id, key, updatedAt);
            && HasNodeKey(fields) && fields["node_key"] == key && FirstLine(key) == key
            && Strays(BEFORE, fields) == LinesBefore(cfg) && StraysAfter(fields) == LinesAfter(cfg, updatedAt)
  {
    var fields := IniFields(cfg, id, key, updatedAt);
    FieldValues(cfg, id, key, updatedAt);
    NumberIsOneLine(id);
    NumberIsOneLine(cfg.port);
    NumberIsOneLine(cfg.listenPort);
    OnePiece(key);
    HoldsNodeKey(cfg, id, key, updatedAt);
    hide MoreLines, Itoa, FirstLine, IniFields, At, AGENT_FIELDS, HasNodeKey, Joined;
    StraysOf(BEFORE, fields, [MoreLines(cfg.address), [], MoreLines(cfg.name), []]);
    StraysOf(AFTER, fields, [[], MoreLines(cfg.protocol), MoreLines(updatedAt)]);
    JoinedFour(MoreLines(cfg.address), MoreLines(cfg.name));
    JoinedFour(MoreLines(cfg.protocol), MoreLines(updatedAt));
  }

  lemma HoldsNodeKey(cfg: AgentConfig, id: int, key: string, updatedAt: string)
    requires key != ""
    ensures HasNodeKey(IniFields(cfg, id, key, updatedAt))
    ensures IniFields(cfg, id, key, updatedAt)["node_key"] == key
  {
    FieldValues(cfg, id, key, updatedAt);
    hide AGENT_FIELDS, IniFields;
    forall name | name in IniFields(cfg, id, key, updatedAt) ensures name in AGENT_FIELDS {
      FieldNames(cfg, id, key, updatedAt, name);
    }
  }

  lemma {:induction false} RedefinedTrimmed(open: bool, lines: seq<string>)
    ensures Redefined(open, lines).Some? ==> Trimmed(Redefined(open, lines).value)
  {
    if lines != [] {
      ParsedValueTrimmed(lines[|lines| - 1]);
      hide Parse;
      RedefinedTrimmed(open, lines[..|lines| - 1]);
    }
  }

  lemma ParsedValueTrimmed(line: string)
    ensures Parse(line).Pair? ==> Trimmed(Parse(line).value)
  {
    if Parse(line).Pair? {
      var _, _ := TrimSplits(Cut(Trim(line), '=').value.1);
    }
  }

  lemma KeyReadTrimmed(before: seq<string>, own: string, after: seq<string>)
    requires Trimmed(own)
    ensures var read := KeyRead(before, own, after); read.Some? ==> Trim(read.value) == read.value
  {
    hide Redefined, SectionAfter;
    RedefinedTrimmed(true, before);
    RedefinedTrimmed(SectionAfter(true, before), after);
    if KeyRead(before, own, after).Some? {
      TrimOfTrimmed(KeyRead(before, own, after).value);
    }
  }

  lemma TrimKeepsOneLine(s: string)
    requires '\n' !in s
    ensures '\n' !in Trim(s)
  {
    hide TrimBy;
    var at := TrimSpan(s);
    forall i | 0 <= i < |Trim(s)| ensures Trim(s)[i] != '\n' { assert Trim(s)[i] == s[at + i]; }
  }

  /** A restart offers the key that was written exactly if the settings let it be read back; for any settings. */
  lemma WrittenKeyIsOffered(cfg: AgentConfig, id: int, key: string, updatedAt: string)
    requires key != "" && Trimmed(key)
    ensures OldKey(Some(SaveText(IniFields(cfg, id, key, updatedAt)))) == Success(key) <==>
            ReadsBack(cfg, id, key, updatedAt)
  {
    var fields := IniFields(cfg, id, key, updatedAt);
    TrimOfTrimmed("");
    hide SaveText, LoadText, Overlong, KeyInFile, KeyRead, IniFields, Trim, OldKey, Load, LinesBefore, LinesAfter;
    hide FirstLine;
    OverlongSaved(fields);
    if Overlong(fields) {
      UnreadableIsNotOffered(fields);
    } else {
      OldKeyIsLoaded(SaveText(fields));
      KeyIsOneLine(fields);
      if '\n' in key {
        if KeyInFile(SaveText(fields)).Some? { TrimKeepsOneLine(KeyInFile(SaveText(fields)).value); }
      } else {
        FieldStrays(cfg, id, key, updatedAt);
        LoadedNodeKey(fields);
        TrimOfTrimmed(key);
        KeyReadTrimmed(LinesBefore(cfg), key, LinesAfter(cfg, updatedAt));
      }
    }
  }

  lemma UnreadableIsNotOffered(fields: NodeState)
    requires LoadText(SaveText(fields)) == Failure(LineTooLong)
    ensures OldKey(Some(SaveText(fields))) == Failure(LineTooLong)
  {
    hide LoadText, SaveText;
  }

  /**
   * The health check of a restarted container reads the key that was written exactly if the key is one line
   * and no stray line behind it looks like another; sections and long lines do not disturb it.
   */
  lemma HealthCheckReadsWrittenKey(cfg: AgentConfig, id: int, key: string, updatedAt: string)
    requires key != "" && Trimmed(key)
    ensures HealthCheckKey(SaveText(IniFields(cfg, id, key, updatedAt))) == key <==>
            '\n' !in key && SedLast(LinesAfter(cfg, updatedAt)) in {None, Some(key)}
  {
    assert TrimLeft(IsCSpace, key) == key;
    hide SaveText, IniFields, LinesBefore, LinesAfter, FirstLine, SedLast, HealthCheckKey, TrimLeft;
    HealthCheckKeyIsOneLine(SaveText(IniFields(cfg, id, key, updatedAt)));
    if '\n' !in key {
      FieldStrays(cfg, id, key, updatedAt);
      HealthCheckReads(IniFields(cfg, id, key, updatedAt));
    }
  }

  // ---------------------------------------------------------------- settings on one line

  ghost predicate OneLineSettings(cfg: AgentConfig, updatedAt: string) {
    '\n' !in cfg.name && '\n' !in cfg.address && '\n' !in cfg.protocol && '\n' !in updatedAt
  }

  ghost predicate ShortSettings(cfg: AgentConfig, key: string, updatedAt: string) {
    && !TooLong(Entry("name", cfg.name)) && !TooLong(Entry("address", cfg.address))
    && !TooLong(Entry("protocol", cfg.protocol)) && !TooLong(Entry("updated_at", updatedAt))
    && !TooLong(Entry("node_key", key))
  }

  lemma OneLineEntry(key: string, value: string)
    requires '\n' !in key && '\n' !in value
    ensures LongEntry(key, value) <==> TooLong(Entry(key, value))
  {
    hide Pieces, TooLong;
    assert '\n' !in Entry(key, value);
    OnePiece(Entry(key, value));
  }

  lemma NumberEntryIsShort(key: string, n: int)
    requires |key| <= 20 && '\n' !in key && -INT64_LIMIT <= n < INT64_LIMIT
    ensures !LongEntry(key, Itoa(n))
  {
    NumberIsShort(n);
    ByteLenBound(Entry(key, Itoa(n)));
    NumberIsOneLine(n);
    OneLineEntry(key, Itoa(n));
  }

  lemma EmptyEntryIsShort(key: string)
    requires key in AGENT_FIELDS
    ensures !TooLong(Entry(key, ""))
  {
    ByteLenBound(Entry(key, ""));
  }

  lemma LongField(cfg: AgentConfig, id: int, key: string, updatedAt: string, name: string)
    requires OneLineSettings(cfg, updatedAt) && '\n' !in key && -INT64_LIMIT <= id < INT64_LIMIT
    requires name in NonEmpty(IniFields(cfg, id, key, updatedAt))
    requires LongEntry(name, IniFields(cfg, id, key, updatedAt)[name])
    ensures !ShortSettings(cfg, key, updatedAt)
  {
    var value := At(IniFields(cfg, id, key, updatedAt), name);
    FieldValues(cfg, id, key, updatedAt);
    FieldNames(cfg, id, key, updatedAt, name);
    NumberEntryIsShort("node_id", id);
    NumberEntryIsShort("port", cfg.port);
    NumberEntryIsShort("listen_port", cfg.listenPort);
    AgentFieldPlain(name);
    hide Itoa, IniFields, TooLong, Entry, LongEntry, PlainKey;
    if name in {"name", "address", "protocol", "updated_at", "node_key"} {
      OneLineEntry(name, value);
    }
  }

  lemma LongSetting(cfg: AgentConfig, id: int, key: string, updatedAt: string, name: string, value: string)
    requires name in AGENT_FIELDS && At(IniFields(cfg, id, key, updatedAt), name) == value && '\n' !in value
    requires TooLong(Entry(name, value))
    ensures Overlong(IniFields(cfg, id, key, updatedAt))
  {
    AgentFieldPlain(name);
    EmptyEntryIsShort(name);
    hide IniFields, TooLong, Entry, LongEntry, PlainKey, AGENT_FIELDS;
    OneLineEntry(name, value);
    assert name in NonEmpty(IniFields(cfg, id, key, updatedAt));
  }

  lemma LongFields(cfg: AgentConfig, id: int, key: string, updatedAt: string)
    requires OneLineSettings(cfg, updatedAt) && '\n' !in key && -INT64_LIMIT <= id < INT64_LIMIT
    ensures Overlong(IniFields(cfg, id, key, updatedAt)) <==> !ShortSettings(cfg, key, updatedAt)
  {
    FieldValues(cfg, id, key, updatedAt);
    hide IniFields, TooLong, Entry, LongEntry;
    if Overlong(IniFields(cfg, id, key, updatedAt)) {
      var name :| name in NonEmpty(IniFields(cfg, id, key, updatedAt)) &&
                  LongEntry(name, IniFields(cfg, id, key, updatedAt)[name]);
      LongField(cfg, id, key, updatedAt, name);
    }
    if TooLong(Entry("name", cfg.name)) { LongSetting(cfg, id, key, updatedAt, "name", cfg.name); }
    if TooLong(Entry("address", cfg.address)) { LongSetting(cfg, id, key, updatedAt, "address", cfg.address); }
    if TooLong(Entry("protocol", cfg.protocol)) { LongSetting(cfg, id, key, updatedAt, "protocol", cfg.protocol); }
    if TooLong(Entry("updated_at", updatedAt)) { LongSetting(cfg, id, key, updatedAt, "updated_at", updatedAt); }
    if TooLong(Entry("node_key", key)) { LongSetting(cfg, id, key, updatedAt, "node_key", key); }
  }

  /** With settings on one line, length is all that matters. */
  lemma OneLineReadsBack(cfg: AgentConfig, id: int, key: string, updatedAt: string)
    requires OneLineSettings(cfg, updatedAt) && '\n' !in key && -INT64_LIMIT <= id < INT64_LIMIT
    ensures ReadsBack(cfg, id, key, updatedAt) <==> ShortSettings(cfg, key, updatedAt)
  {
    LongFields(cfg, id, key, updatedAt);
    OnePiece(cfg.name);
    OnePiece(cfg.address);
    OnePiece(cfg.protocol);
    OnePiece(updatedAt);
    hide ShortSettings, IniFields, MoreLines, Overlong;
    EmptyEffect(true);
  }

  /** Generated keys survive every trim on the way and fit on a line. */
  lemma GeneratedKeySurvives(key: string)
    requires |key| == 43
    requires forall i | 0 <= i < |key| :: '!' <= key[i] <= '~'
    ensures Trimmed(key) && Trim(key) == key && '\n' !in key && !TooLong(Entry("node_key", key))
  {
    TrimOfTrimmed(key);
    ByteLenBound(Entry("node_key", key));
  }

  // ---------------------------------------------------------------- two settings that break the restart

  lemma {:induction false} ByteLenAtLeast(s: string)
    ensures ByteLen(s) >= |s|
  {
    if s != "" { ByteLenAtLeast(s[..|s| - 1]); }
  }

  /** NODE_NAME of 65536 letters: registered and written without complaint, and the next boot cannot read the file. */
  lemma LongName(cfg: AgentConfig, id: int, key: string, updatedAt: string)
    requires cfg.name == seq(65536, i => 'a')
    ensures OldKey(Some(SaveText(IniFields(cfg, id, key, updatedAt)))) == Failure(LineTooLong)
  {
    var fields := IniFields(cfg, id, key, updatedAt);
    FieldValues(cfg, id, key, updatedAt);
    ByteLenAtLeast(Entry("name", cfg.name));
    OneLineEntry("name", cfg.name);
    assert "name" in NonEmpty(fields) && fields["name"] == cfg.name;
    hide IniFields, SaveText, LoadText, LongEntry;
    OverlongSaved(fields);
    UnreadableIsNotOffered(fields);
  }

  /**
   * NODE_NAME = "a\n[x]": its second line closes the section before node_key. The next boot offers no key,
   * so that its key is rotated, while the health check goes on reading the written one.
   */
  lemma SectionInName(cfg: AgentConfig, id: int, key: string, updatedAt: string)
    requires cfg.name == "a\n[x]" && '\n' !in cfg.address && '\n' !in cfg.protocol && '\n' !in updatedAt
    requires key != "" && Trimmed(key) && '\n' !in key && !Overlong(IniFields(cfg, id, key, updatedAt))
    ensures var text := SaveText(IniFields(cfg, id, key, updatedAt));
            OldKey(Some(text)) == Success("") && HealthCheckKey(text) == key
  {
    var fields := IniFields(cfg, id, key, updatedAt);
    NameLines(cfg.name);
    OnePiece(cfg.address);
    OnePiece(cfg.protocol);
    OnePiece(updatedAt);
    assert LinesBefore(cfg) == MoreLines(cfg.name) && LinesAfter(cfg, updatedAt) == [];
    hide IniFields, SaveText, LoadText, Overlong, KeyInFile, OldKey, HealthCheckKey, LinesBefore, LinesAfter, FirstLine;
    FieldStrays(cfg, id, key, updatedAt);
    LoadedNodeKey(fields);
    OldKeyIsLoaded(SaveText(fields));
    EmptyEffect(false);
    HealthCheckReadsWrittenKey(cfg, id, key, updatedAt);
  }

  lemma NameLines(name: string)
    requires name == "a\n[x]"
    ensures SectionAfter(true, MoreLines(name)) == false && Redefined(true, MoreLines(name)) == None
  {
    PiecesCons("a", "[x]");
    OnePiece("[x]");
    assert "a" + "\n" + "[x]" == name;
    assert MoreLines(name) == ["[x]"];
    ClosesSection("[x]");
  }

  lemma ClosesSection(line: string)
    requires line == "[x]"
    ensures SectionAfter(true, [line]) == false && Redefined(true, [line]) == None
  {
    TrimOfTrimmed(line);
    assert Parse(line) == Header(false);
    hide Parse;
    assert [line][..0] == [];
  }
}

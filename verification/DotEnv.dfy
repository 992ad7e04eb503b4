/** internal/config/dotenv.go: .env files fill gaps in the environment, and the first definition wins. */
module DotEnv {
  import opened Wrappers
  import opened Text

  type Environment = map<string, string>

  datatype Definition = Definition(key: string, value: string)

  /** What one line defines, if anything. */
  function Parse(line: string): Option<Definition> {
    var l := Trim(line);
    if l == "" || HasPrefix(l, "#") then None
    else match Cut(l, '=')
      case None => None
      case Some((k, v)) =>
        if Trim(k) == "" then None else Some(Definition(Trim(k), TrimBy(IsQuote, Trim(v))))
  }

  /** What a line defines: key and value around the first equals sign, both trimmed; comments define nothing. */
  lemma ParseIs(line: string, key: string, value: string)
    ensures Parse(line) == Some(Definition(key, value)) <==>
            var t := Trim(line);
            && t != "" && t[0] != '#' && key != ""
            && exists a, b :: t == a + "=" + b && '=' !in a && Trim(a) == key && TrimBy(IsQuote, Trim(b)) == value
  {
    hide Trim, TrimBy, Cut;
    var t := Trim(line);
    if t != "" { assert t[..1] == [t[0]]; }
    if Parse(line) == Some(Definition(key, value)) {
      var (a, b) := Cut(t, '=').value;
      CutIs(t, '=', a, b);
      assert t == a + "=" + b;
    }
    forall a, b | t == a + "=" + b && '=' !in a ensures Cut(t, '=') == Some((a, b)) {
      CutIs(t, '=', a, b);
    }
  }

  /** Of quotes at either end, all are taken off and nothing else; quotes inside stay. */
  lemma QuotesStripped(s: string) returns (left: string, right: string)
    ensures var v := TrimBy(IsQuote, s);
            && s == left + v + right
            && (forall i | 0 <= i < |left| :: IsQuote(left[i])) && (forall i | 0 <= i < |right| :: IsQuote(right[i]))
            && (v != "" ==> !IsQuote(v[0]) && !IsQuote(v[|v| - 1]))
  {
    hide TrimLeft, TrimRight, IsQuote;
    var t := TrimLeft(IsQuote, s);
    TrimLeftSplits(IsQuote, s);
    TrimRightSplits(IsQuote, t);
    var v := TrimBy(IsQuote, s);
    left, right := s[..|s| - |t|], t[|v|..];
    assert s == left + t && t == v + right;
    if v != "" { assert v[0] == t[0]; }
  }

  /** os.Setenv refuses NUL characters; the loader ignores the refusal. */
  predicate Settable(d: Definition) {
    '\U{0}' !in d.key && '\U{0}' !in d.value
  }

  predicate Defines(line: string, key: string) {
    var d := Parse(line);
    d.Some? && d.value.key == key && Settable(d.value)
  }

  /** A parsed definition counts unless the environment would refuse it for a NUL character. */
  lemma DefinesIs(line: string, key: string)
    ensures Defines(line, key) <==>
            exists value :: Parse(line) == Some(Definition(key, value)) && '\U{0}' !in key && '\U{0}' !in value
  {
    hide Parse;
    if Defines(line, key) {
      assert Parse(line) == Some(Definition(key, Parse(line).value.value));
    }
  }

  /** The value of the first line that defines `key`. */
  function FirstDefinition(lines: seq<string>, key: string): Option<string> {
    if lines == [] then None
    else if Defines(lines[0], key) then Some(Parse(lines[0]).value.value)
    else FirstDefinition(lines[1..], key)
  }

  /** The first definition is the one that no earlier line gives. */
  lemma {:induction false} FirstDefinitionIs(lines: seq<string>, key: string)
    ensures FirstDefinition(lines, key).None? ==> forall i | 0 <= i < |lines| :: !Defines(lines[i], key)
    ensures FirstDefinition(lines, key).Some? ==>
              exists i :: 0 <= i < |lines| && Defines(lines[i], key)
                          && (forall j | 0 <= j < i :: !Defines(lines[j], key))
                          && Parse(lines[i]).value.value == FirstDefinition(lines, key).value
  {
    hide Parse;
    if lines != [] && !Defines(lines[0], key) {
      FirstDefinitionIs(lines[1..], key);
      if FirstDefinition(lines, key).Some? {
        var i :| 0 <= i < |lines[1..]| && Defines(lines[1..][i], key) &&
                 (forall j | 0 <= j < i :: !Defines(lines[1..][j], key)) &&
                 Parse(lines[1..][i]).value.value == FirstDefinition(lines, key).value;
        assert lines[1..][i] == lines[i + 1];
        forall j | 0 <= j < i + 1 ensures !Defines(lines[j], key) {
          if j > 0 { assert lines[j] == lines[1..][j - 1]; }
        }
      }
    }
  }

  /** What each variable reads as afterwards: its prior value, else its first definition, else nothing. */
  ghost predicate Loaded(before: Environment, lines: seq<string>, after: Environment) {
    forall key ::
      (if key in after then Some(after[key]) else None) ==
      if key in before then Some(before[key]) else FirstDefinition(lines, key)
  }

  lemma {:induction false} FirstDefinitionAppend(lines: seq<string>, line: string, key: string)
    ensures FirstDefinition(lines + [line], key) ==
            if FirstDefinition(lines, key).Some? then FirstDefinition(lines, key)
            else if Defines(line, key) then Some(Parse(line).value.value) else None
  {
    if lines == [] {
      assert lines + [line] == [line];
      assert [line][1..] == [];
    } else {
      assert (lines + [line])[1..] == lines[1..] + [line];
      FirstDefinitionAppend(lines[1..], line, key);
    }
  }

  lemma LoadedNothing(before: Environment)
    ensures Loaded(before, [], before)
  {
  }

  lemma LoadedLine(before: Environment, lines: seq<string>, line: string, env: Environment, after: Environment)
    requires Loaded(before, lines, env)
    requires after == if Parse(line).Some? && Parse(line).value.key !in env && Settable(Parse(line).value)
                      then env[Parse(line).value.key := Parse(line).value.value] else env
    ensures Loaded(before, lines + [line], after)
  {
    hide Parse;
    forall key
      ensures (if key in after then Some(after[key]) else None) ==
              if key in before then Some(before[key]) else FirstDefinition(lines + [line], key)
    {
      FirstDefinitionAppend(lines, line, key);
      assert (if key in env then Some(env[key]) else None) ==
             if key in before then Some(before[key]) else FirstDefinition(lines, key);
    }
  }

  /** A missing file changes nothing; an overlong line silently ends the reading. */
  method LoadDotEnv(file: Option<string>, before: Environment) returns (env: Environment)
    ensures file.None? ==> env == before
    ensures file.Some? ==> Loaded(before, ScanLines(file.value).lines, env)
  {
    hide Trim, TrimBy, Cut, HasPrefix, FirstDefinition;
    env := before;
    if file.None? {
      return;
    }
    LoadedNothing(before);
    var lines := ScanLines(file.value).lines;
    for i := 0 to |lines|
      invariant Loaded(before, lines[..i], env)
    {
      ghost var prior := env;
      var line := Trim(lines[i]);
      if line != "" && !HasPrefix(line, "#") {
        var cut := Cut(line, '=');
        if cut.Some? {
          var key := Trim(cut.value.0);
          var value := TrimBy(IsQuote, Trim(cut.value.1));
          if key != "" && key !in env {
            if '\U{0}' !in key && '\U{0}' !in value {
              env := env[key := value];
            }
          }
        }
      }
      LoadedLine(before, lines[..i], lines[i], prior, env);
      assert lines[..i + 1] == lines[..i] + [lines[i]];
    }
    assert lines[..|lines|] == lines;
  }

  /** The contract leaves no choice. */
  lemma LoadedUnique(before: Environment, lines: seq<string>, a: Environment, b: Environment)
    requires Loaded(before, lines, a) && Loaded(before, lines, b)
    ensures a == b
  {
    forall key ensures (key in a <==> key in b) && (key in a ==> a[key] == b[key]) {
      assert (if key in a then Some(a[key]) else None) == if key in b then Some(b[key]) else None;
    }
  }

  /** Loading the same file again changes nothing. */
  lemma LoadingTwice(before: Environment, lines: seq<string>, once: Environment, twice: Environment)
    requires Loaded(before, lines, once) && Loaded(once, lines, twice)
    ensures twice == once
  {
    forall key ensures (key in once <==> key in twice) && (key in once ==> once[key] == twice[key]) {
      assert (if key in twice then Some(twice[key]) else None) ==
             if key in once then Some(once[key]) else FirstDefinition(lines, key);
      assert (if key in once then Some(once[key]) else None) ==
             if key in before then Some(before[key]) else FirstDefinition(lines, key);
    }
  }
}

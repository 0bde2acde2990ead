/**
The env file that bootstrap edits (class EnvFile in scripts/bootstrap.py): managed assignments are read and replaced,
every other line survives. A line is what lies between two line feeds. Which keys are managed and which are refused is
a parameter; writing the text to disk is left out.
*/
module EnvFile {
  import opened Wrappers
  import opened Splitting

  const EFFECTIVE_IMAGE := "BP_WORKERD_EFFECTIVE_IMAGE"
  const PROFILES := "COMPOSE_PROFILES"

  /** The settings bootstrap reads or writes, and those among them that nothing reads any more. */
  datatype Config = Config(managed: set<string>, unsupported: set<string>)

  datatype Refusal = EffectiveImagePersisted | SetTwice | NotLiteral | NeedsQuotes | NotPreservable

  // ---------------------------------------------------------------- one line

  /** str.isspace, which is also \s. */
  predicate Space(c: char) {
    || '\t' <= c <= '\r' || '\U{1c}' <= c <= ' ' || c == '\U{85}' || c == '\U{a0}' || c == '\U{1680}'
    || '\U{2000}' <= c <= '\U{200a}' || c == '\U{2028}' || c == '\U{2029}' || c == '\U{202f}' || c == '\U{205f}' || c == '\U{3000}'
  }

  predicate NameStart(c: char) {
    'A' <= c <= 'Z' || 'a' <= c <= 'z' || c == '_'
  }

  predicate NameChar(c: char) {
    NameStart(c) || '0' <= c <= '9'
  }

  predicate IsName(s: string) {
    s != "" && NameStart(s[0]) && forall i :: 0 <= i < |s| ==> NameChar(s[i])
  }

  function SkipSpace(s: string): string {
    if s != "" && Space(s[0]) then SkipSpace(s[1..]) else s
  }

  function NameRun(s: string): string {
    if s != "" && NameChar(s[0]) then [s[0]] + NameRun(s[1..]) else ""
  }

  function NameAt(s: string): Option<string> {
    if s != "" && NameStart(s[0]) then Some(NameRun(s)) else None
  }

  /** ^\s*(?:export\s+)?([A-Za-z_][A-Za-z0-9_]*) */
  function KeyOf(line: string): Option<string> {
    var s := SkipSpace(line);
    if |s| > 6 && s[..6] == "export" && Space(s[6]) && NameAt(SkipSpace(s[6..])).Some? then NameAt(SkipSpace(s[6..])) else NameAt(s)
  }

  /** ^([A-Za-z_][A-Za-z0-9_]*)=(.*)$ : the value */
  function AssignedValue(line: string): Option<string> {
    var name := NameAt(line);
    if name.Some? && |name.value| < |line| && line[|name.value|] == '=' then Some(line[|name.value| + 1..]) else None
  }

  predicate Unquotable(v: string) {
    exists i :: 0 <= i < |v| && (v[i] == '\'' || v[i] == '"' || v[i] == '\\' || v[i] == '\n')
  }

  predicate Expands(v: string) {
    exists i :: 0 <= i < |v| && (v[i] == '$' || v[i] == '`' || v[i] == '\r')
  }

  predicate Quoted(v: string) {
    |v| >= 2 && v[0] == v[|v| - 1] && (v[0] == '\'' || v[0] == '"')
  }

  predicate NeedsQuoting(v: string) {
    exists i :: 0 <= i < |v| && (Space(v[i]) || v[i] == '#')
  }

  /** The value of a managed line, None when it is empty and only COMPOSE_PROFILES may be. */
  function Reading(key: string, line: string): Result<Option<string>, Refusal> {
    var text := AssignedValue(line);
    if text.None? || Expands(text.value) then Err(NotLiteral)
    else if !Quoted(text.value) && NeedsQuoting(text.value) then Err(NeedsQuotes)
    else
      var v := if Quoted(text.value) then text.value[1..|text.value| - 1] else text.value;
      if Unquotable(v) then Err(NotPreservable) else Ok(if v != "" || key == PROFILES then Some(v) else None)
  }

  datatype Line = Unrelated | Effective | Unsupported(key: string) | Managed(key: string, reading: Result<Option<string>, Refusal>)

  function Classify(c: Config, line: string): Line {
    var s := SkipSpace(line);
    var key := KeyOf(line);
    if s == "" || s[0] == '#' then Unrelated
    else if key == Some(EFFECTIVE_IMAGE) then Effective
    else if key.None? || key.value !in c.managed then Unrelated
    else if key.value in c.unsupported then Unsupported(key.value)
    else Managed(key.value, Reading(key.value, line))
  }

  // ---------------------------------------------------------------- all lines

  datatype Settings = Settings(entries: map<string, string>, assignments: map<string, nat>)

  function ReadLine(c: Config, st: Settings, index: nat, line: string): Result<Settings, Refusal> {
    match Classify(c, line)
    case Unrelated => Ok(st)
    case Effective => Err(EffectiveImagePersisted)
    case Unsupported(key) => Ok(if key in st.assignments then st else st.(assignments := st.assignments[key := index]))
    case Managed(key, reading) =>
      if key in st.assignments then Err(SetTwice)
      else if reading.Err? then Err(reading.error)
      else Ok(Settings(if reading.value.Some? then st.entries[key := reading.value.value] else st.entries, st.assignments[key := index]))
  }

  function Parse(c: Config, lines: seq<string>): Result<Settings, Refusal> {
    if lines == [] then Ok(Settings(map[], map[]))
    else
      var n := |lines| - 1;
      var st := Parse(c, lines[..n]);
      if st.Err? then st else ReadLine(c, st.value, n, lines[n])
  }

  predicate HasKey(l: Line, key: string) {
    (l.Managed? || l.Unsupported?) && l.key == key
  }

  ghost predicate Entry(c: Config, lines: seq<string>, key: string, v: string) {
    exists i :: 0 <= i < |lines| && Classify(c, lines[i]) == Managed(key, Ok(Some(v)))
  }

  /** No line is refused, and no managed key is assigned twice. */
  ghost predicate Accepted(c: Config, lines: seq<string>) {
    && (forall i :: 0 <= i < |lines| ==> !Classify(c, lines[i]).Effective? && (Classify(c, lines[i]).Managed? ==> Classify(c, lines[i]).reading.Ok?))
    && (forall i, j :: 0 <= i < j < |lines| && Classify(c, lines[i]).Managed? && Classify(c, lines[j]).Managed? ==>
          Classify(c, lines[i]).key != Classify(c, lines[j]).key)
  }

  /** Each key's assignment is the first line that has it. */
  ghost predicate Assigns(c: Config, lines: seq<string>, assignments: map<string, nat>) {
    && (forall k :: k in assignments ==> assignments[k] < |lines| && HasKey(Classify(c, lines[assignments[k]]), k))
    && (forall i, k :: 0 <= i < |lines| && HasKey(Classify(c, lines[i]), k) ==> k in assignments && assignments[k] <= i)
  }

  ghost predicate Enters(c: Config, lines: seq<string>, entries: map<string, string>) {
    && (forall k :: k in entries ==> Entry(c, lines, k, entries[k]))
    && (forall k, v :: Entry(c, lines, k, v) ==> k in entries && entries[k] == v)
  }

  /** What the settings are, whatever the order of the lines: what each managed line says, once. */
  ghost predicate Reads(c: Config, lines: seq<string>, st: Settings) {
    Accepted(c, lines) && Enters(c, lines, st.entries) && Assigns(c, lines, st.assignments)
  }

  ghost predicate ValidConfig(c: Config) {
    && c.unsupported <= c.managed && EFFECTIVE_IMAGE !in c.managed
    && forall k :: k in c.managed ==> IsName(k)
  }

  lemma {:induction false} ParseReads(c: Config, lines: seq<string>)
    ensures Parse(c, lines).Ok? ==> Reads(c, lines, Parse(c, lines).value)
  {
    hide Classify;
    if lines != [] {
      var n := |lines| - 1;
      ParseReads(c, lines[..n]);
      if Parse(c, lines).Ok? {
        ReadLineReads(c, lines[..n], Parse(c, lines[..n]).value, lines[n]);
        assert lines[..n] + [lines[n]] == lines;
      }
    }
  }

  lemma ReadLineReads(c: Config, lines: seq<string>, st: Settings, line: string)
    requires Reads(c, lines, st) && ReadLine(c, st, |lines|, line).Ok?
    ensures Reads(c, lines + [line], ReadLine(c, st, |lines|, line).value)
  {
    hide Classify, Entry;
    EntrySnoc(c, lines, line);
    EntryIsAssigned(c, lines, st);
    ReadLineAccepts(c, lines, st, line);
    ReadLineAssigns(c, lines, st, line);
    hide Accepted, Assigns;
  }

  lemma ReadLineAccepts(c: Config, lines: seq<string>, st: Settings, line: string)
    requires Reads(c, lines, st) && ReadLine(c, st, |lines|, line).Ok?
    ensures Accepted(c, lines + [line])
  {
    hide Classify, Enters;
    var all := lines + [line];
    assert all[|lines|] == line && forall i :: 0 <= i < |lines| ==> all[i] == lines[i];
    forall i | 0 <= i < |lines| && Classify(c, lines[i]).Managed? && Classify(c, line).Managed? ensures Classify(c, lines[i]).key != Classify(c, line).key {
      assert HasKey(Classify(c, lines[i]), Classify(c, lines[i]).key);
    }
  }

  lemma ReadLineAssigns(c: Config, lines: seq<string>, st: Settings, line: string)
    requires Reads(c, lines, st) && ReadLine(c, st, |lines|, line).Ok?
    ensures Assigns(c, lines + [line], ReadLine(c, st, |lines|, line).value.assignments)
  {
    hide Classify, Enters, Accepted;
    var all := lines + [line];
    assert all[|lines|] == line && forall i :: 0 <= i < |lines| ==> all[i] == lines[i];
  }

  lemma EntryIsAssigned(c: Config, lines: seq<string>, st: Settings)
    requires Reads(c, lines, st)
    ensures forall k, v :: Entry(c, lines, k, v) ==> k in st.assignments
  {
    hide Classify, Enters, Accepted;
    forall k, v | Entry(c, lines, k, v) ensures k in st.assignments {
      var i :| 0 <= i < |lines| && Classify(c, lines[i]) == Managed(k, Ok(Some(v)));
      assert HasKey(Classify(c, lines[i]), k);
    }
  }

  lemma EntrySnoc(c: Config, lines: seq<string>, line: string)
    ensures forall k, v :: Entry(c, lines + [line], k, v) <==> Entry(c, lines, k, v) || Classify(c, line) == Managed(k, Ok(Some(v)))
  {
    hide Classify;
    var all := lines + [line];
    forall k, v ensures Entry(c, all, k, v) <==> Entry(c, lines, k, v) || Classify(c, line) == Managed(k, Ok(Some(v))) {
      if Entry(c, lines, k, v) {
        var i :| 0 <= i < |lines| && Classify(c, lines[i]) == Managed(k, Ok(Some(v)));
        assert all[i] == lines[i];
      }
      if Classify(c, line) == Managed(k, Ok(Some(v))) { assert all[|lines|] == line; }
    }
  }

  /** A text is accepted exactly when no line is refused and no managed key is assigned twice. */
  lemma {:induction false} ParsesIffAccepted(c: Config, lines: seq<string>)
    ensures Parse(c, lines).Ok? <==> Accepted(c, lines)
  {
    ParseReads(c, lines);
    if Accepted(c, lines) && lines != [] {
      var n := |lines| - 1;
      AcceptedFront(c, lines);
      ParsesIffAccepted(c, lines[..n]);
      ParseReads(c, lines[..n]);
      LastIsNew(c, lines, Parse(c, lines[..n]).value);
      hide Classify;
    }
  }

  lemma AcceptedFront(c: Config, lines: seq<string>)
    requires Accepted(c, lines) && lines != []
    ensures Accepted(c, lines[..|lines| - 1])
  {
    hide Classify;
  }

  lemma LastIsNew(c: Config, lines: seq<string>, st: Settings)
    requires lines != [] && Accepted(c, lines) && Reads(c, lines[..|lines| - 1], st)
    ensures var last := Classify(c, lines[|lines| - 1]);
      !last.Effective? && (last.Managed? ==> last.key !in st.assignments && last.reading.Ok?)
  {
    var n := |lines| - 1;
    var last := Classify(c, lines[n]);
    if last.Managed? && last.key in st.assignments {
      var i := st.assignments[last.key];
      assert lines[..n][i] == lines[i];
      SameKeySameKind(c, lines[i], lines[n]);
    }
  }

  lemma SameKeySameKind(c: Config, a: string, b: string)
    requires Classify(c, b).Managed? && HasKey(Classify(c, a), Classify(c, b).key)
    ensures Classify(c, a).Managed?
  {
  }

  /** And its lines determine what is read. */
  lemma ReadsIsUnique(c: Config, lines: seq<string>, a: Settings, b: Settings)
    requires Reads(c, lines, a) && Reads(c, lines, b)
    ensures a == b
  {
    hide Classify, Entry, Accepted;
    forall k ensures k in a.entries <==> k in b.entries ensures k in a.entries ==> a.entries[k] == b.entries[k] {
      if k in a.entries { assert Entry(c, lines, k, a.entries[k]); }
      if k in b.entries { assert Entry(c, lines, k, b.entries[k]); }
    }
    forall k ensures k in a.assignments <==> k in b.assignments ensures k in a.assignments ==> a.assignments[k] == b.assignments[k] {
      if k in a.assignments { assert HasKey(Classify(c, lines[a.assignments[k]]), k); }
      if k in b.assignments { assert HasKey(Classify(c, lines[b.assignments[k]]), k); }
    }
    assert a.entries == b.entries && a.assignments == b.assignments;
  }

  lemma ReadsParses(c: Config, lines: seq<string>, st: Settings)
    requires Reads(c, lines, st)
    ensures Parse(c, lines) == Ok(st)
  {
    ParsesIffAccepted(c, lines);
    ParseReads(c, lines);
    ReadsIsUnique(c, lines, Parse(c, lines).value, st);
  }

  // ---------------------------------------------------------------- the saved line

  /** What may be saved: a setting that is still read, and a value that its quoted line reads back as. */
  predicate Permitted(c: Config, key: string, v: string) {
    && key in c.managed && key !in c.unsupported && (v != "" || key == PROFILES)
    && !Unquotable(v) && !Expands(v)
  }

  function SavedLine(key: string, v: string): string {
    key + "='" + v + "'"
  }

  lemma {:induction false} NameRunOf(name: string, rest: string)
    requires (forall i :: 0 <= i < |name| ==> NameChar(name[i])) && (rest != "" ==> !NameChar(rest[0]))
    ensures NameRun(name + rest) == name
  {
    if name == "" {
      assert name + rest == rest;
    } else {
      NameRunOf(name[1..], rest);
      assert (name + rest)[1..] == name[1..] + rest;
    }
  }

  /** The saved line is read back as the saved value. */
  lemma SavedLineReads(c: Config, key: string, v: string)
    requires ValidConfig(c) && Permitted(c, key, v)
    ensures Classify(c, SavedLine(key, v)) == Managed(key, Ok(Some(v)))
    ensures SavedLine(key, v) != "" && '\n' !in SavedLine(key, v)
  {
    var line, rest := SavedLine(key, v), "='" + v + "'";
    assert line == key + rest;
    NameRunOf(key, rest);
    SavedKey(key, v);
    SavedValue(key, v);
    forall i | 0 <= i < |line| ensures line[i] != '\n' {
      if i < |key| { assert NameChar(key[i]); }
    }
  }

  lemma SavedKey(key: string, v: string)
    requires IsName(key)
    ensures SkipSpace(SavedLine(key, v)) == SavedLine(key, v) && SavedLine(key, v)[0] != '#'
    ensures NameAt(SavedLine(key, v)) == Some(key) && KeyOf(SavedLine(key, v)) == Some(key)
  {
    var line, rest := SavedLine(key, v), "='" + v + "'";
    assert line == key + rest;
    NameRunOf(key, rest);
    assert line[0] == key[0] && NameStart(line[0]);
    if |line| > 6 {
      assert |key| > 6 ==> NameChar(line[6]);
      assert |key| < 6 ==> line[..6][|key|] == '=';
    }
  }

  lemma SavedValue(key: string, v: string)
    requires IsName(key)
    ensures Reading(key, SavedLine(key, v)) ==
      if Expands(v) then Err(NotLiteral) else if Unquotable(v) then Err(NotPreservable)
      else Ok(if v != "" || key == PROFILES then Some(v) else None)
  {
    var line, text := SavedLine(key, v), "'" + v + "'";
    SavedKey(key, v);
    assert line == key + "=" + text && line[|key| + 1..] == text;
    assert text[1..|text| - 1] == v;
    if Expands(v) {
      var i :| 0 <= i < |v| && (v[i] == '$' || v[i] == '`' || v[i] == '\r');
      assert text[i + 1] == v[i];
    } else {
      forall i | 0 <= i < |text| ensures text[i] != '$' && text[i] != '`' && text[i] != '\r' {
        if 0 < i < |text| - 1 { assert text[i] == v[i - 1]; }
      }
    }
  }

  /** Exactly the permitted values survive being saved and read again. */
  lemma PermittedIffReadBack(c: Config, key: string, v: string)
    requires ValidConfig(c) && key in c.managed
    ensures Classify(c, SavedLine(key, v)) == Managed(key, Ok(Some(v))) <==> Permitted(c, key, v)
  {
    SavedKey(key, v);
    SavedValue(key, v);
  }

  // ---------------------------------------------------------------- replacing and appending

  lemma AppendReads(c: Config, lines: seq<string>, st: Settings, key: string, v: string)
    requires ValidConfig(c) && Permitted(c, key, v) && Reads(c, lines, st) && key !in st.assignments
    ensures Reads(c, lines + [SavedLine(key, v)], Settings(st.entries[key := v], st.assignments[key := |lines|]))
  {
    SavedLineReads(c, key, v);
    hide Classify, SavedLine, Permitted, Reads;
    ReadLineReads(c, lines, st, SavedLine(key, v));
  }

  lemma DropBlankReads(c: Config, lines: seq<string>, st: Settings)
    requires Reads(c, lines, st) && lines != [] && lines[|lines| - 1] == ""
    ensures Reads(c, lines[..|lines| - 1], st)
  {
    var front := lines[..|lines| - 1];
    assert Classify(c, "") == Unrelated;
    hide Classify;
    assert front + [""] == lines;
    EntrySnoc(c, front, "");
    hide Entry;
    forall k | k in st.assignments ensures st.assignments[k] < |front| && HasKey(Classify(c, front[st.assignments[k]]), k) {
      assert HasKey(Classify(c, lines[st.assignments[k]]), k);
    }
  }

  lemma AddBlankReads(c: Config, lines: seq<string>, st: Settings)
    requires Reads(c, lines, st)
    ensures Reads(c, lines + [""], st)
  {
    assert Classify(c, "") == Unrelated;
    hide Classify, Reads;
    ReadLineReads(c, lines, st, "");
  }

  lemma ReplaceReads(c: Config, lines: seq<string>, st: Settings, key: string, v: string)
    requires ValidConfig(c) && Permitted(c, key, v) && Reads(c, lines, st) && key in st.assignments
    ensures Reads(c, lines[st.assignments[key] := SavedLine(key, v)], st.(entries := st.entries[key := v]))
  {
    SavedLineReads(c, key, v);
    OwnLine(c, lines, st, key);
    hide Classify, SavedLine, Permitted, ValidConfig, Entry;
    var at, line := st.assignments[key], SavedLine(key, v);
    ReplaceEntries(c, lines, at, key, line, v);
    ReplaceAccepted(c, lines, at, key, line, v);
    ReplaceEnters(c, lines, lines[at := line], st.entries, key, v);
    assert HasKey(Classify(c, line), key) && forall k :: HasKey(Classify(c, lines[at]), k) <==> k == key;
    ReplaceAssigns(c, lines, st.assignments, key, line);
    hide Enters, Accepted, Assigns;
  }

  lemma ReplaceEnters(c: Config, lines: seq<string>, after: seq<string>, entries: map<string, string>, key: string, v: string)
    requires Enters(c, lines, entries)
    requires forall k, w :: Entry(c, after, k, w) <==> if k == key then w == v else Entry(c, lines, k, w)
    ensures Enters(c, after, entries[key := v])
  {
    hide Entry;
  }

  lemma ReplaceAccepted(c: Config, lines: seq<string>, at: nat, key: string, line: string, v: string)
    requires at < |lines| && Accepted(c, lines) && Classify(c, lines[at]).Managed? && Classify(c, lines[at]).key == key
    requires Classify(c, line) == Managed(key, Ok(Some(v)))
    ensures Accepted(c, lines[at := line])
  {
    hide Classify;
    var after := lines[at := line];
    assert forall i :: 0 <= i < |after| ==> after[i] == if i == at then line else lines[i];
  }

  lemma ReplaceAssigns(c: Config, lines: seq<string>, assignments: map<string, nat>, key: string, line: string)
    requires Assigns(c, lines, assignments) && key in assignments
    requires HasKey(Classify(c, line), key) && forall k :: HasKey(Classify(c, lines[assignments[key]]), k) <==> k == key
    ensures Assigns(c, lines[assignments[key] := line], assignments)
  {
    hide Classify;
    var after := lines[assignments[key] := line];
    assert forall i :: 0 <= i < |after| ==> after[i] == if i == assignments[key] then line else lines[i];
  }

  lemma OwnLine(c: Config, lines: seq<string>, st: Settings, key: string)
    requires Reads(c, lines, st) && key in st.assignments && key !in c.unsupported
    ensures st.assignments[key] < |lines|
    ensures Classify(c, lines[st.assignments[key]]).Managed? && Classify(c, lines[st.assignments[key]]).key == key
  {
    assert HasKey(Classify(c, lines[st.assignments[key]]), key);
  }

  lemma ReplaceEntries(c: Config, lines: seq<string>, at: nat, key: string, line: string, v: string)
    requires at < |lines| && Accepted(c, lines) && Classify(c, lines[at]).Managed? && Classify(c, lines[at]).key == key
    requires Classify(c, line) == Managed(key, Ok(Some(v)))
    ensures forall k, w :: Entry(c, lines[at := line], k, w) <==> if k == key then w == v else Entry(c, lines, k, w)
  {
    hide Classify;
    var after := lines[at := line];
    forall k, w ensures Entry(c, after, k, w) <==> if k == key then w == v else Entry(c, lines, k, w) {
      if Entry(c, after, k, w) {
        var i :| 0 <= i < |after| && Classify(c, after[i]) == Managed(k, Ok(Some(w)));
        assert i != at ==> after[i] == lines[i];
      }
      if k == key && w == v { assert Classify(c, after[at]) == Managed(k, Ok(Some(w))); }
      if k != key && Entry(c, lines, k, w) {
        var i :| 0 <= i < |lines| && Classify(c, lines[i]) == Managed(k, Ok(Some(w)));
        assert after[i] == lines[i];
      }
    }
  }

  // ---------------------------------------------------------------- rendering

  ghost predicate OneLiners(lines: seq<string>) {
    forall i :: 0 <= i < |lines| ==> '\n' !in lines[i]
  }

  function Render(lines: seq<string>): string {
    var text := Join(lines, '\n');
    if text != "" && text[|text| - 1] == '\n' then text else text + "\n"
  }

  lemma {:induction false} JoinBlank(lines: seq<string>)
    requires lines != []
    ensures Join(lines + [""], '\n') == Join(lines, '\n') + "\n"
  {
    if |lines| == 1 {
      assert (lines + [""])[1..] == [""];
      assert Join([""], '\n') == "";
    } else {
      JoinBlank(lines[1..]);
      assert (lines + [""])[1..] == lines[1..] + [""];
      assert lines[0] + ['\n'] + (Join(lines[1..], '\n') + "\n") == lines[0] + ['\n'] + Join(lines[1..], '\n') + "\n";
    }
  }

  /** Splitting the rendered text gives the lines back, with at most one empty line after them. */
  lemma SplitOfRender(lines: seq<string>)
    requires lines != [] && OneLiners(lines)
    ensures Split(Render(lines), '\n') == lines || Split(Render(lines), '\n') == lines + [""]
  {
    SplitOfJoined(lines, '\n');
    JoinBlank(lines);
    var more := lines + [""];
    assert OneLiners(more);
    SplitOfJoined(more, '\n');
  }

  // ---------------------------------------------------------------- the file

  /** The first `kept` lines are in place but for those of saved keys; at most one empty line is gone; the rest was saved. */
  ghost predicate Preserved(original: seq<string>, kept: nat, lines: seq<string>, saved: set<string>, assignments: map<string, nat>) {
    && kept <= |lines| && kept <= |original| <= kept + 1
    && (kept < |original| ==> original[kept] == "" && kept < |lines|)
    && (forall i :: 0 <= i < kept ==> lines[i] == original[i] || Owned(i, saved, assignments))
    && (forall i :: kept <= i < |lines| ==> Owned(i, saved, assignments))
  }

  ghost predicate Owned(i: nat, saved: set<string>, assignments: map<string, nat>) {
    exists k :: k in saved && k in assignments && assignments[k] == i
  }

  ghost predicate Written(lines: seq<string>, saved: set<string>, assignments: map<string, nat>, entries: map<string, string>) {
    forall k :: k in saved ==>
      k in assignments && k in entries && assignments[k] < |lines| && lines[assignments[k]] == SavedLine(k, entries[k])
  }

  lemma OwnedStays(saved: set<string>, assignments: map<string, nat>, more: set<string>, later: map<string, nat>)
    requires saved <= more && forall k :: k in assignments ==> k in later && later[k] == assignments[k]
    ensures forall i: nat :: Owned(i, saved, assignments) ==> Owned(i, more, later)
  {
    forall i: nat | Owned(i, saved, assignments) ensures Owned(i, more, later) {
      var k :| k in saved && k in assignments && assignments[k] == i;
      assert k in more && k in later && later[k] == i;
    }
  }

  /** As above, before the line that takes the place of the empty one is appended. */
  ghost predicate Extensible(original: seq<string>, kept: nat, lines: seq<string>, saved: set<string>, assignments: map<string, nat>) {
    && kept <= |lines| && kept <= |original| <= kept + 1
    && (kept < |original| ==> original[kept] == "")
    && (forall i :: 0 <= i < kept ==> lines[i] == original[i] || Owned(i, saved, assignments))
    && (forall i :: kept <= i < |lines| ==> Owned(i, saved, assignments))
  }

  lemma ReplacePreserves(original: seq<string>, kept: nat, lines: seq<string>, saved: set<string>, assignments: map<string, nat>,
                         entries: map<string, string>, key: string, v: string)
    requires Preserved(original, kept, lines, saved, assignments) && Written(lines, saved, assignments, entries)
    requires key in assignments && assignments[key] < |lines|
    requires forall k :: k in assignments && k != key ==> assignments[k] != assignments[key]
    ensures Preserved(original, kept, lines[assignments[key] := SavedLine(key, v)], saved + {key}, assignments)
    ensures Written(lines[assignments[key] := SavedLine(key, v)], saved + {key}, assignments, entries[key := v])
  {
    hide SavedLine, Owned;
    OwnedStays(saved, assignments, saved + {key}, assignments);
    NowOwned(assignments[key], key, saved + {key}, assignments);
    var after := lines[assignments[key] := SavedLine(key, v)];
    assert forall i :: 0 <= i < |after| ==> after[i] == if i == assignments[key] then SavedLine(key, v) else lines[i];
  }

  lemma AppendPreserves(original: seq<string>, kept: nat, lines: seq<string>, saved: set<string>, assignments: map<string, nat>,
                        entries: map<string, string>, key: string, v: string)
    requires Extensible(original, kept, lines, saved, assignments) && Written(lines, saved, assignments, entries)
    requires key !in assignments
    ensures Preserved(original, kept, lines + [SavedLine(key, v)], saved + {key}, assignments[key := |lines|])
    ensures Written(lines + [SavedLine(key, v)], saved + {key}, assignments[key := |lines|], entries[key := v])
  {
    hide SavedLine, Owned;
    var later := assignments[key := |lines|];
    OwnedStays(saved, assignments, saved + {key}, later);
    NowOwned(|lines|, key, saved + {key}, later);
    var after := lines + [SavedLine(key, v)];
    assert forall i :: 0 <= i < |after| ==> after[i] == if i == |lines| then SavedLine(key, v) else lines[i];
  }

  class EnvFile {
    const config: Config
    var lines: seq<string>
    var entries: map<string, string>
    var assignments: map<string, nat>
    ghost var original: seq<string>  // the lines as read
    ghost var kept: nat              // how many of them are still in place
    ghost var saved: set<string>     // the keys saved since

    constructor (config: Config)
      ensures this.config == config
    {
      this.config := config;
    }

    ghost function Current(): Settings
      reads this
    {
      Settings(entries, assignments)
    }

    ghost predicate Valid()
      reads this
    {
      && ValidConfig(config) && lines != [] && OneLiners(lines) && Reads(config, lines, Current())
      && Preserved(original, kept, lines, saved, assignments) && Written(lines, saved, assignments, entries)
    }

    /** Lines are read up to the first one that is refused. */
    method Load(source: string) returns (error: Option<Refusal>)
      requires ValidConfig(config)
      modifies this
      ensures error == (var r := Parse(config, Split(source, '\n')); if r.Ok? then None else Some(r.error))
      ensures error.None? ==> Valid() && Parse(config, lines) == Ok(Current())
      ensures error.None? ==> lines == original == Split(source, '\n') && saved == {} && kept == |original|
    {
      hide Classify, ValidConfig;
      lines, entries, assignments := Split(source, '\n'), map[], map[];
      original, kept, saved := lines, |lines|, {};
      for index := 0 to |lines|
        invariant lines == original == Split(source, '\n') && saved == {} && kept == |original|
        invariant Parse(config, lines[..index]) == Ok(Current())
      {
        NextLine(index);
        match Classify(config, lines[index])
        case Unrelated =>
        case Effective => return Some(EffectiveImagePersisted);
        case Unsupported(key) => if key !in assignments { assignments := assignments[key := index]; }
        case Managed(key, reading) =>
          if key in assignments { return Some(SetTwice); }
          assignments := assignments[key := index];
          if reading.Err? { return Some(reading.error); }
          if reading.value.Some? { entries := entries[key := reading.value.value]; }
      }
      assert lines[..|lines|] == lines;
      ParseReads(config, lines);
      JoinOfSplit(source, '\n');
      error := None;
    }

    /** What one more line does to the settings, and that a refusal is final. */
    lemma NextLine(index: nat)
      requires index < |lines| && Parse(config, lines[..index]) == Ok(Current())
      ensures Parse(config, lines[..index + 1]) == ReadLine(config, Current(), index, lines[index])
      ensures ReadLine(config, Current(), index, lines[index]).Err? ==> Parse(config, lines) == ReadLine(config, Current(), index, lines[index])
    {
      hide ReadLine;
      assert lines[..index + 1][..index] == lines[..index];
      if ReadLine(config, Current(), index, lines[index]).Err? { RefusalStays(config, lines, index + 1); }
    }

    /** Replace the key's line, or append one in place of a trailing empty line. */
    method Save(key: string, v: string)
      requires Valid() && Permitted(config, key, v)
      modifies this
      ensures Valid() && original == old(original)
      ensures entries == old(entries)[key := v] && saved == old(saved) + {key}
      ensures key in old(assignments) ==> assignments == old(assignments) && lines == old(lines)[assignments[key] := SavedLine(key, v)]
      ensures key !in old(assignments) ==>
        && assignments == old(assignments)[key := |lines| - 1]
        && lines == (if old(lines)[|old(lines)| - 1] == "" then old(lines)[..|old(lines)| - 1] else old(lines)) + [SavedLine(key, v)]
    {
      hide Classify, Reads, Permitted, SavedLine, ValidConfig;
      SavedLineReads(config, key, v);
      if key in assignments {
        Replace(key, v);
      } else {
        if lines[|lines| - 1] == "" { DropBlank(); }
        Append(key, v);
      }
    }

    method Replace(key: string, v: string)
      requires Valid() && Permitted(config, key, v) && key in assignments && SavedLine(key, v) != "" && '\n' !in SavedLine(key, v)
      modifies `lines, `entries, `saved
      ensures Valid() && entries == old(entries)[key := v] && saved == old(saved) + {key}
      ensures assignments[key] < |old(lines)| && lines == old(lines)[assignments[key] := SavedLine(key, v)]
    {
      hide Classify, Reads, SavedLine, ValidConfig, Preserved, Written, Unquotable, Expands;
      ReplaceReads(config, lines, Current(), key, v);
      OwnLine(config, lines, Current(), key);
      OwnersDiffer(key);
      ReplacePreserves(original, kept, lines, saved, assignments, entries, key, v);
      entries := entries[key := v];
      lines := lines[assignments[key] := SavedLine(key, v)];
      saved := saved + {key};
    }

    /** Two keys never share a line. */
    lemma OwnersDiffer(key: string)
      requires Reads(config, lines, Current()) && key in assignments
      ensures forall k :: k in assignments && k != key ==> assignments[k] != assignments[key]
    {
      hide Classify, Accepted, Enters;
      forall k | k in assignments && k != key ensures assignments[k] != assignments[key] {
        assert HasKey(Classify(config, lines[assignments[k]]), k) && HasKey(Classify(config, lines[assignments[key]]), key);
      }
    }

    /** Only the file's own trailing empty line is ever dropped. */
    method DropBlank()
      requires Valid() && lines[|lines| - 1] == ""
      modifies `lines, `kept
      ensures ValidConfig(config) && OneLiners(lines) && Reads(config, lines, Current())
      ensures lines == old(lines)[..|old(lines)| - 1] && kept == |lines| && |original| == kept + 1 && original[kept] == ""
      ensures Extensible(original, kept, lines, saved, assignments) && Written(lines, saved, assignments, entries)
    {
      BlankIsOwn();
      DropBlankReads(config, lines, Current());
      hide Classify, Reads, SavedLine, ValidConfig, Owned;
      lines, kept := lines[..|lines| - 1], |lines| - 1;
    }

    lemma BlankIsOwn()
      requires Valid() && lines[|lines| - 1] == ""
      ensures kept == |lines| == |original| && original[kept - 1] == ""
      ensures forall k :: k in saved ==> assignments[k] < |lines| - 1
    {
      hide Classify, Reads;
      var last := |lines| - 1;
      forall k | k in saved ensures assignments[k] != last { assert SavedLine(k, entries[k]) != ""; }
      assert !Owned(last, saved, assignments);
    }

    method Append(key: string, v: string)
      requires ValidConfig(config) && OneLiners(lines) && Reads(config, lines, Current()) && Permitted(config, key, v)
      requires key !in assignments && SavedLine(key, v) != "" && '\n' !in SavedLine(key, v)
      requires Extensible(original, kept, lines, saved, assignments) && Written(lines, saved, assignments, entries)
      modifies `lines, `entries, `assignments, `saved
      ensures Valid() && entries == old(entries)[key := v] && saved == old(saved) + {key}
      ensures assignments == old(assignments)[key := |old(lines)|] && lines == old(lines) + [SavedLine(key, v)]
    {
      hide Classify, Reads, Permitted, SavedLine, ValidConfig, Preserved, Written, Extensible;
      AppendReads(config, lines, Current(), key, v);
      AppendPreserves(original, kept, lines, saved, assignments, entries, key, v);
      entries := entries[key := v];
      assignments := assignments[key := |lines|];
      lines := lines + [SavedLine(key, v)];
      saved := saved + {key};
    }

    /** A key that has no value is saved with a nonempty one; otherwise nothing changes. */
    method Default(key: string, v: string)
      requires Valid() && (v == "" || key in entries || Permitted(config, key, v))
      modifies this
      ensures Valid() && original == old(original)
      ensures old(key in entries) || v == "" ==> unchanged(this)
      ensures old(key !in entries) && v != "" ==> entries == old(entries)[key := v] && saved == old(saved) + {key}
      ensures old(key !in entries) && v != "" && key in old(assignments) ==>
        assignments == old(assignments) && lines == old(lines)[assignments[key] := SavedLine(key, v)]
      ensures old(key !in entries) && v != "" && key !in old(assignments) ==>
        && assignments == old(assignments)[key := |lines| - 1]
        && lines == (if old(lines)[|old(lines)| - 1] == "" then old(lines)[..|old(lines)| - 1] else old(lines)) + [SavedLine(key, v)]
    {
      hide Classify, Reads, Permitted, SavedLine, ValidConfig, Extensible, Written, Preserved;
      if key !in entries && v != "" { Save(key, v); }
    }

    /** After any number of saves the rendered text is accepted, and reads as what was saved. */
    lemma RenderedReads()
      requires Valid()
      ensures Parse(config, Split(Render(lines), '\n')) == Ok(Current())
    {
      hide Classify, Reads, ValidConfig, Render;
      SplitOfRender(lines);
      AddBlankReads(config, lines, Current());
      ReadsParses(config, Split(Render(lines), '\n'), Current());
    }

    /** Every line that no saved key owns is where it was, but for one trailing empty line; saved keys have their line. */
    lemma UnownedSurvive(i: nat)
      requires Valid() && i < |original|
      ensures |original| - 1 <= kept
      ensures i == kept ==> original[i] == ""
      ensures i < kept && !Owned(i, saved, assignments) ==> i < |lines| && lines[i] == original[i]
      ensures forall k :: k in saved ==> lines[assignments[k]] == SavedLine(k, entries[k])
      ensures forall j :: kept <= j < |lines| ==> Owned(j, saved, assignments)
    {
      hide Classify, Reads;
    }
  }

  lemma NowOwned(i: nat, key: string, saved: set<string>, assignments: map<string, nat>)
    requires key in saved && key in assignments && assignments[key] == i
    ensures Owned(i, saved, assignments)
  {
  }

  lemma {:induction false} RefusalStays(c: Config, lines: seq<string>, n: nat)
    requires n <= |lines| && Parse(c, lines[..n]).Err?
    ensures Parse(c, lines) == Parse(c, lines[..n])
    decreases |lines|
  {
    if n == |lines| {
      assert lines[..n] == lines;
    } else {
      assert lines[..|lines| - 1][..n] == lines[..n];
      RefusalStays(c, lines[..|lines| - 1], n);
    }
  }
}

/** What the lines of the env file mean, in terms of the characters they consist of. */
module EnvLines {
  import opened Wrappers
  import opened Splitting
  import opened EnvFile

  // ---------------------------------------------------------------- characters and words

  const BLANKS: set<int> := {9, 10, 11, 12, 13, 28, 29, 30, 31, 32, 133, 160, 5760, 8232, 8233, 8239, 8287, 12288}

  /** The characters that Python calls white space, by their code points. */
  lemma SpaceIsBlank(c: char)
    ensures Space(c) <==> c as int in BLANKS || 8192 <= c as int <= 8202
  {
  }

  ghost predicate AllSpace(s: string) {
    forall i :: 0 <= i < |s| ==> s[i] as int in BLANKS || 8192 <= s[i] as int <= 8202
  }

  /** A letter, by its code point, or an underscore. */
  predicate Letter(c: char) {
    65 <= c as int <= 90 || 97 <= c as int <= 122 || c as int == 95
  }

  predicate Digit(c: char) {
    48 <= c as int <= 57
  }

  /** Letters, digits and underscores, and no digit first. */
  ghost predicate Name(s: string) {
    s != "" && Letter(s[0]) && forall i :: 0 <= i < |s| ==> Letter(s[i]) || Digit(s[i])
  }

  /** No name goes on here. */
  ghost predicate Ends(rest: string) {
    rest != "" ==> !Letter(rest[0]) && !Digit(rest[0])
  }

  lemma {:induction false} SkipSpaceSplits(s: string) returns (lead: string)
    ensures s == lead + SkipSpace(s) && AllSpace(lead)
    ensures SkipSpace(s) != "" ==> !Space(SkipSpace(s)[0])
  {
    if s != "" && Space(s[0]) {
      SpaceIsBlank(s[0]);
      var more := SkipSpaceSplits(s[1..]);
      lead := [s[0]] + more;
    } else {
      lead := "";
    }
  }

  lemma {:induction false} SkipSpaceOf(lead: string, s: string)
    requires AllSpace(lead) && (s != "" ==> !Space(s[0]))
    ensures SkipSpace(lead + s) == s
  {
    if lead == "" {
      assert lead + s == s;
    } else {
      SpaceIsBlank(lead[0]);
      assert (lead + s)[1..] == lead[1..] + s;
      SkipSpaceOf(lead[1..], s);
    }
  }

  lemma {:induction false} NameRunSplits(s: string) returns (rest: string)
    ensures s == NameRun(s) + rest && Ends(rest)
    ensures forall i :: 0 <= i < |NameRun(s)| ==> Letter(NameRun(s)[i]) || Digit(NameRun(s)[i])
  {
    if s != "" && NameChar(s[0]) {
      rest := NameRunSplits(s[1..]);
    } else {
      rest := s;
    }
  }

  /** The name that a text starts with, as far as it goes. */
  lemma NameAtIff(s: string, k: string)
    ensures NameAt(s) == Some(k) <==> Name(k) && exists rest :: s == k + rest && Ends(rest)
  {
    if NameAt(s) == Some(k) {
      var rest := NameRunSplits(s);
      assert s == k + rest;
    }
    if Name(k) && exists rest :: s == k + rest && Ends(rest) {
      var rest :| s == k + rest && Ends(rest);
      assert forall i :: 0 <= i < |k| ==> NameChar(k[i]);
      NameRunOf(k, rest);
      assert s[0] == k[0];
    }
  }

  // ---------------------------------------------------------------- the key of a line

  /** white space, the name, and something that does not go on with it */
  ghost predicate Plain(line: string, k: string) {
    Name(k) && exists lead, rest :: line == lead + (k + rest) && AllSpace(lead) && Ends(rest)
  }

  /** white space, "export", more white space, the name, and something that does not go on with it */
  ghost predicate Exported(line: string, k: string) {
    Name(k) && exists lead, gap, rest :: line == lead + ("export" + (gap + (k + rest))) && AllSpace(lead) && gap != "" && AllSpace(gap) && Ends(rest)
  }

  /** The key is what follows "export" where a name does, and otherwise the name that the line starts with. */
  lemma KeyIff(line: string, k: string)
    ensures KeyOf(line) == Some(k) <==> Exported(line, k) || (Plain(line, k) && !exists q :: Exported(line, q))
  {
    hide KeyOf, Exported, Plain, Name;
    forall q ensures ExportedKey(line) == Some(q) <==> Exported(line, q) { ExportedIff(line, q); }
    PlainIff(line, k);
    KeyIsEither(line);
    if ExportedKey(line).Some? { assert Exported(line, ExportedKey(line).value); }
  }

  function ExportedKey(line: string): Option<string> {
    var s := SkipSpace(line);
    if |s| > 6 && s[..6] == "export" && Space(s[6]) then NameAt(SkipSpace(s[6..])) else None
  }

  lemma KeyIsEither(line: string)
    ensures KeyOf(line) == if ExportedKey(line).Some? then ExportedKey(line) else NameAt(SkipSpace(line))
  {
  }

  lemma PlainIff(line: string, k: string)
    ensures NameAt(SkipSpace(line)) == Some(k) <==> Plain(line, k)
  {
    hide NameAt, Ends, AllSpace, SkipSpace;
    NameAtIff(SkipSpace(line), k);
    var lead := SkipSpaceSplits(line);
    if NameAt(SkipSpace(line)) == Some(k) {
      var rest :| SkipSpace(line) == k + rest && Ends(rest);
      assert line == lead + (k + rest);
    }
    if Plain(line, k) {
      var lead, rest :| line == lead + (k + rest) && AllSpace(lead) && Ends(rest);
      SpaceIsBlank((k + rest)[0]);
      SkipSpaceOf(lead, k + rest);
    }
  }

  lemma ExportedIff(line: string, k: string)
    ensures ExportedKey(line) == Some(k) <==> Exported(line, k)
  {
    hide NameAt, Ends, SkipSpace;
    var s := SkipSpace(line);
    if ExportedKey(line) == Some(k) {
      var lead := SkipSpaceSplits(line);
      var gap := SkipSpaceSplits(s[6..]);
      NameAtIff(SkipSpace(s[6..]), k);
      var rest :| SkipSpace(s[6..]) == k + rest && Ends(rest);
      assert s == "export" + (gap + (k + rest));
      assert line == lead + ("export" + (gap + (k + rest)));
      SpaceIsBlank(k[0]);
      assert s[6] == (gap + (k + rest))[0];
    }
    if Exported(line, k) {
      var lead, gap, rest :| line == lead + ("export" + (gap + (k + rest))) && AllSpace(lead) && gap != "" && AllSpace(gap) && Ends(rest);
      var t := "export" + (gap + (k + rest));
      SpaceIsBlank(t[0]);
      SkipSpaceOf(lead, t);
      SpaceIsBlank(gap[0]);
      assert t[..6] == "export" && t[6..] == gap + (k + rest) && t[6] == gap[0];
      SpaceIsBlank((k + rest)[0]);
      SkipSpaceOf(gap, k + rest);
      NameAtIff(k + rest, k);
    }
  }

  // ---------------------------------------------------------------- the value of a line

  /** name=text, with nothing before the name */
  ghost predicate Assignment(line: string, text: string) {
    exists k :: Name(k) && line == k + "=" + text
  }

  lemma AssignmentIff(line: string, text: string)
    ensures AssignedValue(line) == Some(text) <==> Assignment(line, text)
  {
    hide NameAt;
    if AssignedValue(line) == Some(text) {
      var k := NameAt(line).value;
      NameAtIff(line, k);
      assert line == k + "=" + text;
    }
    if Assignment(line, text) {
      var k :| Name(k) && line == k + "=" + text;
      assert line == k + ("=" + text);
      NameAtIff(line, k);
      assert line[|k|] == '=' && line[|k| + 1..] == text;
    }
  }

  /** The text between matching quotes. */
  ghost predicate InQuotes(text: string, v: string) {
    text == "'" + v + "'" || text == "\"" + v + "\""
  }

  ghost predicate Bare(text: string) {
    '#' !in text && forall i :: 0 <= i < |text| ==> text[i] as int !in BLANKS && !(8192 <= text[i] as int <= 8202)
  }

  ghost predicate Literal(text: string) {
    '$' !in text && '`' !in text && '\r' !in text
  }

  ghost predicate Preservable(v: string) {
    '\'' !in v && '"' !in v && '\\' !in v && '\n' !in v
  }

  /** The text stands for the value, in quotes or bare. */
  ghost predicate StandsFor(text: string, v: string) {
    InQuotes(text, v) || (text == v && Bare(v) && !exists w :: InQuotes(v, w))
  }

  lemma QuotedIff(text: string)
    ensures Quoted(text) ==> InQuotes(text, text[1..|text| - 1])
    ensures forall v :: InQuotes(text, v) ==> Quoted(text) && v == text[1..|text| - 1]
    ensures NeedsQuoting(text) <==> !Bare(text)
    ensures Expands(text) <==> !Literal(text)
    ensures Unquotable(text) <==> !Preservable(text)
  {
    if Quoted(text) { assert text == [text[0]] + text[1..|text| - 1] + [text[0]]; }
    if NeedsQuoting(text) {
      var i :| 0 <= i < |text| && (Space(text[i]) || text[i] == '#');
      SpaceIsBlank(text[i]);
    }
    if !Bare(text) {
      if '#' !in text {
        var i :| 0 <= i < |text| && (text[i] as int in BLANKS || 8192 <= text[i] as int <= 8202);
        SpaceIsBlank(text[i]);
      }
    }
  }

  /**
   * A value is read from a literal assignment to a text that stands for it and that can be written back; an empty one
   * only for COMPOSE_PROFILES. Each refusal names the first of these that fails.
   */
  lemma ReadingIff(key: string, line: string)
    ensures var r := Reading(key, line);
      && (r == Err(NotLiteral) <==> !exists text :: Assignment(line, text) && Literal(text))
      && (forall text :: Assignment(line, text) && Literal(text) ==>
            && (r == Err(NeedsQuotes) <==> !exists v :: StandsFor(text, v))
            && (forall v :: StandsFor(text, v) ==>
                  r == if !Preservable(v) then Err(NotPreservable) else Ok(if v == "" && key != PROFILES then None else Some(v))))
  {
    hide AssignedValue, Assignment, Quoted, NeedsQuoting, Expands, Unquotable, Bare, Literal, Preservable, InQuotes;
    forall text ensures AssignedValue(line) == Some(text) <==> Assignment(line, text) { AssignmentIff(line, text); }
    if AssignedValue(line).Some? { ReadingText(key, line, AssignedValue(line).value); }
  }

  lemma ReadingText(key: string, line: string, text: string)
    requires AssignedValue(line) == Some(text)
    ensures var r := Reading(key, line);
      && (r == Err(NotLiteral) <==> !Literal(text))
      && (Literal(text) ==>
            && (r == Err(NeedsQuotes) <==> !exists v :: StandsFor(text, v))
            && (forall v :: StandsFor(text, v) ==>
                  r == if !Preservable(v) then Err(NotPreservable) else Ok(if v == "" && key != PROFILES then None else Some(v))))
  {
    hide AssignedValue, NeedsQuoting, Expands, Unquotable, Bare, Literal, Preservable, InQuotes;
    QuotedIff(text);
    var v := if Quoted(text) then text[1..|text| - 1] else text;
    QuotedIff(v);
    if Quoted(text) || Bare(text) { assert StandsFor(text, v); }
  }

  // ---------------------------------------------------------------- the kinds of lines

  /** White space only, or a comment. */
  ghost predicate Silent(line: string) {
    AllSpace(line) || exists lead, rest :: line == lead + ("#" + rest) && AllSpace(lead)
  }

  ghost predicate KeyIs(line: string, k: string) {
    Exported(line, k) || (Plain(line, k) && !exists q :: Exported(line, q))
  }

  lemma SilentIff(line: string)
    ensures Silent(line) <==> (SkipSpace(line) == "" || SkipSpace(line)[0] == '#')
  {
    var s := SkipSpace(line);
    var lead := SkipSpaceSplits(line);
    if s == "" { assert line == lead; }
    if s != "" && s[0] == '#' { assert line == lead + ("#" + s[1..]); }
    if AllSpace(line) {
      SkipSpaceOf(line, "");
      assert line + "" == line;
    } else if Silent(line) {
      var lead, rest :| line == lead + ("#" + rest) && AllSpace(lead);
      SpaceIsBlank('#');
      SkipSpaceOf(lead, "#" + rest);
    }
  }

  /**
   * A silent line says nothing; the key of any other decides: the child setting is refused, a managed one is read unless
   * nothing reads it any more, and every other line is left alone.
   */
  lemma ClassifyIff(c: Config, line: string)
    ensures var l := Classify(c, line);
      && (l.Effective? <==> !Silent(line) && KeyIs(line, "BP_WORKERD_EFFECTIVE_IMAGE"))
      && (forall k :: l == Unsupported(k) <==> !Silent(line) && KeyIs(line, k) && Assigned(c, k) && k in c.unsupported)
      && (forall k :: l.Managed? && l.key == k <==> !Silent(line) && KeyIs(line, k) && Assigned(c, k) && k !in c.unsupported)
      && (l.Managed? ==> l.reading == Reading(l.key, line))
  {
    hide KeyOf, KeyIs, Silent, Reading, SkipSpace;
    SilentIff(line);
    forall k ensures KeyOf(line) == Some(k) <==> KeyIs(line, k) { KeyIsKey(line, k); }
  }

  lemma KeyIsKey(line: string, k: string)
    ensures KeyOf(line) == Some(k) <==> KeyIs(line, k)
  {
    hide KeyOf, Exported, Plain;
    KeyIff(line, k);
  }

  predicate Assigned(c: Config, k: string) {
    k in c.managed && k != "BP_WORKERD_EFFECTIVE_IMAGE"
  }

  // ---------------------------------------------------------------- the text of the file

  /** A file that nothing was saved to is rendered as it was, with a line feed at its end. */
  lemma RenderKeepsText(source: string)
    ensures Render(Split(source, '\n')) == if source != "" && source[|source| - 1] == '\n' then source else source + "\n"
  {
    JoinOfSplit(source, '\n');
  }
}

/**
JSON trees as JavaScript holds them, JSON text in UTF-16 code units as JSON.stringify prints it, and a parser (RFC 8259,
section 2) that is written independently of the printer. It is proved to read every printed tree back, whatever follows
in the text; all other theorems about canonical texts rest on that.
*/
module Json {
  import opened Wrappers

  type Unit = u: nat | u < 0x1_0000
  type Text = seq<Unit>

  const QUOTE: Unit := 0x22
  const COMMA: Unit := 0x2c
  const COLON: Unit := 0x3a
  const OPEN_BRACKET: Unit := 0x5b
  const BACKSLASH: Unit := 0x5c
  const CLOSE_BRACKET: Unit := 0x5d
  const OPEN_BRACE: Unit := 0x7b
  const CLOSE_BRACE: Unit := 0x7d

  const NULL_TEXT: Text := [0x6e, 0x75, 0x6c, 0x6c]
  const TRUE_TEXT: Text := [0x74, 0x72, 0x75, 0x65]
  const FALSE_TEXT: Text := [0x66, 0x61, 0x6c, 0x73, 0x65]
  const ZERO_TEXT: Text := [0x30]

  datatype Pair<+T> = Pair(key: Text, value: T)

  /** A number is given by the text it prints as, except for the values that do not print as themselves. */
  datatype Number = Finite(text: Text) | NegativeZero | NonFinite

  datatype Value =
    | Null
    | Bool(value: bool)
    | Num(number: Number)
    | Str(text: Text)
    | Array(items: seq<Value>)
    | Object(members: seq<Pair<Value>>)
    | Undefined

  predicate IsDigit(u: Unit) {
    0x30 <= u <= 0x39
  }

  /** A digit, a sign, the point or the exponent mark. */
  predicate InNumber(u: Unit) {
    IsDigit(u) || u == 0x2b || u == 0x2d || u == 0x2e || u == 0x45 || u == 0x65
  }

  predicate NumberText(t: Text) {
    t != [] && (IsDigit(t[0]) || t[0] == 0x2d) && forall i :: 0 <= i < |t| ==> InNumber(t[i])
  }

  // ---------------------------------------------------------------- strings

  predicate HighSurrogate(u: Unit) { 0xd800 <= u < 0xdc00 }

  predicate LowSurrogate(u: Unit) { 0xdc00 <= u < 0xe000 }

  predicate StartsWithPair(t: Text) {
    |t| >= 2 && HighSurrogate(t[0]) && LowSurrogate(t[1])
  }

  function HexDigit(n: nat): Unit
    requires n < 16
  {
    if n < 10 then 0x30 + n else 0x61 + n - 10
  }

  function HexValue(u: Unit): Option<nat> {
    if IsDigit(u) then Some(u - 0x30) else if 0x61 <= u <= 0x66 then Some(u - 0x61 + 10) else None
  }

  function Hex4(u: Unit): Text {
    [HexDigit(u / 0x1000), HexDigit(u / 0x100 % 16), HexDigit(u / 16 % 16), HexDigit(u % 16)]
  }

  /** The short escapes: quote, backslash, backspace, form feed, line feed, carriage return, tab. */
  function ShortEscape(u: Unit): Option<Unit> {
    if u == QUOTE || u == BACKSLASH then Some(u)
    else if u == 0x08 then Some(0x62) else if u == 0x0c then Some(0x66) else if u == 0x0a then Some(0x6e)
    else if u == 0x0d then Some(0x72) else if u == 0x09 then Some(0x74)
    else None
  }

  function Escaped(u: Unit): Text {
    if ShortEscape(u).Some? then [BACKSLASH, ShortEscape(u).value]
    else if u < 0x20 || HighSurrogate(u) || LowSurrogate(u) then [BACKSLASH, 0x75] + Hex4(u)
    else [u]
  }

  /** The inside of a string literal; a surrogate pair stands for itself, a lone surrogate is escaped. */
  function Quoted(t: Text): Text {
    if t == [] then []
    else if StartsWithPair(t) then t[..2] + Quoted(t[2..])
    else Escaped(t[0]) + Quoted(t[1..])
  }

  function Quote(t: Text): Text {
    [QUOTE] + Quoted(t) + [QUOTE]
  }

  // ---------------------------------------------------------------- parsing

  datatype Parsed<+T> = Parsed(value: T, rest: Text)

  function Unescaped(u: Unit): Option<Unit> {
    if u == QUOTE || u == BACKSLASH || u == 0x2f then Some(u)
    else if u == 0x62 then Some(0x08) else if u == 0x66 then Some(0x0c) else if u == 0x6e then Some(0x0a)
    else if u == 0x72 then Some(0x0d) else if u == 0x74 then Some(0x09)
    else None
  }

  function ParseHex4(s: Text): Option<Unit>
    requires |s| >= 4
  {
    var a, b, c, d := HexValue(s[0]), HexValue(s[1]), HexValue(s[2]), HexValue(s[3]);
    if a.Some? && b.Some? && c.Some? && d.Some? && a.value < 16 && b.value < 16 && c.value < 16 && d.value < 16
    then Some(((a.value * 16 + b.value) * 16 + c.value) * 16 + d.value) else None
  }

  /** One character of a string literal. */
  function ParseUnit(s: Text): (r: Option<Parsed<Unit>>)
    requires s != []
    ensures r.Some? ==> |r.value.rest| < |s|
  {
    if s[0] != BACKSLASH then (if s[0] < 0x20 then None else Some(Parsed(s[0], s[1..])))
    else if |s| >= 6 && s[1] == 0x75 then
      var u := ParseHex4(s[2..]);
      if u.Some? then Some(Parsed(u.value, s[6..])) else None
    else if |s| >= 2 && Unescaped(s[1]).Some? then Some(Parsed(Unescaped(s[1]).value, s[2..]))
    else None
  }

  /** The inside of a string literal and its closing quote. */
  function ParseUnits(s: Text): (r: Option<Parsed<Text>>)
    ensures r.Some? ==> |r.value.rest| < |s|
    decreases |s|
  {
    if s == [] then None
    else if s[0] == QUOTE then Some(Parsed([], s[1..]))
    else
      var first := ParseUnit(s);
      if first.None? then None
      else
        var more := ParseUnits(first.value.rest);
        if more.None? then None else Some(Parsed([first.value.value] + more.value.value, more.value.rest))
  }

  function NumberRun(s: Text): Text {
    if s != [] && InNumber(s[0]) then [s[0]] + NumberRun(s[1..]) else []
  }

  function Literal(s: Text, word: Text, v: Value): (r: Option<Parsed<Value>>)
    requires word != []
    ensures r.Some? ==> |r.value.rest| < |s|
  {
    if word <= s then Some(Parsed(v, s[|word|..])) else None
  }

  function ParseNumber(s: Text): (r: Option<Parsed<Value>>)
    ensures r.Some? ==> |r.value.rest| < |s|
  {
    var run := NumberRun(s);
    if NumberText(run) && |run| <= |s| then Some(Parsed(Num(Finite(run)), s[|run|..])) else None
  }

  function Parse(s: Text): (r: Option<Parsed<Value>>)
    ensures r.Some? ==> |r.value.rest| < |s|
    decreases |s|, 0
  {
    if s == [] then None
    else if s[0] == NULL_TEXT[0] then Literal(s, NULL_TEXT, Null)
    else if s[0] == TRUE_TEXT[0] then Literal(s, TRUE_TEXT, Bool(true))
    else if s[0] == FALSE_TEXT[0] then Literal(s, FALSE_TEXT, Bool(false))
    else if s[0] == QUOTE then
      var t := ParseUnits(s[1..]);
      if t.Some? then Some(Parsed(Str(t.value.value), t.value.rest)) else None
    else if s[0] == OPEN_BRACKET then
      if |s| > 1 && s[1] == CLOSE_BRACKET then Some(Parsed(Array([]), s[2..]))
      else
        var items := ParseItems(s[1..]);
        if items.Some? then Some(Parsed(Array(items.value.value), items.value.rest)) else None
    else if s[0] == OPEN_BRACE then
      if |s| > 1 && s[1] == CLOSE_BRACE then Some(Parsed(Object([]), s[2..]))
      else
        var members := ParseMembers(s[1..]);
        if members.Some? then Some(Parsed(Object(members.value.value), members.value.rest)) else None
    else ParseNumber(s)
  }

  function ParseItems(s: Text): (r: Option<Parsed<seq<Value>>>)
    ensures r.Some? ==> |r.value.rest| < |s|
    decreases |s|, 1
  {
    var first := Parse(s);
    if first.None? || first.value.rest == [] then None
    else if first.value.rest[0] == CLOSE_BRACKET then Some(Parsed([first.value.value], first.value.rest[1..]))
    else if first.value.rest[0] != COMMA then None
    else
      var more := ParseItems(first.value.rest[1..]);
      if more.None? then None else Some(Parsed([first.value.value] + more.value.value, more.value.rest))
  }

  function ParseMember(s: Text): (r: Option<Parsed<Pair<Value>>>)
    ensures r.Some? ==> |r.value.rest| < |s|
    decreases |s|, 1
  {
    if s == [] || s[0] != QUOTE then None
    else
      var key := ParseUnits(s[1..]);
      if key.None? || key.value.rest == [] || key.value.rest[0] != COLON then None
      else
        var v := Parse(key.value.rest[1..]);
        if v.None? then None else Some(Parsed(Pair(key.value.value, v.value.value), v.value.rest))
  }

  function ParseMembers(s: Text): (r: Option<Parsed<seq<Pair<Value>>>>)
    ensures r.Some? ==> |r.value.rest| < |s|
    decreases |s|, 2
  {
    var first := ParseMember(s);
    if first.None? || first.value.rest == [] then None
    else if first.value.rest[0] == CLOSE_BRACE then Some(Parsed([first.value.value], first.value.rest[1..]))
    else if first.value.rest[0] != COMMA then None
    else
      var more := ParseMembers(first.value.rest[1..]);
      if more.None? then None else Some(Parsed([first.value.value] + more.value.value, more.value.rest))
  }

  // ---------------------------------------------------------------- printing

  /** A tree that JSON can express: no undefined value, and every number prints as itself. */
  predicate Plain(v: Value) {
    match v
    case Num(n) => n.Finite? && NumberText(n.text)
    case Array(items) => forall i :: 0 <= i < |items| ==> Plain(items[i])
    case Object(members) => forall i :: 0 <= i < |members| ==> Plain(members[i].value)
    case Undefined => false
    case _ => true
  }

  function Join(texts: seq<Text>): Text {
    if texts == [] then []
    else if |texts| == 1 then texts[0]
    else texts[0] + [COMMA] + Join(texts[1..])
  }

  /** The text of a tree, members in the order they are held. */
  function Print(v: Value): Text {
    match v
    case Null => NULL_TEXT
    case Bool(b) => if b then TRUE_TEXT else FALSE_TEXT
    case Num(n) => if n.Finite? then n.text else if n.NegativeZero? then ZERO_TEXT else NULL_TEXT
    case Str(t) => Quote(t)
    case Array(items) => [OPEN_BRACKET] + Join(PrintItems(items)) + [CLOSE_BRACKET]
    case Object(members) => [OPEN_BRACE] + Join(PrintMembers(members)) + [CLOSE_BRACE]
    case Undefined => []
  }

  function PrintItems(items: seq<Value>): (r: seq<Text>)
    ensures |r| == |items| && forall i :: 0 <= i < |items| ==> r[i] == Print(items[i])
  {
    if items == [] then [] else [Print(items[0])] + PrintItems(items[1..])
  }

  function PrintMember(key: Text, text: Text): Text {
    Quote(key) + [COLON] + text
  }

  function PrintMembers(members: seq<Pair<Value>>): (r: seq<Text>)
    ensures |r| == |members| && forall i :: 0 <= i < |members| ==> r[i] == PrintMember(members[i].key, Print(members[i].value))
  {
    if members == [] then [] else [PrintMember(members[0].key, Print(members[0].value))] + PrintMembers(members[1..])
  }

  // ---------------------------------------------------------------- the parser undoes printing

  lemma ParseHex4OfHex4(u: Unit, rest: Text)
    ensures ParseHex4(Hex4(u) + rest) == Some(u)
  {
    assert u == ((u / 0x1000 * 16 + u / 0x100 % 16) * 16 + u / 16 % 16) * 16 + u % 16;
  }

  lemma ParseUnitOfEscaped(u: Unit, rest: Text)
    ensures Escaped(u)[0] != QUOTE && ParseUnit(Escaped(u) + rest) == Some(Parsed(u, rest))
  {
    var s := Escaped(u) + rest;
    if ShortEscape(u).Some? {
      assert s[2..] == rest;
    } else if u < 0x20 || HighSurrogate(u) || LowSurrogate(u) {
      assert s[2..] == Hex4(u) + rest && s[6..] == rest;
      ParseHex4OfHex4(u, rest);
    } else {
      assert s[1..] == rest;
    }
  }

  lemma ParseUnitsStep(s: Text, u: Unit, after: Text, t: Text, rest: Text)
    requires s != [] && s[0] != QUOTE && ParseUnit(s) == Some(Parsed(u, after)) && ParseUnits(after) == Some(Parsed(t, rest))
    ensures ParseUnits(s) == Some(Parsed([u] + t, rest))
  {
    hide ParseUnit;
  }

  lemma ParseRawUnit(u: Unit, after: Text, t: Text, rest: Text)
    requires u != QUOTE && u != BACKSLASH && u >= 0x20 && ParseUnits(after) == Some(Parsed(t, rest))
    ensures ParseUnits([u] + after) == Some(Parsed([u] + t, rest))
  {
    hide ParseUnits;
    var s := [u] + after;
    assert s[1..] == after;
    ParseUnitsStep(s, u, after, t, rest);
  }

  lemma QuotedPair(t: Text, rest: Text)
    requires StartsWithPair(t)
    ensures Quoted(t) + rest == [t[0]] + ([t[1]] + (Quoted(t[2..]) + rest)) && t == [t[0]] + ([t[1]] + t[2..])
  {
    var more := Quoted(t[2..]);
    assert Quoted(t) == t[..2] + more;
    hide Quoted;
    assert t[..2] == [t[0], t[1]];
    TwoFirst(t[0], t[1], more, rest);
    assert t == t[..2] + t[2..];
  }

  lemma TwoFirst(a: Unit, b: Unit, more: Text, rest: Text)
    ensures [a, b] + more + rest == [a] + ([b] + (more + rest))
  {
  }

  lemma QuotedSingle(t: Text, rest: Text)
    requires t != [] && !StartsWithPair(t)
    ensures Quoted(t) + rest == Escaped(t[0]) + (Quoted(t[1..]) + rest) && t == [t[0]] + t[1..]
  {
    hide Escaped;
    Associative(Escaped(t[0]), Quoted(t[1..]), rest);
    HeadAndTail(t);
  }

  lemma Associative(a: Text, b: Text, c: Text)
    ensures a + b + c == a + (b + c)
  {
  }

  lemma HeadAndTail(t: Text)
    requires t != []
    ensures t == [t[0]] + t[1..]
  {
  }

  lemma {:induction false} ParseUnitsOfQuoted(t: Text, rest: Text)
    ensures ParseUnits(Quoted(t) + ([QUOTE] + rest)) == Some(Parsed(t, rest))
    decreases |t|
  {
    var end := [QUOTE] + rest;
    if t == [] {
      assert Quoted(t) + end == end && end[1..] == rest;
    } else if StartsWithPair(t) {
      hide ParseUnits, ParseUnit, Quoted;
      ParseUnitsOfQuoted(t[2..], rest);
      QuotedPair(t, end);
      ParseRawUnit(t[1], Quoted(t[2..]) + end, t[2..], rest);
      ParseRawUnit(t[0], [t[1]] + (Quoted(t[2..]) + end), [t[1]] + t[2..], rest);
    } else {
      hide ParseUnits, ParseUnit, Quoted, Escaped;
      ParseUnitsOfQuoted(t[1..], rest);
      QuotedSingle(t, end);
      ParseUnitOfEscaped(t[0], Quoted(t[1..]) + end);
      EscapedStarts(t[0], Quoted(t[1..]) + end);
      ParseUnitsStep(Escaped(t[0]) + (Quoted(t[1..]) + end), t[0], Quoted(t[1..]) + end, t[1..], rest);
    }
  }

  lemma EscapedStarts(u: Unit, rest: Text)
    ensures Escaped(u) + rest != [] && (Escaped(u) + rest)[0] != QUOTE
  {
  }

  /** What may follow a value: nothing, or anything that a number does not continue with. */
  predicate Delimited(rest: Text) {
    rest != [] ==> !InNumber(rest[0])
  }

  lemma {:induction false} NumberRunOf(t: Text, rest: Text)
    requires Delimited(rest) && forall i :: 0 <= i < |t| ==> InNumber(t[i])
    ensures NumberRun(t + rest) == t
  {
    if t == [] {
      assert t + rest == rest;
    } else {
      NumberRunOf(t[1..], rest);
      assert (t + rest)[1..] == t[1..] + rest;
    }
  }

  lemma {:induction false} PrintStarts(v: Value)
    requires Plain(v)
    ensures Print(v) != [] && Print(v)[0] != CLOSE_BRACKET && Print(v)[0] != CLOSE_BRACE
  {
  }

  lemma ParseStringStep(s: Text, t: Text, rest: Text)
    requires s != [] && s[0] == QUOTE && ParseUnits(s[1..]) == Some(Parsed(t, rest))
    ensures Parse(s) == Some(Parsed(Str(t), rest))
  {
    hide ParseUnits;
  }

  lemma ParseArrayStep(s: Text, items: seq<Value>, rest: Text)
    requires |s| > 1 && s[0] == OPEN_BRACKET && s[1] != CLOSE_BRACKET && ParseItems(s[1..]) == Some(Parsed(items, rest))
    ensures Parse(s) == Some(Parsed(Array(items), rest))
  {
    hide ParseItems;
  }

  lemma ParseObjectStep(s: Text, members: seq<Pair<Value>>, rest: Text)
    requires |s| > 1 && s[0] == OPEN_BRACE && s[1] != CLOSE_BRACE && ParseMembers(s[1..]) == Some(Parsed(members, rest))
    ensures Parse(s) == Some(Parsed(Object(members), rest))
  {
    hide ParseMembers;
  }

  lemma ParseItemsLast(s: Text, v: Value, rest: Text)
    requires Parse(s) == Some(Parsed(v, [CLOSE_BRACKET] + rest))
    ensures ParseItems(s) == Some(Parsed([v], rest))
  {
    hide Parse;
    assert ([CLOSE_BRACKET] + rest)[1..] == rest;
  }

  lemma ParseItemsMore(s: Text, v: Value, after: Text, more: seq<Value>, rest: Text)
    requires Parse(s) == Some(Parsed(v, [COMMA] + after)) && ParseItems(after) == Some(Parsed(more, rest))
    ensures ParseItems(s) == Some(Parsed([v] + more, rest))
  {
    hide Parse;
    assert ([COMMA] + after)[1..] == after;
  }

  lemma ParseMemberStep(s: Text, key: Text, after: Text, v: Value, rest: Text)
    requires s != [] && s[0] == QUOTE && ParseUnits(s[1..]) == Some(Parsed(key, [COLON] + after)) && Parse(after) == Some(Parsed(v, rest))
    ensures ParseMember(s) == Some(Parsed(Pair(key, v), rest))
  {
    hide Parse, ParseUnits;
    assert ([COLON] + after)[1..] == after;
  }

  lemma ParseMembersLast(s: Text, m: Pair<Value>, rest: Text)
    requires ParseMember(s) == Some(Parsed(m, [CLOSE_BRACE] + rest))
    ensures ParseMembers(s) == Some(Parsed([m], rest))
  {
    hide ParseMember;
    assert ([CLOSE_BRACE] + rest)[1..] == rest;
  }

  lemma ParseMembersMore(s: Text, m: Pair<Value>, after: Text, more: seq<Pair<Value>>, rest: Text)
    requires ParseMember(s) == Some(Parsed(m, [COMMA] + after)) && ParseMembers(after) == Some(Parsed(more, rest))
    ensures ParseMembers(s) == Some(Parsed([m] + more, rest))
  {
    hide ParseMember;
    assert ([COMMA] + after)[1..] == after;
  }

  lemma ParseAtom(v: Value, rest: Text)
    requires Plain(v) && Delimited(rest) && (v.Null? || v.Bool? || v.Num?)
    ensures Parse(Print(v) + rest) == Some(Parsed(v, rest))
  {
    var s := Print(v) + rest;
    match v
    case Null => assert s[|NULL_TEXT|..] == rest;
    case Bool(b) => assert s[|if b then TRUE_TEXT else FALSE_TEXT|..] == rest;
    case Num(n) =>
      NumberRunOf(n.text, rest);
      assert s[|n.text|..] == rest;
  }

  /** Parsing a printed tree returns it, and leaves what follows. */
  lemma {:induction false} ParseOfPrint(v: Value, rest: Text)
    requires Plain(v) && Delimited(rest)
    ensures Parse(Print(v) + rest) == Some(Parsed(v, rest))
    decreases v, 0
  {
    hide Parse, ParseUnits, ParseItems, ParseMembers, Quoted, Join, NumberText;
    var s := Print(v) + rest;
    match v
    case Str(t) =>
      ParseUnitsOfQuoted(t, rest);
      assert s[1..] == Quoted(t) + ([QUOTE] + rest);
      ParseStringStep(s, t, rest);
    case Array(items) => if items == [] { ParseEmpty(v, rest); } else { ParseOfArray(items, rest); }
    case Object(members) => if members == [] { ParseEmpty(v, rest); } else { ParseOfObject(members, rest); }
    case _ => ParseAtom(v, rest);
  }

  lemma ParseEmpty(v: Value, rest: Text)
    requires v == Array([]) || v == Object([])
    ensures Parse(Print(v) + rest) == Some(Parsed(v, rest))
  {
    assert (Print(v) + rest)[2..] == rest;
  }

  lemma JoinStarts(texts: seq<Text>)
    requires texts != [] && texts[0] != []
    ensures Join(texts) != [] && Join(texts)[0] == texts[0][0]
  {
  }

  lemma {:induction false} ParseOfArray(items: seq<Value>, rest: Text)
    requires items != [] && forall i :: 0 <= i < |items| ==> Plain(items[i])
    ensures Parse(Print(Array(items)) + rest) == Some(Parsed(Array(items), rest))
    decreases items, 2
  {
    var body := Join(PrintItems(items)) + [CLOSE_BRACKET] + rest;
    var s := Print(Array(items)) + rest;
    assert s == [OPEN_BRACKET] + body && s[1..] == body;
    hide Parse, ParseItems, Print, Join, Plain;
    PrintStarts(items[0]);
    JoinStarts(PrintItems(items));
    ParseOfItems(items, rest);
    ParseArrayStep(s, items, rest);
  }

  lemma {:induction false} ParseOfObject(members: seq<Pair<Value>>, rest: Text)
    requires members != [] && forall i :: 0 <= i < |members| ==> Plain(members[i].value)
    ensures Parse(Print(Object(members)) + rest) == Some(Parsed(Object(members), rest))
    decreases members, 2
  {
    var body := Join(PrintMembers(members)) + [CLOSE_BRACE] + rest;
    var s := Print(Object(members)) + rest;
    assert s == [OPEN_BRACE] + body && s[1..] == body;
    hide Parse, ParseMembers, Print, Join, Plain;
    JoinStarts(PrintMembers(members));
    ParseOfMembers(members, rest);
    ParseObjectStep(s, members, rest);
  }

  lemma JoinSplits(texts: seq<Text>, end: Text, rest: Text)
    requires texts != []
    ensures Join(texts) + end + rest ==
      if |texts| == 1 then texts[0] + (end + rest) else texts[0] + ([COMMA] + (Join(texts[1..]) + end + rest))
  {
    if |texts| == 1 {
      Associative(texts[0], end, rest);
    } else {
      var first, more := texts[0] + [COMMA], Join(texts[1..]);
      assert Join(texts) == first + more;
      hide Join;
      Associative(first, more, end);
      Associative(first, more + end, rest);
      Associative(texts[0], [COMMA], more + end + rest);
    }
  }

  lemma {:induction false} ParseOfItems(items: seq<Value>, rest: Text)
    requires items != [] && forall i :: 0 <= i < |items| ==> Plain(items[i])
    ensures ParseItems(Join(PrintItems(items)) + [CLOSE_BRACKET] + rest) == Some(Parsed(items, rest))
    decreases items, 1
  {
    hide Parse, ParseItems, Print, Plain, Join;
    var s := Join(PrintItems(items)) + [CLOSE_BRACKET] + rest;
    JoinSplits(PrintItems(items), [CLOSE_BRACKET], rest);
    if |items| == 1 {
      ParseOfPrint(items[0], [CLOSE_BRACKET] + rest);
      assert s == Print(items[0]) + ([CLOSE_BRACKET] + rest);
      ParseItemsLast(s, items[0], rest);
      assert items == [items[0]];
    } else {
      var more := Join(PrintItems(items[1..])) + [CLOSE_BRACKET] + rest;
      assert PrintItems(items)[1..] == PrintItems(items[1..]);
      ParseOfPrint(items[0], [COMMA] + more);
      assert s == Print(items[0]) + ([COMMA] + more);
      ParseOfItems(items[1..], rest);
      ParseItemsMore(s, items[0], more, items[1..], rest);
      assert items == [items[0]] + items[1..];
    }
  }

  lemma ParseOfMember(m: Pair<Value>, rest: Text)
    requires Plain(m.value) && Delimited(rest)
    ensures ParseMember(PrintMember(m.key, Print(m.value)) + rest) == Some(Parsed(m, rest))
    decreases m, 0
  {
    hide Parse, ParseUnits, ParseMember, Quoted, Print, Plain;
    var s := PrintMember(m.key, Print(m.value)) + rest;
    var after := Print(m.value) + rest;
    ParseUnitsOfQuoted(m.key, [COLON] + after);
    assert s[1..] == Quoted(m.key) + ([QUOTE] + ([COLON] + after));
    ParseOfPrint(m.value, rest);
    ParseMemberStep(s, m.key, after, m.value, rest);
  }

  lemma {:induction false} ParseOfMembers(members: seq<Pair<Value>>, rest: Text)
    requires members != [] && forall i :: 0 <= i < |members| ==> Plain(members[i].value)
    ensures ParseMembers(Join(PrintMembers(members)) + [CLOSE_BRACE] + rest) == Some(Parsed(members, rest))
    decreases members, 1
  {
    hide Parse, ParseMember, ParseMembers, Print, PrintMember, Plain, Join;
    var s := Join(PrintMembers(members)) + [CLOSE_BRACE] + rest;
    JoinSplits(PrintMembers(members), [CLOSE_BRACE], rest);
    var first := PrintMember(members[0].key, Print(members[0].value));
    if |members| == 1 {
      ParseOfMember(members[0], [CLOSE_BRACE] + rest);
      assert s == first + ([CLOSE_BRACE] + rest);
      ParseMembersLast(s, members[0], rest);
      assert members == [members[0]];
    } else {
      var more := Join(PrintMembers(members[1..])) + [CLOSE_BRACE] + rest;
      assert PrintMembers(members)[1..] == PrintMembers(members[1..]);
      ParseOfMember(members[0], [COMMA] + more);
      assert s == first + ([COMMA] + more);
      ParseOfMembers(members[1..], rest);
      ParseMembersMore(s, members[0], more, members[1..], rest);
      assert members == [members[0]] + members[1..];
    }
  }
}

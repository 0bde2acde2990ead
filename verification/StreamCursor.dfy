/**
The position a client resumes an Audit stream at (apps/server/events/stream-audit-input.ts): printed into
every frame id on one side, parsed from the reconnecting request on the other.
*/
module StreamCursor {
  import opened Wrappers
  import opened AuditLog
  import opened AuditStream
  import opened Decimal
  import opened Splitting
  import opened Uuid

  const MAX_POSITION: nat := 0x7fff_ffff_ffff_ffff

  type Query = seq<(string, string)>

  function Lower(c: char): char {
    if 'A' <= c <= 'Z' then c - 'A' + 'a' else c
  }

  function LowerAll(s: string): (r: string)
    ensures |r| == |s| && forall i :: 0 <= i < |s| ==> r[i] == Lower(s[i])
  {
    if s == "" then "" else [Lower(s[0])] + LowerAll(s[1..])
  }

  function Get(q: Query, key: string): Option<string> {
    if q == [] then None else if q[0].0 == key then Some(q[0].1) else Get(q[1..], key)
  }

  predicate KnownKeys(q: Query) {
    forall i :: 0 <= i < |q| ==> q[i].0 == "since" || q[i].0 == "generation"
  }

  predicate IsPosition(s: string) {
    Canonical(s) && |s| <= 19 && Value(s) <= MAX_POSITION
  }

  /** The checks shared by both sources of a cursor. */
  function Checked(after: string, generation: Option<string>, workspace: Option<string>): Option<Cursor> {
    if !IsPosition(after) || (generation.Some? && !IsUuidAnyCase(generation.value)) || (after != "0" && generation.None?) then None
    else Some(Cursor(Value(after), MapLower(generation), MapLower(workspace)))
  }

  function MapLower(s: Option<string>): Option<string> {
    if s.Some? then Some(LowerAll(s.value)) else None
  }

  function ParseStreamCursor(lastEventId: Option<string>, q: Query): Option<Cursor> {
    if !KnownKeys(q) then None
    else if lastEventId.Some? then
      var parts := Split(lastEventId.value, ':');
      if |parts| != 4 || parts[0] != "v1" || !IsUuidAnyCase(parts[1]) then None
      else Checked(parts[3], Some(parts[2]), Some(parts[1]))
    else
      var since := Get(q, "since");
      Checked(if since.Some? then since.value else "0", Get(q, "generation"), None)
  }

  /** The id line of a frame. */
  function FrameId(workspace: string, generation: string, position: nat): string {
    "v1:" + workspace + ":" + generation + ":" + Print(position)
  }

  // ---------------------------------------------------------------- splitting a printed id

  lemma JoinFour(parts: seq<string>, sep: char)
    requires |parts| == 4
    ensures Join(parts, sep) == parts[0] + [sep] + parts[1] + [sep] + parts[2] + [sep] + parts[3]
  {
    var last, two, three := [parts[3]], parts[2..], parts[1..];
    assert two[1..] == last && three[1..] == two;
    assert Join(two, sep) == parts[2] + [sep] + Join(last, sep);
    assert Join(three, sep) == parts[1] + [sep] + Join(two, sep);
  }

  lemma SplitOfFrameId(workspace: string, generation: string, position: string)
    requires IsUuidAnyCase(workspace) && IsUuidAnyCase(generation) && ':' !in position
    ensures Split("v1:" + workspace + ":" + generation + ":" + position, ':') == ["v1", workspace, generation, position]
  {
    UuidHasNoColon(workspace);
    UuidHasNoColon(generation);
    hide *;
    SplitFour("v1", workspace, generation, position, ':');
    Colons(workspace, generation, position);
  }

  lemma Colons(a: string, b: string, c: string)
    ensures "v1" + [':'] + (a + [':'] + (b + [':'] + c)) == "v1:" + a + ":" + b + ":" + c
  {
  }

  lemma UuidHasNoColon(s: string)
    requires IsUuidAnyCase(s)
    ensures ':' !in s
  {
    forall i | 0 <= i < |s| ensures s[i] != ':' { assert IsHexAnyCase(s[i]) || s[i] == '-'; }
  }

  lemma PrintedIsPosition(n: nat)
    ensures ':' !in Print(n)
    ensures IsPosition(Print(n)) <==> n <= MAX_POSITION
  {
    PrintIsCanonical(n);
    ValueOfPrint(n);
    if n <= MAX_POSITION {
      assert Pow10(3) == 1000;
      assert Pow10(7) == 10000 * Pow10(3);
      assert Pow10(11) == 10000 * Pow10(7);
      assert Pow10(15) == 10000 * Pow10(11);
      assert Pow10(19) == 10000 * Pow10(15);
      PrintIsShort(n, 19);
    }
  }

  // ---------------------------------------------------------------- what the parser accepts

  /** Reconnecting with a printed id returns its Workspace, generation and position, up to 2^63 - 1 and no further. */
  lemma ParseOfPrinted(workspace: string, generation: string, position: nat, q: Query)
    requires IsUuidAnyCase(workspace) && IsUuidAnyCase(generation) && KnownKeys(q)
    ensures ParseStreamCursor(Some(FrameId(workspace, generation, position)), q) ==
      if position <= MAX_POSITION then Some(Cursor(position, Some(LowerAll(generation)), Some(LowerAll(workspace)))) else None
  {
    PrintedIsPosition(position);
    ValueOfPrint(position);
    SplitOfFrameId(workspace, generation, Print(position));
  }

  /** Nothing else is accepted in the header: every accepted id is one that a frame could have carried. */
  lemma AcceptedIsPrinted(id: string, q: Query)
    requires ParseStreamCursor(Some(id), q).Some?
    ensures KnownKeys(q)
    ensures exists w, g, n: nat :: IsUuidAnyCase(w) && IsUuidAnyCase(g) && n <= MAX_POSITION && id == FrameId(w, g, n)
  {
    var parts := Split(id, ':');
    assert |parts| == 4 && parts[0] == "v1" && IsUuidAnyCase(parts[1]) && IsUuidAnyCase(parts[2]) && IsPosition(parts[3]);
    hide Split, IsUuidAnyCase, ParseStreamCursor, Print, Value;
    JoinOfSplit(id, ':');
    JoinFour(parts, ':');
    PrintOfValue(parts[3]);
    var n := Value(parts[3]);
    assert "v1" + [':'] + parts[1] + [':'] + parts[2] + [':'] + Print(n) == FrameId(parts[1], parts[2], n);
  }

  /** Without the header: since and generation, where any position but the origin needs its generation. */
  lemma QueryAcceptedIff(q: Query, c: Cursor)
    ensures ParseStreamCursor(None, q) == Some(c) <==>
      && KnownKeys(q) && c.workspace.None? && c.after <= MAX_POSITION
      && (Get(q, "since") == Some(Print(c.after)) || (c.after == 0 && Get(q, "since").None?))
      && c.generation == MapLower(Get(q, "generation"))
      && (Get(q, "generation").Some? ==> IsUuidAnyCase(Get(q, "generation").value))
      && (c.after != 0 ==> c.generation.Some?)
  {
    var since := Get(q, "since");
    var after := if since.Some? then since.value else "0";
    assert Print(0) == "0";
    PrintedIsPosition(c.after);
    ValueOfPrint(c.after);
    ValueOfPrint(0);
    if Canonical(after) {
      PrintOfValue(after);
      PrintedIsPosition(Value(after));
      ValueOfPrint(Value(after));
    }
  }

  // ---------------------------------------------------------------- resuming

  /** One connection: the log as it was at the end, where it was opened, and what the client had read by then. */
  datatype Session = Session(log: Log, start: nat, received: seq<Event>)

  ghost predicate Served(s: Session) {
    && ValidLog(s.log) && s.start <= s.log.head <= MAX_POSITION
    && s.received <= Newer(s.log.events, s.start)
  }

  /** The id the client holds at the end: that of the last event it read, or of the ready frame. */
  function LastId(workspace: string, s: Session): string {
    FrameId(workspace, s.log.generation, Last(s.start, s.received))
  }

  /** Each session is opened at the id the one before ended with, over a log that only grew. */
  ghost predicate Resumed(workspace: string, ss: seq<Session>, i: nat)
    requires i + 1 < |ss|
  {
    && Extends(ss[i].log, ss[i + 1].log)
    && exists q, c :: ParseStreamCursor(Some(LastId(workspace, ss[i])), q) == Some(c) && c.after == ss[i + 1].start
  }

  ghost predicate Chain(workspace: string, ss: seq<Session>) {
    && ss != [] && IsUuidAnyCase(workspace) && IsUuidAnyCase(ss[0].log.generation)
    && (forall s :: s in ss ==> Served(s))
    && forall i :: 0 <= i < |ss| - 1 ==> Resumed(workspace, ss, i)
  }

  function AllReceived(ss: seq<Session>): seq<Event> {
    if ss == [] then [] else AllReceived(ss[..|ss| - 1]) + ss[|ss| - 1].received
  }

  /** What every connection of one stream has read is what the class guarantees of its consumer. */
  lemma StreamIsServed(s: Stream)
    requires s.Valid() && s.Exact() && s.log.head <= MAX_POSITION
    ensures Served(Session(s.log, s.initial, s.Received()))
  {
    s.ReceivedIsInterval();
  }

  lemma {:induction false} SameGeneration(workspace: string, ss: seq<Session>, i: nat)
    requires Chain(workspace, ss) && i < |ss|
    ensures ss[i].log.generation == ss[0].log.generation
  {
    if i > 0 {
      SameGeneration(workspace, ss, i - 1);
      assert Resumed(workspace, ss, i - 1);
    }
  }

  lemma ReopenedAtLast(workspace: string, ss: seq<Session>, i: nat)
    requires Chain(workspace, ss) && i + 1 < |ss|
    ensures ss[i + 1].start == Last(ss[i].start, ss[i].received) <= ss[i].log.head
    ensures Extends(ss[i].log, ss[i + 1].log)
  {
    assert Resumed(workspace, ss, i) && Served(ss[i]);
    SameGeneration(workspace, ss, i);
    var q, c :| ParseStreamCursor(Some(LastId(workspace, ss[i])), q) == Some(c) && c.after == ss[i + 1].start;
    assert KnownKeys(q);
    ParseOfPrinted(workspace, ss[i].log.generation, Last(ss[i].start, ss[i].received), q);
    SentPart(ss[i].log, ss[i].start, ss[i].received, |ss[i].received|);
    assert ss[i].received[..|ss[i].received|] == ss[i].received;
  }

  lemma ChainPrefix(workspace: string, ss: seq<Session>)
    requires Chain(workspace, ss) && |ss| > 1
    ensures Chain(workspace, ss[..|ss| - 1])
  {
    var front := ss[..|ss| - 1];
    forall i | 0 <= i < |front| - 1 ensures Resumed(workspace, front, i) {
      assert Resumed(workspace, ss, i);
    }
  }

  /**
   * Resuming loses and repeats nothing: however often the client reconnects with the last id it holds, all it
   * has read is what one uninterrupted stream from the first cursor to the last id would have delivered.
   */
  lemma {:induction false} ResumeIsSeamless(workspace: string, ss: seq<Session>)
    requires Chain(workspace, ss)
    ensures var last := ss[|ss| - 1];
      && ss[0].start <= Last(last.start, last.received) <= last.log.head
      && AllReceived(ss) == Between(last.log.events, ss[0].start, Last(last.start, last.received))
  {
    var n := |ss| - 1;
    var last := ss[n];
    assert Served(last);
    PrefixIsInterval(last.log.events, last.start, last.received);
    SentPart(last.log, last.start, last.received, |last.received|);
    assert last.received[..|last.received|] == last.received;
    if n == 0 {
      assert AllReceived(ss[..0]) == [];
      assert AllReceived(ss) == last.received;
    } else {
      ChainPrefix(workspace, ss);
      ResumeIsSeamless(workspace, ss[..n]);
      ReopenedAtLast(workspace, ss, n - 1);
      assert Served(ss[n - 1]);
      ExtensionKeeps(ss[n - 1].log, last.log, ss[0].start, last.start);
      BetweenJoins(last.log.events, ss[0].start, last.start, Last(last.start, last.received));
    }
  }
}

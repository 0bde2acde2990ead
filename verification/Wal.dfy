/**
WAL segment names and what a backup may throw away (scripts/checkpoint.py): segment numbers are printed in
fixed-width hexadecimal, compared as text, and decide which archived files no kept Checkpoint needs.
*/
module Wal {
  import opened Wrappers
  import Lex

  const WORD: nat := 0x1_0000_0000

  // ---------------------------------------------------------------- fixed-width hexadecimal

  function HexDigit(n: nat): char
    requires n < 16
  {
    if n < 10 then '0' + n as char else 'A' + (n - 10) as char
  }

  predicate IsHexDigit(c: char) {
    '0' <= c <= '9' || 'A' <= c <= 'F'
  }

  function HexValue(c: char): (n: nat)
    requires IsHexDigit(c)
    ensures n < 16 && HexDigit(n) == c
  {
    if c <= '9' then c as nat - '0' as nat else c as nat - 'A' as nat + 10
  }

  /** The last `k` digits of a number. */
  function Hex(n: nat, k: nat): (s: string)
    ensures |s| == k && forall i :: 0 <= i < k ==> IsHexDigit(s[i])
  {
    if k == 0 then "" else Hex(n / 16, k - 1) + [HexDigit(n % 16)]
  }

  function Pow16(k: nat): nat {
    if k == 0 then 1 else 16 * Pow16(k - 1)
  }

  function Value(s: string): nat
    requires forall i :: 0 <= i < |s| ==> IsHexDigit(s[i])
  {
    if s == "" then 0 else 16 * Value(s[..|s| - 1]) + HexValue(s[|s| - 1])
  }

  lemma {:induction false} ValueOfHex(n: nat, k: nat)
    requires n < Pow16(k)
    ensures Value(Hex(n, k)) == n
  {
    if k > 0 {
      ValueOfHex(n / 16, k - 1);
      assert Hex(n, k)[..k - 1] == Hex(n / 16, k - 1);
    }
  }

  /** Numbers of the same width are ordered as their texts are. */
  lemma {:induction false} HexOrder(a: nat, b: nat, k: nat)
    requires a < Pow16(k) && b < Pow16(k)
    ensures Lex.Less(Hex(a, k), Hex(b, k)) <==> a < b
    ensures Hex(a, k) == Hex(b, k) <==> a == b
  {
    ValueOfHex(a, k);
    ValueOfHex(b, k);
    if k > 0 {
      HexOrder(a / 16, b / 16, k - 1);
      HexOrderLast(a, b, k);
    }
  }

  lemma HexOrderLast(a: nat, b: nat, k: nat)
    requires k > 0 && (Lex.Less(Hex(a / 16, k - 1), Hex(b / 16, k - 1)) <==> a / 16 < b / 16)
    requires Hex(a / 16, k - 1) == Hex(b / 16, k - 1) <==> a / 16 == b / 16
    ensures Lex.Less(Hex(a, k), Hex(b, k)) <==> a < b
  {
    TwoWords(Hex(a / 16, k - 1), Hex(b / 16, k - 1), [HexDigit(a % 16)], [HexDigit(b % 16)]);
  }

  // ---------------------------------------------------------------- segment names

  function PerLog(segmentBytes: SegmentBytes): nat
  {
    WORD / segmentBytes
  }

  type SegmentBytes = n: nat | 0 < n <= WORD witness 1

  /** The segment sizes PostgreSQL knows divide 2^32. */
  predicate Divides(segmentBytes: SegmentBytes) {
    WORD % segmentBytes == 0
  }

  /** The last eight digits. */
  function Word(n: nat): (s: string)
    ensures |s| == 8 && forall i :: 0 <= i < 8 ==> IsHexDigit(s[i])
  {
    Hex(n, 8)
  }

  lemma WordOrder(a: nat, b: nat)
    requires a < WORD && b < WORD
    ensures Lex.Less(Word(a), Word(b)) <==> a < b
    ensures Word(a) == Word(b) <==> a == b
    ensures Value(Word(a)) == a
  {
    hide Hex, Value, Lex.Less;
    Pow16Of8();
    HexOrder(a, b, 8);
    ValueOfHex(a, 8);
  }

  /** The segment of a number on the timeline that the prefix names. */
  function SegmentOn(prefix: string, number: nat, perLog: nat): string
    requires perLog > 0
  {
    prefix + Word(LogOf(number, perLog)) + Word(PlaceOf(number, perLog))
  }

  function SegmentName(timeline: nat, number: nat, perLog: nat): string
    requires perLog > 0
  {
    SegmentOn(Word(timeline), number, perLog)
  }

  predicate HexName(name: string) {
    |name| == 24 && forall i :: 0 <= i < 24 ==> IsHexDigit(name[i])
  }

  /** The number in a 24-character name, as the gap check reads it back. */
  function NumberIn(name: string, perLog: nat): nat
    requires HexName(name)
  {
    Value(name[8..16]) * perLog + Value(name[16..])
  }

  lemma Pow16Of8()
    ensures Pow16(8) == WORD
  {
    assert Pow16(4) == 0x1_0000;
    assert Pow16(8) == 16 * 16 * 16 * 16 * Pow16(4);
  }

  /** The log a segment is in, and its place there. */
  function LogOf(number: nat, perLog: nat): nat
    requires perLog > 0
  {
    number / perLog
  }

  function PlaceOf(number: nat, perLog: nat): nat
    requires perLog > 0
  {
    number % perLog
  }

  lemma NumberParts(number: nat, perLog: nat)
    requires 0 < perLog <= WORD && number < WORD * perLog
    ensures LogOf(number, perLog) < WORD && PlaceOf(number, perLog) < WORD
    ensures number == LogOf(number, perLog) * perLog + PlaceOf(number, perLog)
  {
    if number / perLog >= WORD { ProductAtLeast(number / perLog, WORD, perLog); }
  }

  lemma ProductAtLeast(a: nat, b: nat, c: nat)
    requires a >= b
    ensures a * c >= b * c
  {
  }

  /** Decoding a name gives back the number, for every number of a 64-bit position. */
  lemma NumberInName(timeline: nat, number: nat, perLog: nat)
    requires 0 < perLog <= WORD && number < WORD * perLog
    ensures HexName(SegmentName(timeline, number, perLog)) && SegmentName(timeline, number, perLog)[..8] == Word(timeline)
    ensures NumberIn(SegmentName(timeline, number, perLog), perLog) == number
  {
    hide Word, Value, LogOf, PlaceOf;
    NumberParts(number, perLog);
    WordOrder(LogOf(number, perLog), 0);
    WordOrder(PlaceOf(number, perLog), 0);
    NameParts(Word(timeline), Word(LogOf(number, perLog)), Word(PlaceOf(number, perLog)));
  }

  lemma NameParts(a: string, b: string, c: string)
    requires |a| == |b| == |c| == 8
    ensures var name := a + b + c; |name| == 24 && name[..8] == a && name[8..16] == b && name[16..] == c
  {
  }

  /** Names of one timeline are ordered as text exactly as their segments are. */
  lemma NameOrder(timeline: nat, a: nat, b: nat, perLog: nat)
    requires 0 < perLog <= WORD && a < WORD * perLog && b < WORD * perLog
    ensures Lex.Less(SegmentName(timeline, a, perLog), SegmentName(timeline, b, perLog)) <==> a < b
  {
    hide Word, Lex.Less, LogOf, PlaceOf;
    NumberParts(a, perLog);
    NumberParts(b, perLog);
    DivisionOrder(a, b, perLog);
    WordsOrder(Word(timeline), LogOf(a, perLog), PlaceOf(a, perLog), LogOf(b, perLog), PlaceOf(b, perLog));
  }

  lemma WordsOrder(prefix: string, a: nat, x: nat, b: nat, y: nat)
    requires a < WORD && b < WORD && x < WORD && y < WORD
    ensures Lex.Less(prefix + Word(a) + Word(x), prefix + Word(b) + Word(y)) <==> a < b || (a == b && x < y)
  {
    hide Word, Lex.Less;
    WordOrder(a, b);
    WordOrder(x, y);
    assert prefix + Word(a) + Word(x) == prefix + (Word(a) + Word(x)) && prefix + Word(b) + Word(y) == prefix + (Word(b) + Word(y));
    Lex.CommonPrefix(prefix, Word(a) + Word(x), Word(b) + Word(y));
    TwoWords(Word(a), Word(b), Word(x), Word(y));
  }

  lemma TwoWords(p: string, q: string, x: string, y: string)
    requires |p| == |q|
    ensures Lex.Less(p + x, q + y) <==> Lex.Less(p, q) || (p == q && Lex.Less(x, y))
  {
    hide Lex.Less;
    if p == q {
      Lex.CommonPrefix(p, x, y);
      Lex.Irreflexive(p);
    } else {
      Lex.Total(p, q);
      if Lex.Less(p, q) { Lex.Decided(p, q, x, y); } else { Lex.Decided(q, p, y, x); }
      Lex.NotBoth(p + x, q + y);
    }
  }

  lemma DivisionOrder(a: nat, b: nat, d: nat)
    requires d > 0
    ensures a < b <==> LogOf(a, d) < LogOf(b, d) || (LogOf(a, d) == LogOf(b, d) && PlaceOf(a, d) < PlaceOf(b, d))
  {
    var x, y := a / d, b / d;
    assert a == x * d + a % d && b == y * d + b % d;
    if x < y { ProductAtLeast(y, x + 1, d); }
    if x > y { ProductAtLeast(x, y + 1, d); }
  }

  // ---------------------------------------------------------------- the boundary of one backup

  /** One entry of WAL-Ranges: a timeline and the start position, in two 32-bit halves. */
  datatype Range = Range(timeline: nat, high: nat, low: nat)

  datatype WalError = NoBoundary | KeepNotPositive | ManifestUnreadable

  predicate ValidRange(r: Range) {
    r.timeline < WORD && r.high < WORD && r.low < WORD
  }

  function StartNumber(r: Range, segmentBytes: SegmentBytes): nat
  {
    (r.high * WORD + r.low) / segmentBytes
  }

  function StartName(r: Range, segmentBytes: SegmentBytes): string
  {
    PerLogPositive(segmentBytes);
    SegmentName(r.timeline, StartNumber(r, segmentBytes), PerLog(segmentBytes))
  }

  lemma PerLogPositive(segmentBytes: SegmentBytes)
    ensures 0 < PerLog(segmentBytes) <= WORD
  {
    assert WORD == PerLog(segmentBytes) * segmentBytes + WORD % segmentBytes;
  }

  /** The log number in the name is the high half of the position, and the rest is the segment within it. */
  lemma StartNumberParts(r: Range, segmentBytes: SegmentBytes)
    requires ValidRange(r) && Divides(segmentBytes)
    ensures var p := PerLog(segmentBytes);
      && 0 < p <= WORD && p * segmentBytes == WORD
      && StartNumber(r, segmentBytes) == r.high * p + r.low / segmentBytes && r.low / segmentBytes < p
      && StartNumber(r, segmentBytes) < WORD * p
  {
    var p := PerLog(segmentBytes);
    assert WORD == p * segmentBytes + WORD % segmentBytes;
    assert p * segmentBytes == WORD;
    PerLogFits(p, segmentBytes);
    var q := r.low / segmentBytes;
    assert r.low == q * segmentBytes + r.low % segmentBytes;
    if q >= p { ProductAtLeast(q, p, segmentBytes); }
    assert r.high * WORD + r.low == (r.high * p + q) * segmentBytes + r.low % segmentBytes by {
      assert r.high * (p * segmentBytes) == (r.high * p) * segmentBytes;
    }
    DivisionUnique(r.high * WORD + r.low, segmentBytes, r.high * p + q, r.low % segmentBytes);
    ProductAtLeast(WORD - 1, r.high, p);
    assert (WORD - 1) * p + p == WORD * p;
  }

  lemma PerLogFits(p: nat, segmentBytes: SegmentBytes)
    requires p * segmentBytes == WORD
    ensures 0 < p <= WORD
  {
    if p > WORD { ProductAtLeast(segmentBytes, 1, p); }
  }

  lemma DivisionUnique(n: nat, d: nat, q: nat, r: nat)
    requires d > 0 && n == q * d + r && r < d
    ensures n / d == q
  {
    var x := n / d;
    assert n == x * d + n % d;
    if x < q { ProductAtLeast(q, x + 1, d); }
    if x > q { ProductAtLeast(x, q + 1, d); }
  }

  predicate AtMost(a: string, b: string) {
    a == b || Lex.Less(a, b)
  }

  lemma AtMostTransitive(a: string, b: string, c: string)
    requires AtMost(a, b) && AtMost(b, c)
    ensures AtMost(a, c)
  {
    if a != b && b != c { Lex.Transitive(a, b, c); }
  }

  function Min(a: string, b: string): (m: string)
    ensures m == a || m == b
    ensures AtMost(m, a) && AtMost(m, b)
  {
    Lex.Total(a, b);
    if Lex.Less(b, a) then b else a
  }

  /** The boundary of each timeline is the least name that any of the ranges starts at. */
  ghost predicate Boundary(boundaries: map<nat, string>, ranges: seq<Range>, segmentBytes: SegmentBytes)
  {
    && (forall t :: t in boundaries <==> exists i :: 0 <= i < |ranges| && ranges[i].timeline == t)
    && (forall t :: t in boundaries ==> exists i :: 0 <= i < |ranges| && ranges[i].timeline == t && boundaries[t] == StartName(ranges[i], segmentBytes))
    && (forall i :: 0 <= i < |ranges| ==> AtMost(boundaries[ranges[i].timeline], StartName(ranges[i], segmentBytes)))
  }

  method WalBoundary(ranges: seq<Range>, segmentBytes: SegmentBytes) returns (r: Result<map<nat, string>, WalError>)
    ensures r.Err? <==> ranges == []
    ensures r.Ok? ==> Boundary(r.value, ranges, segmentBytes)
  {
    hide StartName, Boundary, Lex.Less;
    var boundaries: map<nat, string> := map[];
    assert Boundary(boundaries, ranges[..0], segmentBytes) by { NoBoundaries(segmentBytes); }
    for i := 0 to |ranges|
      invariant Boundary(boundaries, ranges[..i], segmentBytes)
      invariant i == 0 <==> boundaries == map[]
    {
      var name := StartName(ranges[i], segmentBytes);
      var timeline := ranges[i].timeline;
      var least := if timeline in boundaries then Min(boundaries[timeline], name) else name;
      BoundaryStep(boundaries, ranges[..i], ranges[i], segmentBytes);
      assert ranges[..i] + [ranges[i]] == ranges[..i + 1];
      boundaries := boundaries[timeline := least];
      assert timeline in boundaries;
    }
    assert ranges[..|ranges|] == ranges;
    if boundaries == map[] { return Err(NoBoundary); }
    r := Ok(boundaries);
  }

  lemma NoBoundaries(segmentBytes: SegmentBytes)
    ensures Boundary(map[], [], segmentBytes)
  {
  }

  lemma BoundaryStep(boundaries: map<nat, string>, ranges: seq<Range>, r: Range, segmentBytes: SegmentBytes)
    requires Boundary(boundaries, ranges, segmentBytes)
    ensures var name := StartName(r, segmentBytes);
      Boundary(boundaries[r.timeline := if r.timeline in boundaries then Min(boundaries[r.timeline], name) else name], ranges + [r], segmentBytes)
  {
    hide StartName, Lex.Less;
    var name := StartName(r, segmentBytes);
    var least := if r.timeline in boundaries then Min(boundaries[r.timeline], name) else name;
    var after, all := boundaries[r.timeline := least], ranges + [r];
    forall i | 0 <= i < |all| ensures AtMost(after[all[i].timeline], StartName(all[i], segmentBytes)) {
      if i < |ranges| && all[i].timeline == r.timeline {
        assert ranges[i] == all[i];
        AtMostTransitive(least, boundaries[r.timeline], StartName(all[i], segmentBytes));
      }
    }
    forall t | t in after ensures exists i :: 0 <= i < |all| && all[i].timeline == t && after[t] == StartName(all[i], segmentBytes) {
      if t == r.timeline && least == name {
        assert all[|ranges|] == r;
      } else {
        var i :| 0 <= i < |ranges| && ranges[i].timeline == t && boundaries[t] == StartName(ranges[i], segmentBytes);
        assert all[i] == ranges[i];
      }
    }
    forall t ensures t in after <==> exists i :: 0 <= i < |all| && all[i].timeline == t {
      if exists i :: 0 <= i < |all| && all[i].timeline == t {
        var i :| 0 <= i < |all| && all[i].timeline == t;
        if i < |ranges| { assert ranges[i].timeline == t; }
      }
    }
  }

  // ---------------------------------------------------------------- the gap check

  /** Every segment from the first to the last is among the files. */
  ghost predicate Gapless(first: string, last: string, perLog: nat, files: set<string>)
    requires perLog > 0 && HexName(first) && HexName(last)
  {
    forall n: nat :: NumberIn(first, perLog) <= n <= NumberIn(last, perLog) ==> SegmentOn(first[..8], n, perLog) in files
  }

  method CheckGaps(first: string, last: string, perLog: nat, files: set<string>) returns (ok: bool)
    requires perLog > 0 && HexName(first) && HexName(last)
    ensures ok <==> Gapless(first, last, perLog, files)
  {
    hide SegmentOn, Value;
    var number, end := NumberIn(first, perLog), NumberIn(last, perLog);
    ok := true;
    while number <= end
      invariant number >= NumberIn(first, perLog) && end == NumberIn(last, perLog)
      invariant forall n: nat :: NumberIn(first, perLog) <= n < number ==> n > end || SegmentOn(first[..8], n, perLog) in files
      decreases end + 1 - number
    {
      if SegmentOn(first[..8], number, perLog) !in files { return false; }
      number := number + 1;
    }
  }

  /** For names that PostgreSQL gave, a passed check means that no segment in between is missing. */
  lemma GapCheckCovers(timeline: nat, first: nat, last: nat, perLog: nat, files: set<string>, n: nat)
    requires 0 < perLog <= WORD && first <= n <= last < WORD * perLog
    requires HexName(SegmentName(timeline, first, perLog)) && HexName(SegmentName(timeline, last, perLog))
    requires Gapless(SegmentName(timeline, first, perLog), SegmentName(timeline, last, perLog), perLog, files)
    ensures SegmentName(timeline, n, perLog) in files
  {
    hide Value, SegmentOn;
    NumberInName(timeline, first, perLog);
    NumberInName(timeline, last, perLog);
    assert SegmentName(timeline, n, perLog) == SegmentOn(Word(timeline), n, perLog);
  }
}

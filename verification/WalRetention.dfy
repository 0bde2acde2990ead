/** Which Checkpoints and which archived WAL files a finished backup removes (scripts/checkpoint.py). */
module WalRetention {
  import opened Wrappers
  import opened Wal

  /** A complete Checkpoint: its directory, when it was completed, its WAL-Ranges if readable, its segment size. */
  datatype Checkpoint = Checkpoint(path: string, completedAt: string, ranges: Option<seq<Range>>, segmentBytes: SegmentBytes)

  datatype Refusal = KeepMustBePositive | Unreadable | NoWalBoundary | RemoveFailed

  ghost predicate ValidCheckpoint(c: Checkpoint) {
    Divides(c.segmentBytes) && (c.ranges.Some? ==> forall i :: 0 <= i < |c.ranges.value| ==> ValidRange(c.ranges.value[i]))
  }

  // ---------------------------------------------------------------- newest first

  /** Newest first; Checkpoints completed at the same time keep the order they are listed in. */
  function InsertNewest(c: Checkpoint, cs: seq<Checkpoint>): seq<Checkpoint> {
    if cs == [] || !Lex.Less(c.completedAt, cs[0].completedAt) then [c] + cs else [cs[0]] + InsertNewest(c, cs[1..])
  }

  function NewestFirst(cs: seq<Checkpoint>): seq<Checkpoint> {
    if cs == [] then [] else InsertNewest(cs[0], NewestFirst(cs[1..]))
  }

  ghost predicate Descending(cs: seq<Checkpoint>) {
    forall i, j :: 0 <= i < j < |cs| ==> !Lex.Less(cs[i].completedAt, cs[j].completedAt)
  }

  lemma {:induction false} InsertNewestHas(c: Checkpoint, cs: seq<Checkpoint>)
    ensures multiset(InsertNewest(c, cs)) == multiset([c] + cs)
  {
    if cs != [] && Lex.Less(c.completedAt, cs[0].completedAt) {
      InsertNewestHas(c, cs[1..]);
      assert cs == [cs[0]] + cs[1..];
    }
  }

  lemma {:induction false} NewestFirstHas(cs: seq<Checkpoint>)
    ensures multiset(NewestFirst(cs)) == multiset(cs)
  {
    if cs != [] {
      NewestFirstHas(cs[1..]);
      InsertNewestHas(cs[0], NewestFirst(cs[1..]));
      assert cs == [cs[0]] + cs[1..];
    }
  }

  lemma {:induction false} InsertNewestDescends(c: Checkpoint, cs: seq<Checkpoint>)
    requires Descending(cs)
    ensures Descending(InsertNewest(c, cs))
  {
    if cs != [] {
      if Lex.Less(c.completedAt, cs[0].completedAt) {
        InsertNewestDescends(c, cs[1..]);
        InsertNewestHas(c, cs[1..]);
        var rest := InsertNewest(c, cs[1..]);
        Lex.NotBoth(c.completedAt, cs[0].completedAt);
        forall j | 0 <= j < |rest| ensures !Lex.Less(cs[0].completedAt, rest[j].completedAt) {
          assert rest[j] in multiset(rest) && rest[j] in [c] + cs[1..];
        }
      } else {
        forall j | 0 <= j < |cs| ensures !Lex.Less(c.completedAt, cs[j].completedAt) {
          NotLessTransitive(c.completedAt, cs[0].completedAt, cs[j].completedAt);
        }
      }
    }
  }

  lemma NotLessTransitive(a: string, b: string, c: string)
    requires !Lex.Less(a, b) && (b == c || !Lex.Less(b, c))
    ensures !Lex.Less(a, c)
  {
    Lex.Total(a, b);
    if Lex.Less(a, c) && a != b { Lex.Transitive(b, a, c); }
  }

  lemma {:induction false} NewestFirstDescends(cs: seq<Checkpoint>)
    ensures Descending(NewestFirst(cs))
  {
    if cs != [] {
      NewestFirstDescends(cs[1..]);
      InsertNewestDescends(cs[0], NewestFirst(cs[1..]));
    }
  }

  function Kept(cs: seq<Checkpoint>, keep: nat): seq<Checkpoint> {
    var sorted := NewestFirst(cs);
    if |sorted| <= keep then sorted else sorted[..keep]
  }

  function Surplus(cs: seq<Checkpoint>, keep: nat): seq<Checkpoint> {
    var sorted := NewestFirst(cs);
    if |sorted| <= keep then [] else sorted[keep..]
  }

  /** The kept Checkpoints are the newest ones, as many as asked for, and together with the surplus they are all. */
  lemma KeptAreNewest(cs: seq<Checkpoint>, keep: nat)
    ensures multiset(Kept(cs, keep)) + multiset(Surplus(cs, keep)) == multiset(cs)
    ensures |Kept(cs, keep)| == if |cs| <= keep then |cs| else keep
    ensures forall k, s :: k in Kept(cs, keep) && s in Surplus(cs, keep) ==> !Lex.Less(k.completedAt, s.completedAt)
  {
    hide NewestFirst, Lex.Less, Descending;
    var sorted := NewestFirst(cs);
    NewestFirstHas(cs);
    NewestFirstDescends(cs);
    assert |multiset(sorted)| == |sorted| && |multiset(cs)| == |cs|;
    assert sorted == Kept(cs, keep) + Surplus(cs, keep);
    DescendingSplit(Kept(cs, keep), Surplus(cs, keep));
  }

  lemma DescendingSplit(a: seq<Checkpoint>, b: seq<Checkpoint>)
    requires Descending(a + b)
    ensures forall k, s :: k in a && s in b ==> !Lex.Less(k.completedAt, s.completedAt)
  {
    hide Lex.Less;
    forall i, j | 0 <= i < |a| && 0 <= j < |b| ensures !Lex.Less(a[i].completedAt, b[j].completedAt) {
      assert (a + b)[i] == a[i] && (a + b)[|a| + j] == b[j];
    }
  }

  // ---------------------------------------------------------------- boundaries of several Checkpoints

  /** Nothing that a Checkpoint starts at lies before the boundary of its timeline. */
  ghost predicate Protects(boundaries: map<nat, string>, c: Checkpoint)
  {
    c.ranges.Some? && c.ranges.value != []
    && forall i :: 0 <= i < |c.ranges.value| ==>
      c.ranges.value[i].timeline in boundaries && AtMost(boundaries[c.ranges.value[i].timeline], StartName(c.ranges.value[i], c.segmentBytes))
  }

  /** Each boundary is where some Checkpoint starts: nothing is kept without need. */
  ghost predicate Needed(boundaries: map<nat, string>, cs: seq<Checkpoint>)
  {
    forall t :: t in boundaries ==> NeededAt(t, boundaries[t], cs)
  }

  ghost predicate NeededAt(timeline: nat, name: string, cs: seq<Checkpoint>)
  {
    exists i, k :: 0 <= i < |cs| && cs[i].ranges.Some? && 0 <= k < |cs[i].ranges.value|
      && cs[i].ranges.value[k].timeline == timeline && name == StartName(cs[i].ranges.value[k], cs[i].segmentBytes)
  }

  /** A file that pruning removes: a segment-length name on a bounded timeline, before its boundary. */
  ghost predicate Doomed(file: string, boundaries: map<nat, string>) {
    |file| == 24 && exists t :: t in boundaries && Word(t) <= file && Lex.Less(file, boundaries[t])
  }

  /** No segment that a protected Checkpoint needs, from its first one on, is removed. */
  lemma NeededSegmentsSurvive(boundaries: map<nat, string>, c: Checkpoint, i: nat, number: nat)
    requires ValidCheckpoint(c) && Protects(boundaries, c) && i < |c.ranges.value|
    requires forall t :: t in boundaries ==> t < WORD
    requires StartNumber(c.ranges.value[i], c.segmentBytes) <= number < WORD * PerLog(c.segmentBytes)
    ensures !Doomed(SegmentName(c.ranges.value[i].timeline, number, PerLog(c.segmentBytes)), boundaries)
  {
    hide Word, Lex.Less, StartNumber;
    var r, p := c.ranges.value[i], PerLog(c.segmentBytes);
    var first := StartNumber(r, c.segmentBytes);
    StartNumberParts(r, c.segmentBytes);
    NumberInName(r.timeline, number, p);
    NameOrder(r.timeline, number, first, p);
    var name, start := SegmentName(r.timeline, number, p), SegmentName(r.timeline, first, p);
    assert start == StartName(r, c.segmentBytes);
    forall t | t in boundaries && Word(t) <= name ensures !Lex.Less(name, boundaries[t]) {
      WordOrder(t, r.timeline);
      assert Word(t) == name[..8];
      if Lex.Less(name, boundaries[t]) {
        if boundaries[t] != start { Lex.Transitive(name, boundaries[t], start); }
      }
    }
  }

  lemma LowerProtects(boundaries: map<nat, string>, lower: map<nat, string>, c: Checkpoint)
    requires Protects(boundaries, c)
    requires forall t :: t in boundaries ==> t in lower && AtMost(lower[t], boundaries[t])
    ensures Protects(lower, c)
  {
    hide StartName, Lex.Less;
    forall i | 0 <= i < |c.ranges.value|
      ensures c.ranges.value[i].timeline in lower && AtMost(lower[c.ranges.value[i].timeline], StartName(c.ranges.value[i], c.segmentBytes))
    {
      var t := c.ranges.value[i].timeline;
      AtMostTransitive(lower[t], boundaries[t], StartName(c.ranges.value[i], c.segmentBytes));
    }
  }

  lemma BoundaryProtects(own: map<nat, string>, lower: map<nat, string>, c: Checkpoint)
    requires c.ranges.Some? && c.ranges.value != [] && Boundary(own, c.ranges.value, c.segmentBytes)
    requires forall t :: t in own ==> t in lower && AtMost(lower[t], own[t])
    ensures Protects(lower, c)
  {
    hide StartName, Lex.Less;
    forall i | 0 <= i < |c.ranges.value|
      ensures c.ranges.value[i].timeline in own && AtMost(own[c.ranges.value[i].timeline], StartName(c.ranges.value[i], c.segmentBytes))
    {
    }
    LowerProtects(own, lower, c);
  }

  lemma MergedNeeded(boundaries: map<nat, string>, own: map<nat, string>, lower: map<nat, string>, cs: seq<Checkpoint>, c: Checkpoint)
    requires c.ranges.Some? && Boundary(own, c.ranges.value, c.segmentBytes) && Needed(boundaries, cs)
    requires forall t :: t in lower ==> (t in boundaries && lower[t] == boundaries[t]) || (t in own && lower[t] == own[t])
    ensures Needed(lower, cs + [c])
  {
    hide StartName, Lex.Less;
    var all := cs + [c];
    forall t | t in lower ensures NeededAt(t, lower[t], all) {
      if t in boundaries && lower[t] == boundaries[t] {
        assert NeededAt(t, boundaries[t], cs);
        var i, k :| 0 <= i < |cs| && cs[i].ranges.Some? && 0 <= k < |cs[i].ranges.value|
          && cs[i].ranges.value[k].timeline == t && lower[t] == StartName(cs[i].ranges.value[k], cs[i].segmentBytes);
        assert all[i] == cs[i];
      } else {
        var k :| 0 <= k < |c.ranges.value| && c.ranges.value[k].timeline == t && own[t] == StartName(c.ranges.value[k], c.segmentBytes);
        assert all[|cs|] == c;
      }
    }
  }

  ghost predicate Listing(cs: seq<Checkpoint>, all: set<Checkpoint>) {
    && (forall i, j :: 0 <= i < j < |cs| ==> cs[i] != cs[j])
    && forall c :: c in cs <==> c in all
  }

  lemma {:induction false} ListedOnce(cs: seq<Checkpoint>, c: Checkpoint)
    requires forall i, j :: 0 <= i < j < |cs| ==> cs[i] != cs[j]
    ensures multiset(cs)[c] <= 1
  {
    if cs != [] {
      ListedOnce(cs[1..], c);
      assert cs == [cs[0]] + cs[1..];
      assert multiset(cs) == multiset{cs[0]} + multiset(cs[1..]);
      if c == cs[0] { assert c !in cs[1..]; }
    }
  }

  lemma KeptOrSurplus(cs: seq<Checkpoint>, keep: nat, c: Checkpoint)
    requires forall i, j :: 0 <= i < j < |cs| ==> cs[i] != cs[j]
    ensures c in cs <==> c in Kept(cs, keep) || c in Surplus(cs, keep)
    ensures !(c in Kept(cs, keep) && c in Surplus(cs, keep))
  {
    KeptAreNewest(cs, keep);
    ListedOnce(cs, c);
    var k, x := multiset(Kept(cs, keep)), multiset(Surplus(cs, keep));
    assert (k + x)[c] == k[c] + x[c];
    assert c in cs <==> c in multiset(cs);
    assert c in Kept(cs, keep) <==> c in k;
    assert c in Surplus(cs, keep) <==> c in x;
  }

  class Backups {
    var checkpoints: set<Checkpoint>
    var archive: set<string>

    constructor (checkpoints: set<Checkpoint>, archive: set<string>)
      ensures this.checkpoints == checkpoints && this.archive == archive
    {
      this.checkpoints, this.archive := checkpoints, archive;
    }

    /** Lower each boundary to that of one more Checkpoint. */
    static method MergeBoundaries(boundaries: map<nat, string>, more: map<nat, string>) returns (r: map<nat, string>)
      ensures forall t :: t in r <==> t in boundaries || t in more
      ensures forall t :: t in boundaries ==> AtMost(r[t], boundaries[t])
      ensures forall t :: t in more ==> AtMost(r[t], more[t])
      ensures forall t :: t in r ==> (t in boundaries && r[t] == boundaries[t]) || (t in more && r[t] == more[t])
    {
      hide Lex.Less;
      r := boundaries;
      var remaining := more.Keys;
      while remaining != {}
        invariant remaining <= more.Keys
        invariant forall t :: t in r <==> t in boundaries || (t in more && t !in remaining)
        invariant forall t :: t in boundaries ==> AtMost(r[t], boundaries[t])
        invariant forall t :: t in more && t !in remaining ==> AtMost(r[t], more[t])
        invariant forall t :: t in r ==> (t in boundaries && r[t] == boundaries[t]) || (t in more && t !in remaining && r[t] == more[t])
        decreases |remaining|
      {
        var t :| t in remaining;
        var least := if t in r then Min(r[t], more[t]) else more[t];
        r := r[t := least];
        remaining := remaining - {t};
      }
    }

    method KeptBoundaries(kept: seq<Checkpoint>) returns (r: Result<map<nat, string>, Refusal>)
      ensures r.Err? <==> exists i :: 0 <= i < |kept| && (kept[i].ranges.None? || kept[i].ranges.value == [])
      ensures r.Err? ==> r.error.Unreadable? || r.error.NoWalBoundary?
      ensures r.Ok? ==> (forall i :: 0 <= i < |kept| ==> Protects(r.value, kept[i])) && Needed(r.value, kept)
    {
      hide StartName, Boundary;
      var boundaries: map<nat, string> := map[];
      for i := 0 to |kept|
        invariant forall j :: 0 <= j < i ==> Protects(boundaries, kept[j])
        invariant Needed(boundaries, kept[..i])
      {
        if kept[i].ranges.None? { return Err(Unreadable); }
        var more := WalBoundary(kept[i].ranges.value, kept[i].segmentBytes);
        if more.Err? { return Err(NoWalBoundary); }
        var lower := MergeBoundaries(boundaries, more.value);
        assert kept[..i] + [kept[i]] == kept[..i + 1];
        MergedNeeded(boundaries, more.value, lower, kept[..i], kept[i]);
        forall j | 0 <= j < i ensures Protects(lower, kept[j]) { LowerProtects(boundaries, lower, kept[j]); }
        BoundaryProtects(more.value, lower, kept[i]);
        boundaries := lower;
      }
      assert kept[..|kept|] == kept;
      r := Ok(boundaries);
    }

    /** Find every boundary before the first removal, then remove all but the newest Checkpoints. */
    method PruneCheckpoints(listing: seq<Checkpoint>, keep: int, removable: set<string>) returns (r: Result<map<nat, string>, Refusal>)
      requires Listing(listing, checkpoints) && forall c :: c in checkpoints ==> ValidCheckpoint(c)
      modifies `checkpoints
      ensures keep < 1 ==> r == Err(KeepMustBePositive)
      ensures r.Err? && !r.error.RemoveFailed? ==> checkpoints == old(checkpoints)
      ensures r.Err? && r.error.RemoveFailed? ==> keep >= 1 && exists c :: c in Surplus(listing, keep) && c.path !in removable
      ensures checkpoints <= old(checkpoints) && (keep >= 1 ==> forall c :: c in Kept(listing, keep) ==> c in checkpoints)
      ensures r.Ok? ==>
        && keep >= 1 && (forall c :: c in checkpoints <==> c in Kept(listing, keep))
        && (forall c :: c in checkpoints ==> Protects(r.value, c))
        && Needed(r.value, Kept(listing, keep))
    {
      hide StartName, NewestFirst, ValidRange;
      if keep < 1 { return Err(KeepMustBePositive); }
      var kept, surplus := Kept(listing, keep), Surplus(listing, keep);
      forall c ensures c in listing <==> c in kept || c in surplus ensures !(c in kept && c in surplus) { KeptOrSurplus(listing, keep, c); }
      r := KeptBoundaries(kept);
      if r.Err? { return; }
      for i := 0 to |surplus|
        invariant forall c :: c in checkpoints <==> c in old(checkpoints) && c !in surplus[..i]
      {
        if surplus[i].path !in removable {
          assert surplus[i] in surplus;
          return Err(RemoveFailed);
        }
        checkpoints := checkpoints - {surplus[i]};
        assert surplus[..i + 1] == surplus[..i] + [surplus[i]];
      }
      assert surplus[..|surplus|] == surplus;
    }

    /** Per timeline, remove the archived segments that sort before its boundary. */
    method PruneArchive(boundaries: map<nat, string>)
      modifies `archive
      ensures forall f :: f in archive <==> f in old(archive) && !Doomed(f, boundaries)
    {
      hide Word, Lex.Less;
      var remaining := boundaries.Keys;
      while remaining != {}
        invariant remaining <= boundaries.Keys
        invariant forall f :: f in archive <==>
          f in old(archive) && !(|f| == 24 && exists t :: t in boundaries && t !in remaining && Word(t) <= f && Lex.Less(f, boundaries[t]))
        decreases |remaining|
      {
        var t :| t in remaining;
        archive := set f | f in archive && !(Word(t) <= f && |f| == 24 && Lex.Less(f, boundaries[t]));
        remaining := remaining - {t};
      }
    }

    /** The end of a backup: what is removed, and that no kept Checkpoint loses a segment it needs. */
    method Retain(listing: seq<Checkpoint>, keep: int, removable: set<string>) returns (r: Result<map<nat, string>, Refusal>)
      requires Listing(listing, checkpoints) && forall c :: c in checkpoints ==> ValidCheckpoint(c)
      modifies this
      ensures r.Err? ==> archive == old(archive)
      ensures r.Ok? ==>
        && keep >= 1 && (forall c :: c in checkpoints <==> c in Kept(listing, keep))
        && (forall f :: f in archive <==> f in old(archive) && !Doomed(f, r.value))
      ensures r.Ok? ==> forall c :: c in checkpoints ==> SegmentsKept(c, old(archive), archive)
    {
      hide StartName, Divides, NewestFirst, Lex.Less;
      ghost var before := archive;
      r := PruneCheckpoints(listing, keep, removable);
      if r.Err? { return; }
      PruneArchive(r.value);
      KeptTimelines(r.value, Kept(listing, keep));
      forall c | c in checkpoints ensures SegmentsKept(c, before, archive) { ProtectedSegmentsKept(r.value, c, before, archive); }
    }
  }

  /** Every archived segment from the first one the Checkpoint needs is still there. */
  ghost predicate SegmentsKept(c: Checkpoint, before: set<string>, after: set<string>) {
    c.ranges.Some? ==>
      forall i: nat, n: nat :: i < |c.ranges.value| && NeedsSegment(c, i, n) && SegmentName(c.ranges.value[i].timeline, n, PerLogOf(c)) in before
        ==> SegmentName(c.ranges.value[i].timeline, n, PerLogOf(c)) in after
  }

  function PerLogOf(c: Checkpoint): (p: nat)
    ensures p > 0
  {
    PerLogPositive(c.segmentBytes);
    PerLog(c.segmentBytes)
  }

  ghost predicate NeedsSegment(c: Checkpoint, i: nat, number: nat)
    requires c.ranges.Some? && i < |c.ranges.value|
  {
    StartNumber(c.ranges.value[i], c.segmentBytes) <= number < WORD * PerLogOf(c)
  }

  lemma KeptTimelines(boundaries: map<nat, string>, kept: seq<Checkpoint>)
    requires Needed(boundaries, kept) && forall i :: 0 <= i < |kept| ==> ValidCheckpoint(kept[i])
    ensures forall t :: t in boundaries ==> t < WORD
  {
    forall t | t in boundaries ensures t < WORD { assert NeededAt(t, boundaries[t], kept); }
  }

  lemma ProtectedSegmentsKept(boundaries: map<nat, string>, c: Checkpoint, before: set<string>, after: set<string>)
    requires ValidCheckpoint(c) && Protects(boundaries, c) && forall t :: t in boundaries ==> t < WORD
    requires forall f :: f in after <==> f in before && !Doomed(f, boundaries)
    ensures SegmentsKept(c, before, after)
  {
    hide Doomed, StartNumber, SegmentName;
    forall i: nat, n: nat | i < |c.ranges.value| && NeedsSegment(c, i, n) ensures !Doomed(SegmentName(c.ranges.value[i].timeline, n, PerLogOf(c)), boundaries) {
      NeededSegmentsSurvive(boundaries, c, i, n);
    }
  }
}

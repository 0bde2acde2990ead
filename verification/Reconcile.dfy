/**
The bounded sweep over expired invocations (apps/server/compute/reconcile-invocations.ts): each pass attempts up to
sixteen pending runs after a cursor, which wraps around when a pass reaches the end.
*/
module Reconcile {
  import opened Wrappers
  import opened Sets

  const LIMIT: nat := 16

  datatype Key = Key(expiresAt: int, id: int)

  predicate Before(a: Key, b: Key) {
    a.expiresAt < b.expiresAt || (a.expiresAt == b.expiresAt && a.id < b.id)
  }

  predicate After(k: Key, cursor: Option<Key>) {
    cursor.None? || Before(cursor.value, k)
  }

  ghost function Above(pending: set<Key>, cursor: Option<Key>): set<Key> {
    set k | k in pending && After(k, cursor)
  }

  ghost predicate Ascending(runs: seq<Key>) {
    forall i, j :: 0 <= i < j < |runs| ==> Before(runs[i], runs[j])
  }

  /** ORDER BY expires_at, run_id LIMIT 16, of the expired pending runs after the cursor. */
  ghost predicate Selected(runs: seq<Key>, pending: set<Key>, cursor: Option<Key>) {
    && Ascending(runs)
    && (forall k :: k in runs ==> k in Above(pending, cursor))
    && |runs| <= LIMIT
    && (|runs| < LIMIT ==> forall k :: k in Above(pending, cursor) ==> k in runs)
    && (forall k, q :: k in Above(pending, cursor) && k !in runs && q in runs ==> Before(q, k))
  }

  /** Where a pass that attempts `attempted` of the selected runs leaves the cursor. */
  function Moved(cursor: Option<Key>, runs: seq<Key>, attempted: nat): Option<Key>
    requires attempted <= |runs|
  {
    if attempted == |runs| && |runs| < LIMIT then None
    else if attempted == 0 then cursor
    else Some(runs[attempted - 1])
  }

  function Working(runs: seq<Key>, works: Key -> bool): nat {
    if runs == [] then 0 else Working(runs[..|runs| - 1], works) + (if works(runs[|runs| - 1]) then 1 else 0)
  }

  function Successes(runs: seq<Key>, works: Key -> bool): set<nat> {
    set i | 0 <= i < |runs| && works(runs[i])
  }

  /** The completed attempts are those that worked. */
  lemma {:induction false} WorkingCounts(runs: seq<Key>, works: Key -> bool)
    ensures Working(runs, works) == |Successes(runs, works)|
  {
    if runs == [] {
      assert Successes(runs, works) == {};
    } else {
      var n := |runs| - 1;
      WorkingCounts(runs[..n], works);
      assert Successes(runs, works) == Successes(runs[..n], works) + if works(runs[n]) then {n} else {};
    }
  }

  class Reconciler {
    var cursor: Option<Key>

    constructor ()
      ensures cursor.None?
    {
      cursor := None;
    }

    /** One pass: the cursor moves onto a run before it is attempted, and whether the attempt works does not matter. */
    method Pass(runs: seq<Key>, abortedAfter: nat, works: Key -> bool) returns (completed: nat, attempted: nat)
      requires |runs| <= LIMIT
      modifies this
      ensures attempted == (if abortedAfter < |runs| then abortedAfter else |runs|)
      ensures cursor == Moved(old(cursor), runs, attempted)
      ensures completed == Working(runs[..attempted], works) == |Successes(runs[..attempted], works)|
    {
      completed, attempted := 0, 0;
      while attempted < |runs| && attempted < abortedAfter
        invariant attempted <= |runs| && attempted <= abortedAfter && completed == Working(runs[..attempted], works)
        invariant cursor == if attempted == 0 then old(cursor) else Some(runs[attempted - 1])
      {
        cursor := Some(runs[attempted]);
        if works(runs[attempted]) { completed := completed + 1; }
        assert runs[..attempted + 1][..attempted] == runs[..attempted];
        attempted := attempted + 1;
      }
      if attempted == |runs| && |runs| < LIMIT { cursor := None; }
      WorkingCounts(runs[..attempted], works);
    }
  }

  /** Of the runs beyond the cursor a pass attempts those that expired first, runs that expired together in the order of their ids. */
  lemma EarliestFirst(pending: set<Key>, cursor: Option<Key>, runs: seq<Key>, attempted: nat, a: Key, k: Key)
    requires Selected(runs, pending, cursor) && attempted <= |runs| && a in runs[..attempted]
    requires k in pending && k !in runs[..attempted]
    requires cursor.Some? ==> cursor.value.expiresAt < k.expiresAt || (cursor.value.expiresAt == k.expiresAt && cursor.value.id < k.id)
    ensures a.expiresAt < k.expiresAt || (a.expiresAt == k.expiresAt && a.id < k.id)
  {
    var i :| 0 <= i < attempted && runs[..attempted][i] == a;
    assert runs[i] == a && a in runs;
    assert k in Above(pending, cursor);
    if k in runs {
      assert runs == runs[..attempted] + runs[attempted..];
      var j :| 0 <= j < |runs[attempted..]| && runs[attempted..][j] == k;
      assert Before(runs[i], runs[attempted + j]);
    }
  }

  // ---------------------------------------------------------------- no run is skipped

  /** Whatever was ahead of the cursor is attempted or still ahead of it, also when the pass was aborted. */
  lemma NothingIsSkipped(pending: set<Key>, cursor: Option<Key>, runs: seq<Key>, attempted: nat, k: Key)
    requires Selected(runs, pending, cursor) && attempted <= |runs| && k in Above(pending, cursor)
    ensures k in runs[..attempted] || k in Above(pending, Moved(cursor, runs, attempted))
  {
    assert forall i :: 0 <= i < attempted ==> runs[i] in runs[..attempted];
  }

  // ---------------------------------------------------------------- fairness

  /** A round of passes: what was pending, what was selected and attempted in full, and what remained. */
  datatype Round = Round(pending: set<Key>, cursor: Option<Key>, runs: seq<Key>)

  /** Complete passes one after the other; runs may disappear between them, but none arrives. */
  ghost predicate Rounds(rs: seq<Round>) {
    && (forall i :: 0 <= i < |rs| ==> Selected(rs[i].runs, rs[i].pending, rs[i].cursor))
    && forall i :: 0 <= i < |rs| - 1 ==> Follows(rs[i], rs[i + 1])
  }

  ghost predicate Follows(a: Round, b: Round) {
    b.pending <= a.pending && b.cursor == Moved(a.cursor, a.runs, |a.runs|)
  }

  ghost function UpTo(pending: set<Key>, r: Key): set<Key> {
    set k | k in pending && (k == r || Before(k, r))
  }

  /** How many more complete passes it takes at most until `r` is attempted. */
  ghost function Distance(pending: set<Key>, cursor: Option<Key>, r: Key): nat {
    if After(r, cursor) then (|Above(pending, cursor) * UpTo(pending, r)| + 15) / 16
    else |Above(pending, cursor)| / 16 + 1 + (|UpTo(pending, r)| + 15) / 16
  }

  lemma {:induction false} AscendingCount(runs: seq<Key>)
    requires Ascending(runs)
    ensures |set k | k in runs| == |runs|
  {
    if runs != [] {
      var last := |runs| - 1;
      AscendingCount(runs[..last]);
      assert (set k | k in runs) == (set k | k in runs[..last]) + {runs[last]};
      assert forall i :: 0 <= i < last ==> Before(runs[i], runs[last]);
    }
  }

  /** Removing a full selection from a set that contains it. */
  lemma SixteenFewer(runs: seq<Key>, before: set<Key>, after: set<Key>)
    requires Ascending(runs) && |runs| == LIMIT && (forall k :: k in runs ==> k in before && k !in after) && after <= before
    ensures |after| + 16 <= |before|
  {
    var selected := set k | k in runs;
    AscendingCount(runs);
    SubsetIsSmaller(after, before - selected);
    SubsetIsSmaller(selected, before);
    assert |before - selected| == |before| - |selected|;
  }

  lemma DistanceAtLeastOne(pending: set<Key>, cursor: Option<Key>, r: Key)
    requires r in pending
    ensures Distance(pending, cursor, r) >= 1
  {
    if After(r, cursor) { SubsetIsSmaller({r}, Above(pending, cursor) * UpTo(pending, r)); }
  }

  lemma AheadIsCloser(a: Round, b: Round, r: Key)
    requires Selected(a.runs, a.pending, a.cursor) && Follows(a, b) && r in b.pending && r !in a.runs && After(r, a.cursor)
    ensures Distance(b.pending, b.cursor, r) < Distance(a.pending, a.cursor, r)
  {
    assert r in Above(a.pending, a.cursor);
    assert |a.runs| == LIMIT && b.cursor == Some(a.runs[15]);
    var ahead, left := Above(a.pending, a.cursor) * UpTo(a.pending, r), Above(b.pending, b.cursor) * UpTo(b.pending, r);
    forall k | k in a.runs ensures k in ahead && k !in left {
      var i :| 0 <= i < |a.runs| && a.runs[i] == k;
      assert Before(k, r) && (i < 15 ==> Before(a.runs[i], a.runs[15]));
    }
    assert After(r, b.cursor);
    assert a.runs[15] in a.runs;
    assert left <= ahead;
    SixteenFewer(a.runs, ahead, left);
  }

  lemma BehindIsCloser(a: Round, b: Round, r: Key)
    requires Selected(a.runs, a.pending, a.cursor) && Follows(a, b) && r in b.pending && !After(r, a.cursor)
    ensures Distance(b.pending, b.cursor, r) < Distance(a.pending, a.cursor, r)
  {
    SubsetIsSmaller(UpTo(b.pending, r), UpTo(a.pending, r));
    if |a.runs| < LIMIT {
      SubsetIsSmaller(Above(b.pending, None) * UpTo(b.pending, r), UpTo(a.pending, r));
    } else {
      assert a.runs[15] in a.runs;
      var ahead, left := Above(a.pending, a.cursor), Above(b.pending, b.cursor);
      forall k | k in a.runs ensures k in ahead && k !in left {
        var i :| 0 <= i < |a.runs| && a.runs[i] == k;
        assert i < 15 ==> Before(a.runs[i], a.runs[15]);
      }
      assert Before(r, a.runs[15]);
      assert left <= ahead;
      SixteenFewer(a.runs, ahead, left);
    }
  }

  /** A pass that is aborted after some attempts brings no other run further away. */
  lemma AbortedIsNoFurther(pending: set<Key>, cursor: Option<Key>, runs: seq<Key>, attempted: nat, later: set<Key>, r: Key)
    requires Selected(runs, pending, cursor) && attempted < |runs| && later <= pending
    requires r in later && r !in runs[..attempted]
    ensures Distance(later, Moved(cursor, runs, attempted), r) <= Distance(pending, cursor, r)
  {
    AbortedShrinks(pending, cursor, runs, attempted, later, r);
    hide Above, UpTo, Selected;
    var moved := Moved(cursor, runs, attempted);
    SubsetIsSmaller(UpTo(later, r), UpTo(pending, r));
    SubsetIsSmaller(Above(later, moved), Above(pending, cursor));
    SubsetIsSmaller(Above(later, moved) * UpTo(later, r), Above(pending, cursor) * UpTo(pending, r));
    SubsetIsSmaller(Above(later, moved) * UpTo(later, r), UpTo(later, r));
  }

  lemma AbortedShrinks(pending: set<Key>, cursor: Option<Key>, runs: seq<Key>, attempted: nat, later: set<Key>, r: Key)
    requires Selected(runs, pending, cursor) && attempted < |runs| && later <= pending
    requires r in later && r !in runs[..attempted]
    ensures UpTo(later, r) <= UpTo(pending, r) && Above(later, Moved(cursor, runs, attempted)) <= Above(pending, cursor)
    ensures After(r, cursor) ==> After(r, Moved(cursor, runs, attempted))
  {
    if attempted > 0 {
      assert runs[attempted - 1] in runs;
      if After(r, cursor) { NothingIsSkipped(pending, cursor, runs, attempted, r); }
    }
  }

  lemma DistanceBound(pending: set<Key>, cursor: Option<Key>, r: Key)
    ensures Distance(pending, cursor, r) <= 2 * (|pending| / 16 + 1)
  {
    SubsetIsSmaller(UpTo(pending, r), pending);
    SubsetIsSmaller(Above(pending, cursor), pending);
    SubsetIsSmaller(Above(pending, cursor) * UpTo(pending, r), pending);
  }

  lemma {:induction false} AttemptedWithinDistance(rs: seq<Round>, r: Key)
    requires Rounds(rs) && rs != [] && |rs| >= Distance(rs[0].pending, rs[0].cursor, r)
    requires forall i :: 0 <= i < |rs| ==> r in rs[i].pending
    ensures exists i :: 0 <= i < Distance(rs[0].pending, rs[0].cursor, r) && i < |rs| && r in rs[i].runs
    decreases |rs|
  {
    var a := rs[0];
    DistanceAtLeastOne(a.pending, a.cursor, r);
    if r !in a.runs {
      if |rs| == 1 {
        LastRound(a, r);
      } else {
        var rest := rs[1..];
        assert Follows(rs[0], rs[1]);
        forall i | 0 <= i < |rest| - 1 ensures Follows(rest[i], rest[i + 1]) { assert Follows(rs[i + 1], rs[i + 2]); }
        if After(r, a.cursor) { AheadIsCloser(a, rs[1], r); } else { BehindIsCloser(a, rs[1], r); }
        AttemptedWithinDistance(rest, r);
        var i :| 0 <= i < Distance(rest[0].pending, rest[0].cursor, r) && i < |rest| && r in rest[i].runs;
        assert rs[i + 1] == rest[i];
      }
    }
  }

  /** With one pass to go the run is in the selection. */
  lemma LastRound(a: Round, r: Key)
    requires Selected(a.runs, a.pending, a.cursor) && r in a.pending && Distance(a.pending, a.cursor, r) <= 1
    ensures r in a.runs
  {
    if After(r, a.cursor) {
      var ahead := Above(a.pending, a.cursor) * UpTo(a.pending, r);
      if r !in a.runs {
        assert r in Above(a.pending, a.cursor);
        forall k | k in a.runs ensures k in ahead && k !in {r} { }
        SixteenFewer(a.runs, ahead, {r});
      }
    } else {
      SubsetIsSmaller({r}, UpTo(a.pending, r));
    }
  }

  /**
   * However many attempts fail, and wherever the cursor stood, every run that stays pending is attempted within
   * 2 * (n / 16 + 1) complete passes.
   */
  lemma EveryRunIsAttempted(rs: seq<Round>, r: Key)
    requires Rounds(rs) && rs != [] && |rs| == 2 * (|rs[0].pending| / 16 + 1)
    requires forall i :: 0 <= i < |rs| ==> r in rs[i].pending
    ensures exists i :: 0 <= i < |rs| && r in rs[i].runs
  {
    DistanceBound(rs[0].pending, rs[0].cursor, r);
    AttemptedWithinDistance(rs, r);
  }
}

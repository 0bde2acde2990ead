/** The append-only Audit log of one Workspace and the byte-bounded snapshot a stream takes of it. */
module AuditLog {
  import opened Wrappers

  const STREAM_BYTES: nat := 256 * 1024
  const BATCH: nat := 100

  /** One Audit Event: its position and the frame it is sent as. */
  datatype Event = Event(position: nat, frame: seq<bv8>)

  datatype Log = Log(events: seq<Event>, head: nat, floor: nat, generation: string, gated: bool)

  datatype Cursor = Cursor(after: nat, generation: Option<string>, workspace: Option<string>)

  datatype StreamError = Denied | CursorExpired | EventTooLarge | SlowConsumer | EventsUnavailable

  ghost predicate Ascending(es: seq<Event>) {
    forall i, j :: 0 <= i < j < |es| ==> es[i].position < es[j].position
  }

  /** Events are appended in order below the head; what lies at or below the floor may be purged. */
  ghost predicate ValidLog(l: Log) {
    && Ascending(l.events)
    && (forall e :: e in l.events ==> 0 < e.position <= l.head)
    && l.floor <= l.head
  }

  /** Concurrent appends and purges, within one generation. */
  ghost predicate Extends(a: Log, b: Log) {
    && a.generation == b.generation
    && a.events <= b.events && a.head <= b.head && a.floor <= b.floor
    && forall i :: |a.events| <= i < |b.events| ==> a.head < b.events[i].position
  }

  lemma ExtendsItself(a: Log)
    ensures Extends(a, a)
  {
  }

  lemma ExtendsOn(a: Log, b: Log, c: Log)
    requires Extends(a, b) && Extends(b, c)
    ensures Extends(a, c)
  {
    forall i | |a.events| <= i < |c.events| ensures a.head < c.events[i].position {
      if i < |b.events| { assert c.events[i] == b.events[i]; }
    }
  }

  /** How many events lie at or before a position. */
  function Index(es: seq<Event>, a: nat): (k: nat)
    ensures k <= |es|
    ensures Ascending(es) ==> forall i :: 0 <= i < |es| ==> (es[i].position <= a <==> i < k)
  {
    if es == [] then 0
    else if es[|es| - 1].position <= a then |es|
    else Index(es[..|es| - 1], a)
  }

  lemma IndexUnique(es: seq<Event>, a: nat, k: nat)
    requires Ascending(es) && k <= |es| && forall i :: 0 <= i < |es| ==> (es[i].position <= a <==> i < k)
    ensures Index(es, a) == k
  {
    var j := Index(es, a);
    assert j < |es| ==> (es[j].position <= a <==> j < k);
    assert k < |es| ==> (es[k].position <= a <==> k < j);
  }

  /** The events after `a`. */
  function Newer(es: seq<Event>, a: nat): seq<Event> {
    es[Index(es, a)..]
  }

  /** The events in (a, b]. */
  function Between(es: seq<Event>, a: nat, b: nat): seq<Event> {
    if Index(es, a) <= Index(es, b) then es[Index(es, a)..Index(es, b)] else []
  }

  lemma SliceAscending(es: seq<Event>, j: nat, k: nat)
    requires Ascending(es) && j <= k <= |es|
    ensures Ascending(es[j..k])
  {
  }

  lemma BetweenAt(es: seq<Event>, a: nat, b: nat, i: nat)
    requires Ascending(es) && i < |Between(es, a, b)|
    ensures Between(es, a, b)[i] in es && a < Between(es, a, b)[i].position <= b
  {
    assert Between(es, a, b)[i] == es[Index(es, a) + i];
  }

  /** Independently of how it is computed: exactly the events in (a, b], in ascending order. */
  lemma BetweenMeans(es: seq<Event>, a: nat, b: nat)
    requires Ascending(es)
    ensures Ascending(Between(es, a, b))
    ensures forall e :: e in Between(es, a, b) <==> e in es && a < e.position <= b
  {
    if Index(es, a) <= Index(es, b) { SliceAscending(es, Index(es, a), Index(es, b)); }
    var between := Between(es, a, b);
    forall e ensures e in between <==> e in es && a < e.position <= b {
      if e in es && a < e.position <= b {
        var i :| 0 <= i < |es| && es[i] == e;
        BetweenHas(es, a, b, i);
      }
      if e in between {
        var i :| 0 <= i < |between| && between[i] == e;
        BetweenAt(es, a, b, i);
      }
    }
  }

  lemma BetweenHas(es: seq<Event>, a: nat, b: nat, i: nat)
    requires Ascending(es) && i < |es| && a < es[i].position <= b
    ensures es[i] in Between(es, a, b)
  {
    var j, k := Index(es, a), Index(es, b);
    assert j <= i < k;
    assert es[j..k][i - j] == es[i];
  }

  lemma BetweenJoins(es: seq<Event>, a: nat, b: nat, c: nat)
    requires Ascending(es) && a <= b <= c
    ensures Between(es, a, b) + Between(es, b, c) == Between(es, a, c)
  {
    IndexMonotone(es, a, b);
    IndexMonotone(es, b, c);
  }

  lemma IndexMonotone(es: seq<Event>, a: nat, b: nat)
    requires Ascending(es) && a <= b
    ensures Index(es, a) <= Index(es, b)
  {
    var k := Index(es, b);
    assert k < |es| ==> (es[k].position <= a <==> k < Index(es, a));
  }

  /** Appending never changes what lies at or before the old head. */
  lemma ExtensionKeeps(a: Log, b: Log, x: nat, y: nat)
    requires ValidLog(a) && ValidLog(b) && Extends(a, b) && y <= a.head
    ensures Between(b.events, x, y) == Between(a.events, x, y)
    ensures Newer(a.events, y) <= Newer(b.events, y)
  {
    IndexExtends(a, b, y);
    if x <= a.head {
      IndexExtends(a, b, x);
    } else {
      IndexMonotone(a.events, y, x);
      IndexMonotone(b.events, y, x);
    }
  }

  lemma IndexExtends(a: Log, b: Log, x: nat)
    requires ValidLog(a) && ValidLog(b) && Extends(a, b) && x <= a.head
    ensures Index(b.events, x) == Index(a.events, x)
  {
    forall i | 0 <= i < |b.events| ensures b.events[i].position <= x <==> i < Index(a.events, x) {
      if i < |a.events| { assert b.events[i] == a.events[i]; }
    }
    IndexUnique(b.events, x, Index(a.events, x));
  }

  // ---------------------------------------------------------------- snapshot

  function Total(es: seq<Event>): nat {
    if es == [] then 0 else |es[0].frame| + Total(es[1..])
  }

  /** The longest prefix within the budget: running sums only grow. */
  function Fitting(es: seq<Event>, budget: nat): seq<Event> {
    if es == [] || |es[0].frame| > budget then [] else [es[0]] + Fitting(es[1..], budget - |es[0].frame|)
  }

  function Prefix(es: seq<Event>, n: nat): seq<Event> {
    if |es| <= n then es else es[..n]
  }

  predicate CursorMatches(c: Cursor, workspace: string, l: Log) {
    && (c.workspace.Some? ==> c.workspace.value == workspace)
    && (c.generation.Some? ==> c.generation.value == l.generation)
    && l.floor <= c.after <= l.head
  }

  function AuditSnapshot(l: Log, workspace: string, denied: bool, c: Cursor, data: bool): Result<seq<Event>, StreamError> {
    var candidates := if data && !l.gated && CursorMatches(c, workspace, l) then Prefix(Newer(l.events, c.after), BATCH) else [];
    if denied then Err(Denied)
    else if l.gated || !CursorMatches(c, workspace, l) then Err(CursorExpired)
    else if candidates != [] && |candidates[0].frame| > STREAM_BYTES then Err(EventTooLarge)
    else Ok(Fitting(candidates, STREAM_BYTES))
  }

  /** The next event cannot be sent at all. */
  ghost predicate NextTooLarge(l: Log, after: nat) {
    Newer(l.events, after) != [] && |Newer(l.events, after)[0].frame| > STREAM_BYTES
  }

  /** The cursor is not one of this log: another Workspace, another generation, purged, or beyond the head. */
  ghost predicate Foreign(l: Log, workspace: string, c: Cursor) {
    || (c.workspace.Some? && c.workspace.value != workspace)
    || (c.generation.Some? && c.generation.value != l.generation)
    || c.after < l.floor || c.after > l.head
  }

  /** When a snapshot fails, and why: revoked access first, then a gated Workspace or a foreign cursor, then an oversized event. */
  lemma SnapshotFailsIff(l: Log, workspace: string, denied: bool, c: Cursor, data: bool)
    ensures var r := AuditSnapshot(l, workspace, denied, c, data);
      && (r == Err(Denied) <==> denied)
      && (r == Err(CursorExpired) <==> !denied && (l.gated || Foreign(l, workspace, c)))
      && (r == Err(EventTooLarge) <==> !denied && !l.gated && !Foreign(l, workspace, c) && data && NextTooLarge(l, c.after))
      && (r.Ok? <==> !denied && !l.gated && !Foreign(l, workspace, c) && !(data && NextTooLarge(l, c.after)))
      && (r.Ok? && !data ==> r.value == [])
  {
    var newer := Newer(l.events, c.after);
    assert newer != [] ==> Prefix(newer, BATCH) != [] && Prefix(newer, BATCH)[0] == newer[0];
  }

  /** The same, of a query that may fail or time out before it gets an answer. */
  function Fetched(reached: bool, l: Log, workspace: string, denied: bool, c: Cursor, data: bool): Result<seq<Event>, StreamError> {
    if reached then AuditSnapshot(l, workspace, denied, c, data) else Err(EventsUnavailable)
  }

  /** A query that gets through fails for the reasons a snapshot has; one that does not is unavailable. */
  lemma FetchFailsIff(reached: bool, l: Log, workspace: string, denied: bool, c: Cursor, data: bool)
    ensures var r := Fetched(reached, l, workspace, denied, c, data);
      && (r.Err? <==> !reached || denied || l.gated || Foreign(l, workspace, c) || (data && NextTooLarge(l, c.after)))
      && (r.Err? ==> r.error == if !reached then EventsUnavailable else if denied then Denied
                                else if l.gated || Foreign(l, workspace, c) then CursorExpired else EventTooLarge)
  {
    SnapshotFailsIff(l, workspace, denied, c, data);
  }

  lemma {:induction false} FittingPrefix(es: seq<Event>, budget: nat)
    ensures Fitting(es, budget) <= es && Total(Fitting(es, budget)) <= budget
    ensures es != [] && |es[0].frame| <= budget ==> Fitting(es, budget) != []
    ensures Fitting(es, budget) == es || Total(es[..|Fitting(es, budget)| + 1]) > budget
  {
    if es == [] || |es[0].frame| > budget {
      if es != [] { assert es[..1][1..] == []; }
    } else {
      var rest := budget - |es[0].frame|;
      FittingPrefix(es[1..], rest);
      var f := Fitting(es[1..], rest);
      assert Fitting(es, budget)[1..] == f;
      if f != es[1..] { assert es[..|f| + 2][1..] == es[1..][..|f| + 1]; }
    }
  }

  /**
   * A successful data snapshot holds the next events after the cursor, without a gap, within the byte
   * bound, and it is empty only when there is no newer event.
   */
  lemma SnapshotIsNext(l: Log, workspace: string, denied: bool, c: Cursor)
    requires ValidLog(l) && AuditSnapshot(l, workspace, denied, c, true).Ok?
    ensures var batch := AuditSnapshot(l, workspace, denied, c, true).value;
      && batch <= Newer(l.events, c.after)
      && Total(batch) <= STREAM_BYTES && |batch| <= BATCH
      && (batch == [] <==> Between(l.events, c.after, l.head) == [])
      && CursorMatches(c, workspace, l) && !l.gated
  {
    var newer := Newer(l.events, c.after);
    var candidates := Prefix(newer, BATCH);
    FittingPrefix(candidates, STREAM_BYTES);
    forall i | 0 <= i < |l.events| ensures l.events[i].position <= l.head { assert l.events[i] in l.events; }
    IndexUnique(l.events, l.head, |l.events|);
  }
}

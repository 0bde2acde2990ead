/**
The two loops that reclaim blobs, under the Workspace cursor: the sweep over stored objects
(apps/server/blobs/sweep-blobs.ts) and the purge of expired rows (apps/server/retention/purge-payloads.ts).
*/
module BlobCleanup {
  import opened Wrappers
  import opened Content
  import opened BlobProtocol

  /** What happens to one listed object: the deadline has passed, its evidence query or its removal fails, or nothing. */
  datatype Fate = Late | NoEvidence | RemoveFails(gone: bool) | Fine

  /** Nothing in the database needs the object. */
  predicate Unneeded(rows: map<Id, Row>, retained: map<Ref, Stamp>, ref: Ref) {
    !(!ref.staging && ref.id in rows) && ref !in retained
  }

  predicate Expired(rows: map<Id, Row>, now: int, id: Id) {
    id in rows && rows[id].expiresAt <= now
  }

  /** ORDER BY expires_at, id */
  predicate Earlier(rows: map<Id, Row>, a: Id, b: Id)
    requires a in rows && b in rows
  {
    rows[a].expiresAt < rows[b].expiresAt || (rows[a].expiresAt == rows[b].expiresAt && a < b)
  }

  /** The first expired rows, at most `limit` of them. */
  ghost predicate Page(ids: seq<Id>, rows: map<Id, Row>, now: int, limit: nat) {
    && |ids| <= limit
    && (forall i :: 0 <= i < |ids| ==> Expired(rows, now, ids[i]))
    && (forall i, j :: 0 <= i < j < |ids| ==> Earlier(rows, ids[i], ids[j]))
    && (forall k :: Expired(rows, now, k) && k !in ids ==> |ids| == limit && forall i :: 0 <= i < |ids| ==> Earlier(rows, ids[i], k))
  }

  /** The object could not be dealt with: the deadline, no evidence, or a removal that failed. */
  predicate Fails(rows: map<Id, Row>, retained: map<Ref, Stamp>, ref: Ref, fate: Fate) {
    fate.Late? || fate.NoEvidence? || (fate.RemoveFails? && (ref.staging || ref.id !in rows) && ref !in retained)
  }

  /** The places before `n` in the listing whose objects are removed without a failure. */
  function Removed(rows: map<Id, Row>, retained: map<Ref, Stamp>, refs: seq<Ref>, fates: seq<Fate>, n: nat): set<nat>
    requires n <= |fates| == |refs|
  {
    set j | 0 <= j < n && fates[j].Fine? && (refs[j].staging || refs[j].id !in rows) && refs[j] !in retained
  }

  /** The sweep gets as far as the deadline. */
  ghost predicate Reaches(fates: seq<Fate>, n: nat) {
    n <= |fates| && (forall i :: 0 <= i < n ==> !fates[i].Late?) && (n < |fates| ==> fates[n].Late?)
  }

  lemma OneMore(rows: map<Id, Row>, retained: map<Ref, Stamp>, refs: seq<Ref>, fates: seq<Fate>, n: nat)
    requires n < |fates| == |refs|
    ensures |Removed(rows, retained, refs, fates, n + 1)| == |Removed(rows, retained, refs, fates, n)|
          + if fates[n].Fine? && Unneeded(rows, retained, refs[n]) then 1 else 0
  {
    assert Removed(rows, retained, refs, fates, n + 1) == Removed(rows, retained, refs, fates, n)
         + if fates[n].Fine? && Unneeded(rows, retained, refs[n]) then {n} else {};
  }

  class Storage {
    var rows: map<Id, Row>
    var objects: map<Ref, Bytes>
    var retained: map<Ref, Stamp>
    var removals: seq<nat>  // the row counts of the blob.cleanup events
    var deletions: seq<Id>  // the blob.delete events

    constructor (rows: map<Id, Row>, objects: map<Ref, Bytes>, retained: map<Ref, Stamp>)
      ensures this.rows == rows && this.objects == objects && this.retained == retained && removals == [] && deletions == []
    {
      this.rows, this.objects, this.retained, removals, deletions := rows, objects, retained, [], [];
    }

    /**
     * Remove the listed objects that nothing needs. What the database needs is never removed, and a sweep that
     * does not ask to be run again has removed all the rest.
     */
    method SweepBlobs(gate: Option<bool>, refs: seq<Ref>, fates: seq<Fate>) returns (pending: bool)
      requires |fates| == |refs|
      modifies `objects, `removals
      ensures gate != Some(false) ==> pending && objects == old(objects) && removals == old(removals)
      ensures forall r :: r in objects ==> r in old(objects) && objects[r] == old(objects)[r]
      ensures forall r :: r in old(objects) && r !in objects ==> r in refs && (r.staging || r.id !in rows) && r !in retained
      ensures gate == Some(false) && !pending ==>
        forall r :: r in refs && (r.staging || r.id !in rows) && r !in retained ==> r !in objects
      ensures gate == Some(false) ==> (pending <==> exists j :: 0 <= j < |refs| && Fails(rows, retained, refs[j], fates[j]))
      ensures gate == Some(false) ==>
        exists n :: Reaches(fates, n) &&
          var removed := |Removed(rows, retained, refs, fates, n)|; removals == old(removals) + (if removed > 0 then [removed] else [])
    {
      if gate != Some(false) { return true; }
      var removed, i := 0, 0;
      pending := false;
      while i < |refs| && !fates[i].Late?
        invariant 0 <= i <= |refs| && removals == old(removals)
        invariant forall r :: r in objects ==> r in old(objects) && objects[r] == old(objects)[r]
        invariant forall r :: r in old(objects) && r !in objects ==> r in refs && Unneeded(rows, retained, r)
        invariant !pending ==> forall j :: 0 <= j < i && Unneeded(rows, retained, refs[j]) ==> refs[j] !in objects
        invariant pending <==> exists j :: 0 <= j < i && Fails(rows, retained, refs[j], fates[j])
        invariant removed == |Removed(rows, retained, refs, fates, i)| && forall j :: 0 <= j < i ==> !fates[j].Late?
        decreases |refs| - i
      {
        var ref := refs[i];
        OneMore(rows, retained, refs, fates, i);
        if fates[i].NoEvidence? {
          pending := true;
        } else if Unneeded(rows, retained, ref) {
          if fates[i].RemoveFails? {
            if fates[i].gone { objects := objects - {ref}; }
            pending := true;
          } else {
            objects, removed := objects - {ref}, removed + 1;
          }
        }
        i := i + 1;
      }
      assert Reaches(fates, i);
      if i < |refs| {
        assert Fails(rows, retained, refs[i], fates[i]);
        pending := true;
      }
      if removed > 0 { removals := removals + [removed]; }
    }

    /**
     * Delete the rows that expired first, as many as remain in the batch; `expired` is what the query returned,
     * one more than that.
     */
    method PurgeExpired(now: int, remaining: nat, expired: seq<Id>, more: bool) returns (ids: seq<Id>, hasMore: bool)
      requires Page(expired, rows, now, remaining + 1)
      modifies `rows, `deletions
      ensures |ids| <= remaining && deletions == old(deletions) + ids
      ensures forall k :: k in rows <==> k in old(rows) && k !in ids
      ensures forall k :: k in rows ==> rows[k] == old(rows)[k]
      ensures forall k :: k in ids ==> k in old(rows) && old(rows)[k].expiresAt <= now
      ensures forall k, d :: d in ids && k in rows && rows[k].expiresAt <= now ==>
        d in old(rows) && (old(rows)[d].expiresAt < rows[k].expiresAt || (old(rows)[d].expiresAt == rows[k].expiresAt && d < k))
      ensures |ids| < remaining ==> forall k :: k in rows ==> rows[k].expiresAt > now
      ensures hasMore <==> more || exists k :: k in rows && rows[k].expiresAt <= now
    {
      ids := if |expired| <= remaining then expired else expired[..remaining];
      var i := 0;
      while i < |ids|
        invariant 0 <= i <= |ids| && deletions == old(deletions) + ids[..i]
        invariant forall k :: k in rows <==> k in old(rows) && k !in ids[..i]
        invariant forall k :: k in rows ==> rows[k] == old(rows)[k]
      {
        rows := rows - {ids[i]};
        deletions := deletions + [ids[i]];
        assert ids[..i + 1] == ids[..i] + [ids[i]];
        i := i + 1;
      }
      assert ids[..i] == ids;
      hasMore := more || |expired| > remaining;
      PageSplit(expired, old(rows), now, remaining, ids);
      assert forall k :: Expired(rows, now, k) <==> Expired(old(rows), now, k) && k !in ids;
      assert forall k :: Expired(rows, now, k) <==> k in rows && rows[k].expiresAt <= now;
    }
  }

  /** What lies beyond the batch. */
  lemma PageSplit(expired: seq<Id>, rows: map<Id, Row>, now: int, remaining: nat, ids: seq<Id>)
    requires Page(expired, rows, now, remaining + 1) && ids == if |expired| <= remaining then expired else expired[..remaining]
    ensures |expired| > remaining <==> exists k :: Expired(rows, now, k) && k !in ids
    ensures forall k, d :: d in ids && Expired(rows, now, k) && k !in ids ==> d in rows && Earlier(rows, d, k)
  {
    if |expired| > remaining {
      var last := expired[remaining];
      assert Expired(rows, now, last);
      forall i | 0 <= i < remaining ensures ids[i] != last { assert Earlier(rows, expired[i], expired[remaining]); }
    }
    forall k, d | d in ids && Expired(rows, now, k) && k !in ids ensures d in rows && Earlier(rows, d, k) {
      var i :| 0 <= i < |ids| && ids[i] == d;
      assert expired[i] == d && Expired(rows, now, expired[i]);
      if k in expired {
        var j :| 0 <= j < |expired| && expired[j] == k;
        assert i < j;
      }
    }
  }
}

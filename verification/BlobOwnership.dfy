/** Whose rows may be deleted, where rows come from, and what a gated Workspace is spared. */
module BlobOwnership {
  import opened Wrappers
  import opened Content
  import opened BlobProtocol
  import opened BlobSafety
  import opened BlobRuns
  import opened BlobHistory

  // ---------------------------------------------------------------- the right to delete

  /** A deletion reads the row it is to delete: it was asked for by a User, or by the Principal that owns the row. */
  predicate ReadsOwn(s: Sys, c: Client, l: Label, id: Id, t: TxId) {
    && l.DeleteRead? && OpOf(s, c).Deleting? && OpOf(s, c).id == id && OpOf(s, c).tx == t
    && id in s.rows && (OpOf(s, c).caller.None? || OpOf(s, c).caller.value == s.rows[id].owner)
  }

  /** A purge selects the row because it has expired. */
  predicate SelectsExpired(s: Sys, c: Client, l: Label, id: Id, t: TxId) {
    && l.PurgeSelect? && OpOf(s, c).Purging? && OpOf(s, c).tx == t
    && id in l.ids && id in s.rows && s.rows[id].expiresAt <= s.now
  }

  /** Somebody with the right to do so scheduled the deletion of `id` in transaction `a`, over the same rows. */
  ghost predicate ByRight(ss: seq<Sys>, cs: seq<Client>, ls: seq<Label>, j: nat, id: Id, a: (Client, TxId))
    requires IsRun(ss, cs, ls) && j < |ss|
  {
    exists k :: 0 <= k < j && RightAt(ss, cs, ls, k, id, a) && ss[k].rows == ss[j].rows
  }

  ghost predicate RightAt(ss: seq<Sys>, cs: seq<Client>, ls: seq<Label>, k: nat, id: Id, a: (Client, TxId))
    requires IsRun(ss, cs, ls) && k < |ls|
  {
    cs[k] == a.0 && (ReadsOwn(ss[k], a.0, ls[k], id, a.1) || SelectsExpired(ss[k], a.0, ls[k], id, a.1))
  }

  ghost predicate Scheduled(s: Sys, id: Id, a: (Client, TxId)) {
    s.tx.Some? && id in s.tx.value.deletes && a == (s.tx.value.owner, s.tx.value.id)
  }

  /** A step that schedules a deletion does so by right; any other leaves transaction and rows alone or ends the transaction. */
  lemma StepSchedules(s: Sys, c: Client, l: Label, t: Sys, id: Id, a: (Client, TxId))
    requires Step(s, c, l) == Some(t) && Scheduled(t, id, a)
    ensures t.rows == s.rows
    ensures Scheduled(s, id, a) || (c == a.0 && (ReadsOwn(s, c, l, id, a.1) || SelectsExpired(s, c, l, id, a.1)))
  {
    hide ClientMove, ReadsOwn, SelectsExpired;
    if !IsEnvironment(l) {
      var m := ClientMove(s, c, l).value;
      MoveChanges(s, c, m);
      if m.effect.DeleteRows? { MoveSchedules(s, c, l, m, id); }
    }
  }

  /** Apart from the commit, nothing touches the rows, and only deletions of rows touch the scheduled ones. */
  ghost predicate Changes(s: Sys, e: Effect, t: Sys) {
    && t.rows == s.rows
    && (t.tx.Some? && !e.DeleteRows? && t.tx.value.deletes != {} ==>
          s.tx.Some? && t.tx.value.deletes == s.tx.value.deletes
          && t.tx.value.owner == s.tx.value.owner && t.tx.value.id == s.tx.value.id)
    && (t.tx.Some? && e.DeleteRows? ==> s.tx.Some? && t.tx.value == s.tx.value.(deletes := e.ids))
  }

  lemma PerformChanges(s: Sys, c: Client, e: Effect)
    ensures Changes(s, e, Perform(s, c, e))
  {
  }

  lemma MoveChanges(s: Sys, c: Client, m: Move)
    ensures Changes(s, m.effect, Moved(s, c, m))
  {
    hide Perform, Moved;
    PerformChanges(s, c, m.effect);
    MovedFrame(s, c, m);
  }

  lemma MoveSchedules(s: Sys, c: Client, l: Label, m: Move, id: Id)
    requires ClientMove(s, c, l) == Some(m) && m.effect.DeleteRows? && id in m.effect.ids
    ensures s.tx.Some? && s.tx.value.owner == c
    ensures ReadsOwn(s, c, l, id, s.tx.value.id) || SelectsExpired(s, c, l, id, s.tx.value.id)
  {
    hide RefsOf, KeyFree;
    if IsDelete(l) {
      hide PurgeMove, RecheckMove, SweepMove, CloseMove, PutMove;
    } else if IsPurge(l) {
      hide DeleteMove, RecheckMove, SweepMove, CloseMove, PutMove;
    } else {
      OtherMovesDeleteNothing(s, c, l, m);
    }
  }

  lemma OtherMovesDeleteNothing(s: Sys, c: Client, l: Label, m: Move)
    requires ClientMove(s, c, l) == Some(m) && !IsDelete(l) && !IsPurge(l)
    ensures !m.effect.DeleteRows?
  {
    hide RefsOf, KeyFree, Open, OpOf;
  }

  lemma {:induction false} ScheduledByRight(ss: seq<Sys>, cs: seq<Client>, ls: seq<Label>, j: nat, id: Id, a: (Client, TxId))
    requires IsRun(ss, cs, ls) && j < |ss| && Scheduled(ss[j], id, a)
    ensures ByRight(ss, cs, ls, j, id, a)
  {
    assert j > 0;
    assert StepAt(ss, cs, ls, j - 1);
    hide Step, Init, ReadsOwn, SelectsExpired;
    StepSchedules(ss[j - 1], cs[j - 1], ls[j - 1], ss[j], id, a);
    if Scheduled(ss[j - 1], id, a) {
      ScheduledByRight(ss, cs, ls, j - 1, id, a);
      var k :| 0 <= k < j - 1 && RightAt(ss, cs, ls, k, id, a) && ss[k].rows == ss[j - 1].rows;
    } else {
      assert RightAt(ss, cs, ls, j - 1, id, a);
    }
  }

  /**
   * A row leaves only because the server commits a transaction in which somebody read that very row and had the right
   * to delete it - a User, its owner, or a purge after it had expired.
   */
  lemma RowsLeaveByRight(ss: seq<Sys>, cs: seq<Client>, ls: seq<Label>, i: nat, id: Id)
    requires IsRun(ss, cs, ls) && i + 1 < |ss| && id in ss[i].rows && id !in ss[i + 1].rows
    ensures ls[i].ServerCommit? && ss[i].tx.Some? && ss[i].tx.value.commitSent
    ensures ByRight(ss, cs, ls, i, id, (ss[i].tx.value.owner, ss[i].tx.value.id))
  {
    assert StepAt(ss, cs, ls, i);
    OnlyCommitsRemoveRows(ss[i], cs[i], ls[i], ss[i + 1], id);
    ScheduledByRight(ss, cs, ls, i, id, (ss[i].tx.value.owner, ss[i].tx.value.id));
  }

  lemma OnlyCommitsRemoveRows(s: Sys, c: Client, l: Label, t: Sys, id: Id)
    requires Step(s, c, l) == Some(t) && id in s.rows && id !in t.rows
    ensures l.ServerCommit? && s.tx.Some? && s.tx.value.commitSent && id in s.tx.value.deletes
  {
    hide ClientMove;
    if !IsEnvironment(l) { MoveChanges(s, c, ClientMove(s, c, l).value); }
  }

  /** Conversely, while its transaction is open a deletion goes through for a User and for the owner, and for nobody else. */
  lemma DeletionIsDecidedByOwner(s: Sys, c: Client, id: Id, caller: Option<nat>, t: TxId)
    requires OpOf(s, c) == Deleting(id, caller, t, ToRead) && Open(s, c, t)
    ensures var u := Step(s, c, DeleteRead);
      && u.Some?
      && if id in s.rows && (caller.None? || caller.value == s.rows[id].owner)
         then u.value.tx == Some(s.tx.value.(deletes := {id})) && OpOf(u.value, c) == Deleting(id, caller, t, ToSendDelete)
         else u.value.tx == s.tx && OpOf(u.value, c) == Closing(t, Return(DeleteRefused(id)), Return(DeleteRefused(id)))
  {
  }

  // ---------------------------------------------------------------- where rows come from

  /** Client `c` binds transaction `t` for an upload of `id` that is to have this row and these bytes. */
  predicate Uploads(s: Sys, l: Label, id: Id, row: Row, bytes: Bytes, t: TxId) {
    l.PutBind? && l.id == id && l.bytes == bytes && row == Row(l.key, StampOf(bytes), l.owner, l.expiresAt) && t == s.nextTx
  }

  ghost predicate UploadBegan(ss: seq<Sys>, cs: seq<Client>, ls: seq<Label>, j: nat, c: Client, id: Id, row: Row, bytes: Bytes, t: TxId)
    requires IsRun(ss, cs, ls) && j < |ss|
  {
    exists k :: 0 <= k < j && cs[k] == c && Uploads(ss[k], ls[k], id, row, bytes, t)
  }

  /** An upload goes on with what it was bound with. */
  lemma StepUploads(s: Sys, c: Client, l: Label, t: Sys, d: Client)
    requires Step(s, c, l) == Some(t) && OpOf(t, d).Putting?
    ensures var op, was := OpOf(t, d), OpOf(s, d);
      || (was.Putting? && op == was.(put := op.put))
      || (c == d && Uploads(s, l, op.id, op.row, op.bytes, op.tx))
  {
    hide ClientMove, OpOf, Step;
    StepOps(s, c, l, t);
    if !IsEnvironment(l) && c == d { MoveUploads(s, c, l, ClientMove(s, c, l).value); }
  }

  /** Which moves lead into an upload or a sweep, and which insert, write or drop something. */
  lemma MoveKinds(s: Sys, c: Client, l: Label, m: Move)
    requires ClientMove(s, c, l) == Some(m)
    ensures (m.Goto? && m.op.Putting?) || m.effect.Insert? || m.effect.WriteFinal? ==> PutMove(s, c, OpOf(s, c), l) == Some(m)
    ensures m.effect.Drop? ==> SweepMove(s, c, OpOf(s, c), l) == Some(m)
    ensures m.Goto? && m.op.Sweeping? ==>
      RecheckMove(s, c, OpOf(s, c), l) == Some(m) || SweepMove(s, c, OpOf(s, c), l) == Some(m)
  {
    hide PutMove, RecheckMove, DeleteMove, PurgeMove, SweepMove, CloseMove, OpOf;
    var op := OpOf(s, c);
    if IsRecheck(l) { RecheckKinds(s, c, op, l, m); }
    else if IsDelete(l) { DeleteKinds(s, c, op, l, m); }
    else if IsPurge(l) { PurgeKinds(s, c, op, l, m); }
    else if IsSweep(l) { SweepKinds(s, c, op, l, m); }
    else if IsClose(l) { CloseKinds(s, c, op, l, m); }
    else { PutKinds(s, c, op, l, m); }
  }

  /** The move leads into no upload, and inserts or writes nothing. */
  predicate NoUpload(m: Move) {
    !(m.Goto? && m.op.Putting?) && !m.effect.Insert? && !m.effect.WriteFinal?
  }

  predicate NoSweep(m: Move) {
    !m.effect.Drop? && !(m.Goto? && m.op.Sweeping?)
  }

  lemma RecheckKinds(s: Sys, c: Client, op: Op, l: Label, m: Move)
    requires RecheckMove(s, c, op, l) == Some(m)
    ensures NoUpload(m) && !m.effect.Drop?
  {
  }

  lemma DeleteKinds(s: Sys, c: Client, op: Op, l: Label, m: Move)
    requires DeleteMove(s, c, op, l) == Some(m)
    ensures NoUpload(m) && NoSweep(m)
  {
  }

  lemma PurgeKinds(s: Sys, c: Client, op: Op, l: Label, m: Move)
    requires PurgeMove(s, c, op, l) == Some(m)
    ensures NoUpload(m) && NoSweep(m)
  {
  }

  lemma SweepKinds(s: Sys, c: Client, op: Op, l: Label, m: Move)
    requires SweepMove(s, c, op, l) == Some(m)
    ensures NoUpload(m)
  {
  }

  lemma CloseKinds(s: Sys, c: Client, op: Op, l: Label, m: Move)
    requires CloseMove(s, c, op, l) == Some(m)
    ensures NoUpload(m) && NoSweep(m)
  {
  }

  lemma PutKinds(s: Sys, c: Client, op: Op, l: Label, m: Move)
    requires PutMove(s, c, op, l) == Some(m)
    ensures NoSweep(m)
  {
  }

  lemma MoveUploads(s: Sys, c: Client, l: Label, m: Move)
    requires ClientMove(s, c, l) == Some(m) && m.Goto? && m.op.Putting?
    ensures var op, was := m.op, OpOf(s, c);
      || (was.Putting? && op == was.(put := op.put))
      || Uploads(s, l, op.id, op.row, op.bytes, op.tx)
  {
    hide ClientMove, KeyFree, Open, OpOf;
    MoveKinds(s, c, l, m);
  }

  lemma {:induction false} UploadingBegan(ss: seq<Sys>, cs: seq<Client>, ls: seq<Label>, j: nat, c: Client)
    requires IsRun(ss, cs, ls) && j < |ss| && OpOf(ss[j], c).Putting?
    ensures var op := OpOf(ss[j], c); UploadBegan(ss, cs, ls, j, c, op.id, op.row, op.bytes, op.tx)
  {
    var op := OpOf(ss[j], c);
    assert j > 0;
    assert StepAt(ss, cs, ls, j - 1);
    hide Step, Init, Uploads, OpOf;
    StepUploads(ss[j - 1], cs[j - 1], ls[j - 1], ss[j], c);
    if !(cs[j - 1] == c && Uploads(ss[j - 1], ls[j - 1], op.id, op.row, op.bytes, op.tx)) {
      UploadingBegan(ss, cs, ls, j - 1, c);
      var k :| 0 <= k < j - 1 && cs[k] == c && Uploads(ss[k], ls[k], op.id, op.row, op.bytes, op.tx);
    }
  }

  /** The open transaction is to insert `row` for `id`. */
  ghost predicate Inserts(s: Sys, id: Id, row: Row) {
    s.tx.Some? && s.tx.value.upload == Some(id) && s.tx.value.insert == Some(row)
  }

  /** A row is inserted by the upload that the transaction was bound for. */
  lemma StepInserts(s: Sys, c: Client, l: Label, t: Sys, id: Id, row: Row)
    requires Inv(s) && Step(s, c, l) == Some(t) && Inserts(t, id, row)
    ensures t.rows == s.rows
    ensures
      || (Inserts(s, id, row) && t.tx.value.owner == s.tx.value.owner && t.tx.value.id == s.tx.value.id)
      || (OpOf(s, c).Putting? && OpOf(s, c).id == id && OpOf(s, c).row == row
          && t.tx.value.owner == c && t.tx.value.id == OpOf(s, c).tx)
  {
    hide ClientMove, Shared, UploadsDistinct;
    if !IsEnvironment(l) {
      var m := ClientMove(s, c, l).value;
      PerformInserts(s, c, m.effect);
      MovedFrame(s, c, m);
      if m.effect.Insert? { MoveInserts(s, c, l, m); }
    }
  }

  ghost predicate InsertChanges(s: Sys, e: Effect, t: Sys) {
    && t.rows == s.rows
    && (t.tx.Some? && !e.Bind? ==>
          s.tx.Some? && t.tx.value.upload == s.tx.value.upload && t.tx.value.owner == s.tx.value.owner
          && t.tx.value.id == s.tx.value.id
          && t.tx.value.insert == if e.Insert? then Some(e.row) else s.tx.value.insert)
    && (e.Bind? ==> t.tx.Some? && t.tx.value.insert.None?)
  }

  lemma PerformInserts(s: Sys, c: Client, e: Effect)
    ensures InsertChanges(s, e, Perform(s, c, e))
  {
  }

  lemma MoveInserts(s: Sys, c: Client, l: Label, m: Move)
    requires Inv(s) && ClientMove(s, c, l) == Some(m) && m.effect.Insert?
    ensures OpOf(s, c).Putting? && OpOf(s, c).row == m.effect.row && Open(s, c, OpOf(s, c).tx)
    ensures s.tx.value.upload == Some(OpOf(s, c).id)
  {
    hide ClientMove, PutMove, Shared, UploadsDistinct;
    assert OpSound(s, c, OpOf(s, c));
    MoveKinds(s, c, l, m);
    PutWrites(s, c, OpOf(s, c), l, m);
  }

  lemma PutWrites(s: Sys, c: Client, op: Op, l: Label, m: Move)
    requires PutMove(s, c, op, l) == Some(m)
    ensures m.effect.Insert? ==> op.Putting? && op.row == m.effect.row && Open(s, c, op.tx)
    ensures m.effect.WriteFinal? ==> (l.PutPromote? || l.PutPromoteFault?) && op.Putting? && op.id == m.effect.id
  {
    hide KeyFree;
  }

  ghost predicate InsertBegan(ss: seq<Sys>, cs: seq<Client>, ls: seq<Label>, j: nat, id: Id, row: Row, c: Client, t: TxId)
    requires IsRun(ss, cs, ls) && j < |ss|
  {
    exists bytes :: UploadBegan(ss, cs, ls, j, c, id, row, bytes, t)
  }

  lemma {:induction false} InsertedBegan(ss: seq<Sys>, cs: seq<Client>, ls: seq<Label>, j: nat, id: Id, row: Row)
    requires IsRun(ss, cs, ls) && j < |ss| && Inserts(ss[j], id, row)
    ensures InsertBegan(ss, cs, ls, j, id, row, ss[j].tx.value.owner, ss[j].tx.value.id)
  {
    assert j > 0;
    assert StepAt(ss, cs, ls, j - 1);
    hide Step, Init, Inv, Uploads, OpOf;
    RunKeeps(ss, cs, ls, j - 1);
    var s, c, x := ss[j - 1], ss[j].tx.value.owner, ss[j].tx.value.id;
    StepInserts(s, cs[j - 1], ls[j - 1], ss[j], id, row);
    var bytes: Bytes;
    if Inserts(s, id, row) && c == s.tx.value.owner && x == s.tx.value.id {
      InsertedBegan(ss, cs, ls, j - 1, id, row);
      bytes :| UploadBegan(ss, cs, ls, j - 1, c, id, row, bytes, x);
    } else {
      UploadingBegan(ss, cs, ls, j - 1, c);
      bytes := OpOf(s, c).bytes;
    }
    var k :| 0 <= k < j - 1 && cs[k] == c && Uploads(ss[k], ls[k], id, row, bytes, x);
    assert UploadBegan(ss, cs, ls, j, c, id, row, bytes, x);
  }

  /**
   * A row appears only because the server commits the transaction of an upload that was bound for this id, and it holds
   * exactly the key, the size and hash, the owner and the expiry of that upload. A row that is there never changes.
   */
  lemma RowsComeFromUploads(ss: seq<Sys>, cs: seq<Client>, ls: seq<Label>, i: nat, id: Id)
    requires IsRun(ss, cs, ls) && i + 1 < |ss| && id in ss[i + 1].rows
    ensures id in ss[i].rows ==> ss[i + 1].rows[id] == ss[i].rows[id]
    ensures id !in ss[i].rows ==> ls[i].ServerCommit? && ss[i].tx.Some? && ss[i].tx.value.commitSent
    ensures id !in ss[i].rows ==>
      InsertBegan(ss, cs, ls, i, id, ss[i + 1].rows[id], ss[i].tx.value.owner, ss[i].tx.value.id)
  {
    assert StepAt(ss, cs, ls, i);
    RunKeeps(ss, cs, ls, i);
    hide Init;
    OnlyCommitsAddRows(ss[i], cs[i], ls[i], ss[i + 1], id);
    if id !in ss[i].rows { InsertedBegan(ss, cs, ls, i, id, ss[i + 1].rows[id]); }
  }

  lemma OnlyCommitsAddRows(s: Sys, c: Client, l: Label, t: Sys, id: Id)
    requires Inv(s) && Step(s, c, l) == Some(t) && id in t.rows
    ensures id in s.rows ==> t.rows[id] == s.rows[id]
    ensures id !in s.rows ==> l.ServerCommit? && s.tx.Some? && s.tx.value.commitSent && Inserts(s, id, t.rows[id])
  {
    hide ClientMove, OpsSound, UploadsDistinct, OutcomesHonest, RetainedKept, KeysUnique;
    if !IsEnvironment(l) { MoveChanges(s, c, ClientMove(s, c, l).value); }
  }

  // ---------------------------------------------------------------- what a gated Workspace is spared

  /** A sweep in transaction `t` learns what it is to look at, while the gate is down. */
  predicate SweepsUngated(s: Sys, c: Client, l: Label, t: TxId) {
    && !s.gateActive
    && ((l.CleanBind? && OpOf(s, c).ToClean? && t == s.nextTx)
        || (l.RecheckRead? && OpOf(s, c).Rechecking? && t == OpOf(s, c).tx && OpOf(s, c).id !in s.rows))
  }

  ghost predicate UngatedBefore(ss: seq<Sys>, cs: seq<Client>, ls: seq<Label>, j: nat, c: Client, t: TxId)
    requires IsRun(ss, cs, ls) && j < |ss|
  {
    exists k :: 0 <= k < j && cs[k] == c && SweepsUngated(ss[k], c, ls[k], t)
  }

  /** The sweep has an object in hand or ahead of it. */
  predicate Threatens(op: Op) {
    op.Sweeping? && (op.hold.Some? || op.refs != [])
  }

  lemma MoveThreatens(s: Sys, c: Client, l: Label, m: Move)
    requires ClientMove(s, c, l) == Some(m) && m.Goto? && Threatens(m.op)
    ensures (Threatens(OpOf(s, c)) && OpOf(s, c).tx == m.op.tx) || SweepsUngated(s, c, l, m.op.tx)
  {
    hide ClientMove, RefsOf, Open, OpOf;
    MoveKinds(s, c, l, m);
  }

  lemma {:induction false} ThreatsAreUngated(ss: seq<Sys>, cs: seq<Client>, ls: seq<Label>, j: nat, c: Client)
    requires IsRun(ss, cs, ls) && j < |ss| && Threatens(OpOf(ss[j], c))
    ensures UngatedBefore(ss, cs, ls, j, c, OpOf(ss[j], c).tx)
  {
    assert j > 0;
    assert StepAt(ss, cs, ls, j - 1);
    hide Step, Init, OpOf, ClientMove, SweepsUngated;
    var s, d, l, x := ss[j - 1], cs[j - 1], ls[j - 1], OpOf(ss[j], c).tx;
    StepOps(s, d, l, ss[j]);
    if !IsEnvironment(l) && c == d { MoveThreatens(s, c, l, ClientMove(s, c, l).value); }
    if !(c == d && SweepsUngated(s, c, l, x)) {
      ThreatsAreUngated(ss, cs, ls, j - 1, c);
      var k :| 0 <= k < j - 1 && cs[k] == c && SweepsUngated(ss[k], c, ls[k], x);
    }
  }

  /** The client drops the object it holds. */
  predicate Removes(s: Sys, c: Client, l: Label, r: Ref) {
    (l.SweepRemove? || l == SweepRemoveFault(true)) && OpOf(s, c).Sweeping? && OpOf(s, c).hold == Some(r)
  }

  lemma OnlySweepsRemove(s: Sys, c: Client, l: Label, t: Sys, r: Ref)
    requires Step(s, c, l) == Some(t) && Stored(s, r).Some? && Stored(t, r).None?
    ensures !IsEnvironment(l)
    ensures Removes(s, c, l, r)
         || (r.staging && (l.PutPromote? || l.PutPromoteFault?) && OpOf(s, c).Putting? && OpOf(s, c).id == r.id && r.id in t.final)
  {
    hide ClientMove;
    var m := ClientMove(s, c, l).value;
    PerformRemoves(s, c, m.effect, r);
    MovedFrame(s, c, m);
    MoveRemoves(s, c, l, m);
  }

  lemma PerformRemoves(s: Sys, c: Client, e: Effect, r: Ref)
    requires Stored(s, r).Some? && Stored(Perform(s, c, e), r).None?
    ensures e == Drop(r) || (e.WriteFinal? && r == Ref(e.id, true) && r.id in Perform(s, c, e).final)
  {
  }

  lemma MoveRemoves(s: Sys, c: Client, l: Label, m: Move)
    requires ClientMove(s, c, l) == Some(m)
    ensures m.effect.Drop? ==> Removes(s, c, l, m.effect.ref)
    ensures m.effect.WriteFinal? ==> (l.PutPromote? || l.PutPromoteFault?) && OpOf(s, c).Putting? && OpOf(s, c).id == m.effect.id
  {
    hide ClientMove, PutMove, SweepMove, OpOf;
    MoveKinds(s, c, l, m);
    if m.effect.Drop? { SweepDrops(s, c, OpOf(s, c), l, m); }
    if m.effect.WriteFinal? { PutWrites(s, c, OpOf(s, c), l, m); }
  }

  lemma SweepDrops(s: Sys, c: Client, op: Op, l: Label, m: Move)
    requires SweepMove(s, c, op, l) == Some(m) && m.effect.Drop?
    ensures (l.SweepRemove? || l == SweepRemoveFault(true)) && op.Sweeping? && op.hold == Some(m.effect.ref)
  {
    hide RefsOf, Open;
  }

  /**
   * Apart from a staged copy that its own upload turns into the final object, a stored object disappears only in a sweep
   * that began while the gate was down. While the gate is up no new sweep endangers anything.
   */
  lemma BytesLeaveOnlyUngated(ss: seq<Sys>, cs: seq<Client>, ls: seq<Label>, i: nat, r: Ref)
    requires IsRun(ss, cs, ls) && i + 1 < |ss| && Stored(ss[i], r).Some? && Stored(ss[i + 1], r).None?
    ensures var op := OpOf(ss[i], cs[i]);
      || (op.Sweeping? && op.hold == Some(r) && UngatedBefore(ss, cs, ls, i, cs[i], op.tx))
      || (r.staging && op.Putting? && op.id == r.id && r.id in ss[i + 1].final)
  {
    assert StepAt(ss, cs, ls, i);
    hide Step, Init, Stored;
    OnlySweepsRemove(ss[i], cs[i], ls[i], ss[i + 1], r);
    if Removes(ss[i], cs[i], ls[i], r) { ThreatsAreUngated(ss, cs, ls, i, cs[i]); }
  }
}

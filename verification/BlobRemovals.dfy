/** The results of deletions and purges: undisturbed, without the right to, aborted, or with an answer that was lost. */
module BlobRemovals {
  import opened Wrappers
  import opened BlobProtocol
  import opened BlobCalls

  /** The row is there, and a User or the Principal that owns it asks. */
  predicate MayDelete(s: Sys, id: Id, caller: Option<nat>) {
    id in s.rows && (caller.None? || caller.value == s.rows[id].owner)
  }

  /** Client `c` has scheduled the rows of `ids` for deletion, and asked for the commit if `sent`. */
  function Removing(s: Sys, c: Client, ids: set<Id>, sent: bool): Sys {
    s.(tx := Some(Tx(s.nextTx, c, None, None, ids, sent)), nextTx := s.nextTx + 1)
  }

  function Removed(s: Sys, c: Client, ids: set<Id>): Sys {
    s.(rows := s.rows - ids, nextTx := s.nextTx + 1, acked := s.acked + {(c, s.nextTx)}, deleted := s.deleted + ids)
  }

  function Untouched(s: Sys): Sys {
    s.(nextTx := s.nextTx + 1)
  }

  lemma RemovalCommits(s: Sys, c: Client, ids: set<Id>, op: Op)
    requires s.tx.None?
    ensures Step(At(Removing(s, c, ids, true), c, op), c, ServerCommit) == Some(At(Removed(s, c, ids), c, op))
  {
  }

  lemma RemovalAborts(s: Sys, c: Client, ids: set<Id>, sent: bool, op: Op)
    requires s.tx.None?
    ensures Step(At(Removing(s, c, ids, sent), c, op), c, ServerAbort) == Some(At(Untouched(s), c, op))
  {
  }

  /** The same removal, scheduled or sent, seen as a move. */
  lemma RemovalMoves(s: Sys, c: Client, ids: set<Id>, op: Op, l: Label, next: Op)
    requires !IsEnvironment(l)
    requires ClientMove(At(Removing(s, c, {}, false), c, op), c, l) == Some(Goto(DeleteRows(ids), next))
    ensures Step(At(Removing(s, c, {}, false), c, op), c, l) == Some(At(Removing(s, c, ids, false), c, next))
  {
    hide ClientMove;
    Goes(Removing(s, c, {}, false), c, op, l, DeleteRows(ids), Removing(s, c, ids, false), next);
  }

  lemma RemovalSends(s: Sys, c: Client, ids: set<Id>, op: Op, l: Label, next: Op)
    requires !IsEnvironment(l)
    requires ClientMove(At(Removing(s, c, ids, false), c, op), c, l) == Some(Goto(SendCommit, next))
    ensures Step(At(Removing(s, c, ids, false), c, op), c, l) == Some(At(Removing(s, c, ids, true), c, next))
  {
    hide ClientMove;
    Goes(Removing(s, c, ids, false), c, op, l, SendCommit, Removing(s, c, ids, true), next);
  }

  // ---------------------------------------------------------------- deleteBlob

  lemma DeleteBinds(s: Sys, c: Client, id: Id, caller: Option<nat>)
    requires OpOf(s, c).Idle? && s.tx.None?
    ensures Step(s, c, DeleteBind(id, caller)) == Some(Bound(s, c, Deleting(id, caller, s.nextTx, ToRead)))
  {
  }

  lemma DeleteReads(v: Sys, c: Client, id: Id, caller: Option<nat>, t: TxId)
    requires OpOf(v, c) == Deleting(id, caller, t, ToRead) && Clear(v, c, t)
    ensures ClientMove(v, c, DeleteRead) == Some(
      if MayDelete(v, id, caller) then Goto(DeleteRows({id}), Deleting(id, caller, t, ToSendDelete))
      else Goto(Nothing, Closing(t, Return(DeleteRefused(id)), Return(DeleteRefused(id)))))
  {
    hide OpOf;
  }

  lemma DeleteSends(v: Sys, c: Client, id: Id, caller: Option<nat>, t: TxId)
    requires OpOf(v, c) == Deleting(id, caller, t, ToSendDelete) && Open(v, c, t)
    ensures ClientMove(v, c, DeleteCommit) == Some(Goto(SendCommit, Deleting(id, caller, t, DeleteAwaiting)))
  {
    hide OpOf;
  }

  function DeleteSteps(id: Id, caller: Option<nat>): seq<Label> {
    [DeleteBind(id, caller), DeleteRead, DeleteCommit]
  }

  lemma DeleteReaches(s: Sys, c: Client, id: Id, caller: Option<nat>)
    requires OpOf(s, c).Idle? && s.tx.None? && MayDelete(s, id, caller)
    ensures var t := s.nextTx;
      && Play(s, c, [DeleteBind(id, caller), DeleteRead]) == Some(At(Removing(s, c, {id}, false), c, Deleting(id, caller, t, ToSendDelete)))
      && Play(s, c, DeleteSteps(id, caller)) == Some(At(Removing(s, c, {id}, true), c, Deleting(id, caller, t, DeleteAwaiting)))
  {
    hide Play, Step, ClientMove;
    var t := s.nextTx;
    var op0, op1, op2 := Deleting(id, caller, t, ToRead), Deleting(id, caller, t, ToSendDelete), Deleting(id, caller, t, DeleteAwaiting);
    var s1, s2, s3 := Bound(s, c, op0), At(Removing(s, c, {id}, false), c, op1), At(Removing(s, c, {id}, true), c, op2);
    DeleteBinds(s, c, id, caller);
    DeleteReads(s1, c, id, caller, t);
    RemovalMoves(s, c, {id}, op0, DeleteRead, op1);
    DeleteSends(s2, c, id, caller, t);
    RemovalSends(s, c, {id}, op1, DeleteCommit, op2);
    Play2(s, c, DeleteBind(id, caller), s1, DeleteRead, s2);
    Play3(s, c, DeleteBind(id, caller), s1, DeleteRead, s2, DeleteCommit, s3);
  }

  lemma DeleteHears(s: Sys, c: Client, id: Id, caller: Option<nat>, t: TxId)
    requires OpOf(s, c) == Deleting(id, caller, t, DeleteAwaiting) && (c, t) in s.acked
    ensures Step(s, c, DeleteAck) == Some(Resumed(s, c, Clean(Some([id]), Return(DeleteOk(id)))))
  {
  }

  /** A User and the owner delete the row, and the client goes on to remove its objects before it reports success. */
  lemma DeletionByRight(s: Sys, c: Client, id: Id, caller: Option<nat>)
    requires OpOf(s, c).Idle? && s.tx.None? && MayDelete(s, id, caller)
    ensures Play(s, c, DeleteSteps(id, caller) + [ServerCommit, DeleteAck])
         == Some(Resumed(Removed(s, c, {id}), c, Clean(Some([id]), Return(DeleteOk(id)))))
  {
    hide Play, Step, OpOf, Resumed;
    var op, v := Deleting(id, caller, s.nextTx, DeleteAwaiting), Removed(s, c, {id});
    DeleteReaches(s, c, id, caller);
    RemovalCommits(s, c, {id}, op);
    OpAt(v, c, op);
    DeleteHears(At(v, c, op), c, id, caller, s.nextTx);
    ResumedFrom(v, c, op, Clean(Some([id]), Return(DeleteOk(id))));
    Play2(At(Removing(s, c, {id}, true), c, op), c, ServerCommit, At(v, c, op), DeleteAck,
          Resumed(v, c, Clean(Some([id]), Return(DeleteOk(id)))));
    PlayThen(s, c, DeleteSteps(id, caller), [ServerCommit, DeleteAck], At(Removing(s, c, {id}, true), c, op));
  }

  /** Nobody else does: without a row, or as another Principal, the deletion is refused and changes nothing. */
  lemma DeletionRefused(s: Sys, c: Client, id: Id, caller: Option<nat>)
    requires OpOf(s, c).Idle? && s.tx.None? && !MayDelete(s, id, caller)
    ensures Play(s, c, [DeleteBind(id, caller), DeleteRead] + CLOSING) == Some(Resumed(Spent(s, c), c, Return(DeleteRefused(id))))
  {
    hide Play, Step, OpOf, Resumed, ClientMove, Clear;
    var t, refused := s.nextTx, Return(DeleteRefused(id));
    var op0, op1 := Deleting(id, caller, t, ToRead), Closing(t, refused, refused);
    DeleteBinds(s, c, id, caller);
    BoundOver(s, c, op0, refused);
    BoundOver(s, c, op1, refused);
    DeleteReads(Bound(s, c, op0), c, id, caller, t);
    Goes(Removing(s, c, {}, false), c, op0, DeleteRead, Nothing, Removing(s, c, {}, false), op1);
    Play2(s, c, DeleteBind(id, caller), Bound(s, c, op0), DeleteRead, Bound(s, c, op1));
    Closes(Bound(s, c, op1), c, t, refused, refused);
    PlayThen(s, c, [DeleteBind(id, caller), DeleteRead], CLOSING, Bound(s, c, op1));
  }

  /** A deletion by right leaves nothing of the blob, but for retained objects and while the gate is up. */
  lemma DeletionRemovesBytes(s: Sys, c: Client, id: Id, caller: Option<nat>)
    requires OpOf(s, c).Idle? && s.tx.None? && MayDelete(s, id, caller)
    ensures var v, only := Removed(s, c, {id}), Some([id]);
      && Play(s, c, DeleteSteps(id, caller) + [ServerCommit, DeleteAck] + CleanSteps(v, only, []))
         == Some(Resumed(Swept(Spent(v, c), Asked(v, only, [])), c, Return(DeleteOk(id))))
      && forall r :: Stored(Swept(v, Asked(v, only, [])), r) ==
           if !s.gateActive && r.id == id && r !in s.retained then None else Stored(s, r)
  {
    hide Play, Step, OpOf, Swept, SweepSteps, Asked, Spent, CleanSteps, MayDelete;
    var v, only, next := Removed(s, c, {id}), Some([id]), Return(DeleteOk(id));
    var op := ToClean(only, next);
    DeletionByRight(s, c, id, caller);
    OpAt(v, c, op);
    CleanupRemovesTheUnneeded(At(v, c, op), c, only, next, []);
    CleanFrom(v, c, op, only);
    SweptFrom(v, c, op, Asked(v, only, []), next);
    PlayThen(s, c, DeleteSteps(id, caller) + [ServerCommit, DeleteAck], CleanSteps(v, only, []), At(v, c, op));
    forall r ensures Stored(Swept(v, Asked(v, only, [])), r) ==
                     if !s.gateActive && r.id == id && r !in s.retained then None else Stored(s, r) {
      AskedUnneeded(v, only, [], r);
      SweptStored(v, Asked(v, only, []), r);
    }
  }

  lemma CleanFrom(s: Sys, c: Client, op: Op, only: Option<seq<Id>>)
    ensures Asked(At(s, c, op), only, []) == Asked(s, only, []) && CleanSteps(At(s, c, op), only, []) == CleanSteps(s, only, [])
  {
    hide RefsOf, SweepSteps;
  }

  /** A deletion that loses its transaction before it has read the row is refused without a recheck. */
  lemma UnreadDeletionIsRefused(s: Sys, c: Client, id: Id, caller: Option<nat>)
    requires OpOf(s, c).Idle? && s.tx.None?
    ensures Play(s, c, [DeleteBind(id, caller), ServerAbort, DeleteThrow]) == Some(Resumed(Untouched(s), c, Return(DeleteRefused(id))))
  {
    hide Play, Step, OpOf, Resumed;
    var op, v, after := Deleting(id, caller, s.nextTx, ToRead), Untouched(s), Return(DeleteRefused(id));
    DeleteBinds(s, c, id, caller);
    RemovalAborts(s, c, {}, false, op);
    OpAt(v, c, op);
    UnreadThrows(At(v, c, op), c, op);
    ResumedFrom(v, c, op, after);
    Play3(s, c, DeleteBind(id, caller), Bound(s, c, op), ServerAbort, At(v, c, op), DeleteThrow, Resumed(v, c, after));
  }

  lemma UnreadThrows(s: Sys, c: Client, op: Op)
    requires OpOf(s, c) == op && op.Deleting? && op.del == ToRead
    ensures Step(s, c, DeleteThrow) == Some(Resumed(s, c, Return(DeleteRefused(op.id))))
  {
  }

  // ---------------------------------------------------------------- the recheck of a deletion

  lemma DeleteRecheckBinds(s: Sys, c: Client, id: Id, a: TxId)
    requires OpOf(s, c) == DeleteFailed(id, a) && s.tx.None?
    ensures Step(s, c, DeleteRecheckBind) == Some(Bound(s, c, DeleteRechecking(id, a, s.nextTx)))
  {
  }

  function AfterDeleteRead(s: Sys, c: Client, id: Id, a: TxId, t: TxId): Op {
    if id in s.rows then Closing(t, Return(DeleteRejected(id, (c, a), true)), Return(DeleteRejected(id, (c, a), true)))
    else Closing(t, Clean(Some([id]), Return(DeleteOk(id))), Return(DeleteRejected(id, (c, a), false)))
  }

  lemma DeleteRecheckReads(s: Sys, c: Client, id: Id, a: TxId, t: TxId)
    requires OpOf(s, c) == DeleteRechecking(id, a, t) && Clear(s, c, t)
    ensures Step(s, c, DeleteRecheckRead) == Some(At(s, c, AfterDeleteRead(s, c, id, a, t)))
  {
  }

  lemma DeleteRereads(s: Sys, c: Client, id: Id, a: TxId)
    requires OpOf(s, c) == DeleteFailed(id, a) && s.tx.None?
    ensures Play(s, c, [DeleteRecheckBind, DeleteRecheckRead]) == Some(Bound(s, c, AfterDeleteRead(s, c, id, a, s.nextTx)))
  {
    hide Play, Step, OpOf, Clear;
    var t := s.nextTx;
    var op0, op1 := DeleteRechecking(id, a, t), AfterDeleteRead(s, c, id, a, t);
    DeleteRecheckBinds(s, c, id, a);
    BoundOver(s, c, op0, Return(DeleteOk(id)));
    DeleteRecheckReads(Bound(s, c, op0), c, id, a, t);
    AtAt(Removing(s, c, {}, false), c, op0, op1);
    Play2(s, c, DeleteRecheckBind, Bound(s, c, op0), DeleteRecheckRead, Bound(s, c, op1));
  }

  /**
   * After a failure at the commit the recheck decides: the row is gone, and the client removes the objects and reports
   * success, or it is still there, and a confirmed rejection is recorded.
   */
  lemma DeleteRecheckTells(s: Sys, c: Client, id: Id, a: TxId)
    requires OpOf(s, c) == DeleteFailed(id, a) && s.tx.None?
    ensures Play(s, c, [DeleteRecheckBind, DeleteRecheckRead] + CLOSING) == Some(Resumed(Spent(s, c), c,
      if id in s.rows then Return(DeleteRejected(id, (c, a), true)) else Clean(Some([id]), Return(DeleteOk(id)))))
  {
    hide Play, Step, OpOf, Clear, Resumed, Bound, Over;
    var t, op := s.nextTx, AfterDeleteRead(s, c, id, a, s.nextTx);
    DeleteRereads(s, c, id, a);
    BoundOver(s, c, op, op.ok);
    Closes(Bound(s, c, op), c, t, op.ok, op.failed);
    PlayThen(s, c, [DeleteRecheckBind, DeleteRecheckRead], CLOSING, Bound(s, c, op));
  }

  /** A recheck that does not come about rejects the deletion without knowing; so does one that is lost after finding no row. */
  lemma LostDeleteRecheckRejects(s: Sys, c: Client, id: Id, a: TxId)
    requires OpOf(s, c) == DeleteFailed(id, a) && s.tx.None?
    ensures Play(s, c, [DeleteRecheckFault]) == Some(Resumed(s, c, Return(DeleteRejected(id, (c, a), false))))
    ensures Play(s, c, [DeleteRecheckBind, DeleteRecheckRead] + [ServerAbort, CloseThrow])
         == Some(Resumed(Untouched(s), c, Return(DeleteRejected(id, (c, a), id in s.rows))))
  {
    hide Play, Step, OpOf, Resumed;
    var op, after := AfterDeleteRead(s, c, id, a, s.nextTx), Return(DeleteRejected(id, (c, a), id in s.rows));
    DeleteRecheckFails(s, c, id, a);
    Play1(s, c, DeleteRecheckFault, Resumed(s, c, Return(DeleteRejected(id, (c, a), false))));
    DeleteRereads(s, c, id, a);
    BoundOver(s, c, op, after);
    ClosingFails(Bound(s, c, op), c, s.nextTx, op.ok, op.failed);
    assert Bound(s, c, op).(tx := None) == At(Untouched(s), c, op);
    ResumedFrom(Untouched(s), c, op, after);
    PlayThen(s, c, [DeleteRecheckBind, DeleteRecheckRead], [ServerAbort, CloseThrow], Bound(s, c, op));
  }

  lemma DeleteRecheckFails(s: Sys, c: Client, id: Id, a: TxId)
    requires OpOf(s, c) == DeleteFailed(id, a)
    ensures Step(s, c, DeleteRecheckFault) == Some(Resumed(s, c, Return(DeleteRejected(id, (c, a), false))))
  {
  }

  lemma DeleteThrows(s: Sys, c: Client, id: Id, caller: Option<nat>, t: TxId, at: DeleteAt)
    requires OpOf(s, c) == Deleting(id, caller, t, at) && at != ToRead
    ensures Step(s, c, DeleteThrow) == Some(At(s, c, DeleteFailed(id, t)))
  {
  }

  lemma Throws(s: Sys, c: Client, id: Id, caller: Option<nat>, t: TxId, at: DeleteAt)
    requires at != ToRead
    ensures Step(At(s, c, Deleting(id, caller, t, at)), c, DeleteThrow) == Some(At(s, c, DeleteFailed(id, t)))
  {
    hide Step, OpOf;
    OpAt(s, c, Deleting(id, caller, t, at));
    DeleteThrows(At(s, c, Deleting(id, caller, t, at)), c, id, caller, t, at);
    AtAt(s, c, Deleting(id, caller, t, at), DeleteFailed(id, t));
  }

  /** The deletion committed unheard: the client finds no row and goes on as if it had heard. */
  lemma UnheardDeletionSucceeds(s: Sys, c: Client, id: Id, caller: Option<nat>)
    requires OpOf(s, c).Idle? && s.tx.None? && MayDelete(s, id, caller)
    ensures Play(s, c, DeleteSteps(id, caller) + [ServerCommit, DeleteThrow] + ([DeleteRecheckBind, DeleteRecheckRead] + CLOSING))
         == Some(Resumed(Spent(Removed(s, c, {id}), c), c, Clean(Some([id]), Return(DeleteOk(id)))))
  {
    assert s.tx.None?;
    hide Play, Step, OpOf, Resumed, Spent, MayDelete;
    var t, v := s.nextTx, Removed(s, c, {id});
    var op, failed := Deleting(id, caller, t, DeleteAwaiting), DeleteFailed(id, t);
    DeleteReaches(s, c, id, caller);
    RemovalCommits(s, c, {id}, op);
    Throws(v, c, id, caller, t, DeleteAwaiting);
    Play2(At(Removing(s, c, {id}, true), c, op), c, ServerCommit, At(v, c, op), DeleteThrow, At(v, c, failed));
    PlayThen(s, c, DeleteSteps(id, caller), [ServerCommit, DeleteThrow], At(Removing(s, c, {id}, true), c, op));
    OpAt(v, c, failed);
    DeleteRecheckTells(At(v, c, failed), c, id, t);
    SpentFrom(v, c, failed, Clean(Some([id]), Return(DeleteOk(id))));
    PlayThen(s, c, DeleteSteps(id, caller) + [ServerCommit, DeleteThrow], [DeleteRecheckBind, DeleteRecheckRead] + CLOSING, At(v, c, failed));
  }

  /** The server aborted the deletion, before or after the client asked for the commit: the row stays, and the rejection is confirmed. */
  lemma AbortedDeletionIsRejected(s: Sys, c: Client, id: Id, caller: Option<nat>, sent: bool)
    requires OpOf(s, c).Idle? && s.tx.None? && MayDelete(s, id, caller)
    ensures Play(s, c, (if sent then DeleteSteps(id, caller) else [DeleteBind(id, caller), DeleteRead]) + [ServerAbort, DeleteThrow]
                       + ([DeleteRecheckBind, DeleteRecheckRead] + CLOSING))
         == Some(Resumed(Spent(Untouched(s), c), c, Return(DeleteRejected(id, (c, s.nextTx), true))))
  {
    assert s.tx.None? && id in s.rows;
    hide Play, Step, OpOf, Resumed, Spent, MayDelete;
    var t, v, steps := s.nextTx, Untouched(s), if sent then DeleteSteps(id, caller) else [DeleteBind(id, caller), DeleteRead];
    var at := if sent then DeleteAwaiting else ToSendDelete;
    var op, failed := Deleting(id, caller, t, at), DeleteFailed(id, t);
    DeleteReaches(s, c, id, caller);
    RemovalAborts(s, c, {id}, sent, op);
    Throws(v, c, id, caller, t, at);
    Play2(At(Removing(s, c, {id}, sent), c, op), c, ServerAbort, At(v, c, op), DeleteThrow, At(v, c, failed));
    PlayThen(s, c, steps, [ServerAbort, DeleteThrow], At(Removing(s, c, {id}, sent), c, op));
    OpAt(v, c, failed);
    DeleteRecheckTells(At(v, c, failed), c, id, t);
    SpentFrom(v, c, failed, Return(DeleteRejected(id, (c, t), true)));
    PlayThen(s, c, steps + [ServerAbort, DeleteThrow], [DeleteRecheckBind, DeleteRecheckRead] + CLOSING, At(v, c, failed));
  }

  // ---------------------------------------------------------------- purgePayloads

  lemma PurgeBinds(s: Sys, c: Client)
    requires OpOf(s, c).Idle? && s.tx.None?
    ensures Step(s, c, PurgeBind) == Some(Bound(s, c, Purging([], s.nextTx, ToSelect)))
  {
  }

  predicate Expired(s: Sys, id: Id) {
    id in s.rows && s.rows[id].expiresAt <= s.now
  }

  lemma PurgeSelects(v: Sys, c: Client, ids: seq<Id>, t: TxId)
    requires OpOf(v, c) == Purging([], t, ToSelect) && Clear(v, c, t)
    ensures ClientMove(v, c, PurgeSelect(ids)) == if forall i :: i in ids ==> Expired(v, i)
                                                  then Some(Goto(DeleteRows(set i | i in ids), Purging(ids, t, ToSendPurge))) else None
  {
    hide OpOf;
  }

  lemma PurgeSends(v: Sys, c: Client, ids: seq<Id>, t: TxId)
    requires OpOf(v, c) == Purging(ids, t, ToSendPurge) && Open(v, c, t)
    ensures ClientMove(v, c, PurgeCommit) == Some(Goto(SendCommit, Purging(ids, t, PurgeAwaiting)))
  {
    hide OpOf;
  }

  lemma PurgeHears(s: Sys, c: Client, ids: seq<Id>, t: TxId)
    requires OpOf(s, c) == Purging(ids, t, PurgeAwaiting) && (c, t) in s.acked
    ensures Step(s, c, PurgeAck) == Some(Resumed(s, c, Clean(Some(ids), Clean(None, Return(PurgeOk)))))
  {
  }

  lemma PurgeThrows(s: Sys, c: Client, ids: seq<Id>, t: TxId, at: PurgeAt)
    requires OpOf(s, c) == Purging(ids, t, at)
    ensures Step(s, c, PurgeThrow) == Some(Resumed(s, c, Return(PurgeRejected((c, t)))))
  {
  }

  lemma PurgeReaches(s: Sys, c: Client, ids: seq<Id>)
    requires OpOf(s, c).Idle? && s.tx.None? && forall i :: i in ids ==> Expired(s, i)
    ensures Play(s, c, [PurgeBind, PurgeSelect(ids), PurgeCommit])
         == Some(At(Removing(s, c, set i | i in ids, true), c, Purging(ids, s.nextTx, PurgeAwaiting)))
  {
    hide Play, Step, ClientMove;
    var t, gone := s.nextTx, set i | i in ids;
    var op0, op1, op2 := Purging([], t, ToSelect), Purging(ids, t, ToSendPurge), Purging(ids, t, PurgeAwaiting);
    var s1, s2, s3 := Bound(s, c, op0), At(Removing(s, c, gone, false), c, op1), At(Removing(s, c, gone, true), c, op2);
    PurgeBinds(s, c);
    assert forall i :: i in ids ==> Expired(s, i) && Expired(s1, i);
    PurgeSelects(s1, c, ids, t);
    RemovalMoves(s, c, gone, op0, PurgeSelect(ids), op1);
    PurgeSends(s2, c, ids, t);
    RemovalSends(s, c, gone, op1, PurgeCommit, op2);
    Play3(s, c, PurgeBind, s1, PurgeSelect(ids), s2, PurgeCommit, s3);
  }

  /**
   * A purge of expired rows deletes them all and goes on to clean up after them and then after everything; when the
   * server aborts it, nothing changes and a rejection is recorded.
   */
  lemma PurgeDeletesExpired(s: Sys, c: Client, ids: seq<Id>)
    requires OpOf(s, c).Idle? && s.tx.None? && forall i :: i in ids ==> Expired(s, i)
    ensures Play(s, c, [PurgeBind, PurgeSelect(ids), PurgeCommit] + [ServerCommit, PurgeAck])
         == Some(Resumed(Removed(s, c, set i | i in ids), c, Clean(Some(ids), Clean(None, Return(PurgeOk)))))
    ensures Play(s, c, [PurgeBind, PurgeSelect(ids), PurgeCommit] + [ServerAbort, PurgeThrow])
         == Some(Resumed(Untouched(s), c, Return(PurgeRejected((c, s.nextTx)))))
  {
    hide Play, Step, OpOf, Resumed, Expired;
    var t, gone := s.nextTx, set i | i in ids;
    var op, v, u := Purging(ids, t, PurgeAwaiting), Removed(s, c, gone), Untouched(s);
    var s1, ok, failed := At(Removing(s, c, gone, true), c, op), Clean(Some(ids), Clean(None, Return(PurgeOk))), Return(PurgeRejected((c, t)));
    PurgeReaches(s, c, ids);
    RemovalCommits(s, c, gone, op);
    RemovalAborts(s, c, gone, true, op);
    OpAt(v, c, op);
    OpAt(u, c, op);
    PurgeHears(At(v, c, op), c, ids, t);
    PurgeThrows(At(u, c, op), c, ids, t, PurgeAwaiting);
    ResumedFrom(v, c, op, ok);
    ResumedFrom(u, c, op, failed);
    Play2(s1, c, ServerCommit, At(v, c, op), PurgeAck, Resumed(v, c, ok));
    Play2(s1, c, ServerAbort, At(u, c, op), PurgeThrow, Resumed(u, c, failed));
    PlayThen(s, c, [PurgeBind, PurgeSelect(ids), PurgeCommit], [ServerCommit, PurgeAck], s1);
    PlayThen(s, c, [PurgeBind, PurgeSelect(ids), PurgeCommit], [ServerAbort, PurgeThrow], s1);
  }
}

/** Safety of the blob protocol over every run, and how honest its outcomes are. */
module BlobSafety {
  import opened Wrappers
  import opened Content
  import opened BlobProtocol

  /** The id was used, has no row, and no transaction that could still insert its row is alive. */
  ghost predicate Doomed(s: Sys, id: Id) {
    && id in s.used
    && id !in s.rows
    && (s.tx.Some? ==> s.tx.value.upload != Some(id))
  }

  /** The transaction can no longer commit, and did not. */
  ghost predicate Lost(s: Sys, a: (Client, TxId)) {
    a !in s.acked && a.1 < s.nextTx && !Live(s, a.0, a.1)
  }

  ghost predicate RowsDurable(s: Sys) {
    forall id :: id in s.rows ==> id in s.final && StampOf(s.final[id]) == s.rows[id].stamp
  }

  ghost predicate RetainedKept(s: Sys) {
    forall r :: r in s.retained ==> Stored(s, r).Some? && StampOf(Stored(s, r).value) == s.retained[r]
  }

  ghost predicate KeysUnique(s: Sys) {
    forall i, j :: i in s.rows && j in s.rows && s.rows[i].key == s.rows[j].key ==> i == j
  }

  ghost predicate IdsUsed(s: Sys) {
    && s.rows.Keys <= s.used
    && (forall r :: r in s.retained ==> r.id in s.used)
    && s.committed <= s.used && s.deleted <= s.committed
    && (forall id :: id in s.used ==> (id in s.rows <==> id in s.committed && id !in s.deleted))
    && (forall a :: a in s.acked ==> a.1 < s.nextTx)
  }

  ghost predicate TxSound(s: Sys) {
    s.tx.Some? ==>
      var t := s.tx.value;
      && t.id < s.nextTx
      && (t.owner, t.id) !in s.acked
      && (t.upload.Some? ==> t.upload.value in s.used && t.upload.value !in s.committed && t.deletes == {})
      && (t.insert.Some? ==> t.upload.Some? && forall i :: i in s.rows ==> s.rows[i].key != t.insert.value.key)
      && (t.commitSent && t.insert.Some? ==>
            t.upload.value in s.final && StampOf(s.final[t.upload.value]) == t.insert.value.stamp)
      && t.deletes <= s.rows.Keys
  }

  ghost predicate OutcomeHonest(s: Sys, o: Outcome) {
    match o
    case PutOk(id) => id in s.committed
    case PutRejected(id) => Doomed(s, id)
    case DeleteOk(id) => Doomed(s, id) && id in s.deleted
    case DeleteRejected(id, attempt, confirmed) => confirmed ==> Lost(s, attempt)
    case _ => true
  }

  ghost predicate AfterHonest(s: Sys, a: After) {
    match a
    case Return(o) => OutcomeHonest(s, o)
    case Clean(ids, n) => (ids.Some? ==> forall i :: i in ids.value ==> i in s.used) && AfterHonest(s, n)
  }

  /** What a client that believes in transaction `t` knows: it is live and clean, or it is over. */
  ghost predicate ReadOnlyTx(s: Sys, c: Client, t: TxId) {
    && t < s.nextTx
    && (Live(s, c, t) ==> s.tx.value.upload.None? && s.tx.value.insert.None? && s.tx.value.deletes == {})
  }

  ghost predicate PuttingSound(s: Sys, c: Client, op: Op)
    requires op.Putting?
  {
    && op.id in s.used && op.tx < s.nextTx
    && op.row.stamp == StampOf(op.bytes)
    && Ref(op.id, false) !in s.retained && Ref(op.id, true) !in s.retained
    && (op.put != PutAwaiting ==> (c, op.tx) !in s.acked)
    && (op.put != PutAwaiting ==> op.id !in s.committed)
    && ((c, op.tx) in s.acked ==> op.id in s.committed)
    && (s.tx.Some? && s.tx.value.upload == Some(op.id) ==> Live(s, c, op.tx))
    && (Live(s, c, op.tx) ==>
          && s.tx.value.upload == Some(op.id)
          && (s.tx.value.commitSent ==> op.put == PutAwaiting)
          && (s.tx.value.insert == if op.put == ToStage || op.put == ToInsert then None else Some(op.row))
          && (op.put == ToConfirm || op.put == ToCommit ==>
                op.id in s.final && StampOf(s.final[op.id]) == StampOf(op.bytes)))
  }

  ghost predicate DeletingSound(s: Sys, c: Client, id: Id, t: TxId, at: DeleteAt) {
    && t < s.nextTx
    && (at != DeleteAwaiting ==> (c, t) !in s.acked)
    && (at != ToRead ==> id in s.used && id in s.committed)
    && ((c, t) in s.acked ==> id in s.deleted)
    && (Live(s, c, t) ==>
          && s.tx.value.upload.None? && s.tx.value.insert.None?
          && (s.tx.value.deletes == if at == ToRead then {} else {id})
          && (s.tx.value.commitSent ==> at == DeleteAwaiting))
  }

  ghost predicate OpSound(s: Sys, c: Client, op: Op) {
    match op
    case Idle => true
    case Putting(_, _, _, _, _) => PuttingSound(s, c, op)
    case PutFailed(id) => id in s.used
    case Rechecking(id, t) => id in s.used && ReadOnlyTx(s, c, t)
    case Deleting(id, _, t, at) => DeletingSound(s, c, id, t, at)
    case DeleteFailed(id, a) =>
      && id in s.committed && a < s.nextTx
      && ((c, a) in s.acked ==> id in s.deleted)
      && (Live(s, c, a) ==> s.tx.value.deletes == {id} && s.tx.value.upload.None? && s.tx.value.insert.None?)
    case DeleteRechecking(id, a, t) =>
      && id in s.committed && a < t && ReadOnlyTx(s, c, t)
      && !Live(s, c, a)
      && ((c, a) in s.acked ==> id in s.deleted)
    case Purging(ids, t, at) =>
      && t < s.nextTx
      && (forall i :: i in ids ==> i in s.used)
      && (at != PurgeAwaiting ==> (c, t) !in s.acked)
      && (Live(s, c, t) ==> s.tx.value.upload.None? && s.tx.value.insert.None?
                            && s.tx.value.deletes == (set i | i in ids)
                            && (s.tx.value.commitSent ==> at == PurgeAwaiting))
    case ToClean(ids, next) => AfterHonest(s, Clean(ids, next))
    case Sweeping(t, refs, hold, ok, failed) =>
      && ReadOnlyTx(s, c, t)
      && (forall r :: r in refs ==> r.id in s.used)
      && (hold.Some? ==> hold.value !in s.retained && (!hold.value.staging ==> Doomed(s, hold.value.id)))
      && AfterHonest(s, ok) && AfterHonest(s, failed)
    case Closing(t, ok, failed) =>
      ReadOnlyTx(s, c, t) && AfterHonest(s, ok) && AfterHonest(s, failed)
  }

  ghost predicate UploadsDistinct(s: Sys) {
    forall c, d :: c != d && OpOf(s, c).Putting? && OpOf(s, d).Putting? ==> OpOf(s, c).id != OpOf(s, d).id
  }

  ghost predicate OpsSound(s: Sys) {
    forall c :: OpSound(s, c, OpOf(s, c))
  }

  ghost predicate OutcomesHonest(s: Sys) {
    forall o :: o in s.outcomes ==> OutcomeHonest(s, o)
  }

  /** Everything that does not mention the clients' program points. */
  ghost predicate Shared(s: Sys) {
    RowsDurable(s) && RetainedKept(s) && KeysUnique(s) && IdsUsed(s) && TxSound(s) && OutcomesHonest(s)
  }

  ghost predicate Inv(s: Sys) {
    Shared(s) && UploadsDistinct(s) && OpsSound(s)
  }

  /** What no step undoes. */
  ghost predicate Grows(s: Sys, t: Sys) {
    && s.used <= t.used && s.committed <= t.committed && s.deleted <= t.deleted
    && s.acked <= t.acked && s.nextTx <= t.nextTx
    && s.retained == t.retained
    && (forall id :: Doomed(s, id) ==> Doomed(t, id))
    && (forall a: (Client, TxId) :: Lost(s, a) ==> Lost(t, a))
  }

  lemma {:induction false} AfterStable(s: Sys, t: Sys, a: After)
    requires Grows(s, t) && AfterHonest(s, a)
    ensures AfterHonest(t, a)
  {
    match a
    case Return(o) =>
    case Clean(ids, n) => AfterStable(s, t, n);
  }

  /** When client `c` may perform an effect. */
  ghost predicate Allowed(s: Sys, c: Client, e: Effect) {
    match e
    case Nothing => true
    case Draw(id) => id !in s.used
    case Bind(upload) => s.tx.None? && (upload.Some? ==> upload.value !in s.used)
    case Insert(row) =>
      && s.tx.Some? && s.tx.value.owner == c && !s.tx.value.commitSent && s.tx.value.upload.Some?
      && KeyFree(s, row.key)
    case DeleteRows(ids) =>
      && s.tx.Some? && s.tx.value.owner == c && !s.tx.value.commitSent && s.tx.value.upload.None?
      && ids <= s.rows.Keys
    case SendCommit =>
      && s.tx.Some? && s.tx.value.owner == c && !s.tx.value.commitSent
      && (s.tx.value.insert.Some? && s.tx.value.upload.Some? ==>
            var id := s.tx.value.upload.value;
            id in s.final && StampOf(s.final[id]) == s.tx.value.insert.value.stamp)
    case WriteStaged(id, _) => OpOf(s, c).Putting? && OpOf(s, c).id == id && OpOf(s, c).put == ToStage
    case WriteFinal(id, _, _) => OpOf(s, c).Putting? && OpOf(s, c).id == id && OpOf(s, c).put == ToPromote
    case Drop(ref) => ref !in s.retained && (!ref.staging ==> Doomed(s, ref.id))
  }

  lemma EffectGrows(s: Sys, c: Client, e: Effect)
    requires Shared(s) && Allowed(s, c, e)
    ensures Grows(s, Perform(s, c, e))
  {
  }

  lemma StagedKeepsBytes(s: Sys, c: Client, id: Id, bytes: Bytes)
    requires Shared(s) && OpSound(s, c, OpOf(s, c)) && Allowed(s, c, WriteStaged(id, bytes))
    ensures RowsDurable(Perform(s, c, WriteStaged(id, bytes))) && RetainedKept(Perform(s, c, WriteStaged(id, bytes)))
  {
    var t := Perform(s, c, WriteStaged(id, bytes));
    assert forall r :: r in s.retained ==> r != Ref(id, true) && Stored(t, r) == Stored(s, r);
  }

  lemma FinalKeepsBytes(s: Sys, c: Client, id: Id, bytes: Bytes, cleared: bool)
    requires Shared(s) && OpSound(s, c, OpOf(s, c)) && Allowed(s, c, WriteFinal(id, bytes, cleared))
    ensures RowsDurable(Perform(s, c, WriteFinal(id, bytes, cleared)))
    ensures RetainedKept(Perform(s, c, WriteFinal(id, bytes, cleared)))
  {
    var t := Perform(s, c, WriteFinal(id, bytes, cleared));
    assert id !in s.rows;
    assert forall r :: r in s.retained ==> r.id != id && Stored(t, r) == Stored(s, r);
  }

  lemma DropKeepsBytes(s: Sys, c: Client, ref: Ref)
    requires Shared(s) && Allowed(s, c, Drop(ref))
    ensures RowsDurable(Perform(s, c, Drop(ref))) && RetainedKept(Perform(s, c, Drop(ref)))
  {
    var t := Perform(s, c, Drop(ref));
    assert forall r :: r in s.retained ==> r != ref && Stored(t, r) == Stored(s, r);
  }

  lemma SameBytes(s: Sys, t: Sys)
    requires RowsDurable(s) && RetainedKept(s)
    requires t.rows == s.rows && t.final == s.final && t.staged == s.staged && t.retained == s.retained
    ensures RowsDurable(t) && RetainedKept(t)
  {
    assert forall r :: Stored(t, r) == Stored(s, r);
  }

  lemma EffectKeepsBytes(s: Sys, c: Client, e: Effect)
    requires Shared(s) && OpSound(s, c, OpOf(s, c)) && Allowed(s, c, e)
    ensures RowsDurable(Perform(s, c, e)) && RetainedKept(Perform(s, c, e))
  {
    match e
    case WriteStaged(id, bytes) => StagedKeepsBytes(s, c, id, bytes);
    case WriteFinal(id, bytes, cleared) => FinalKeepsBytes(s, c, id, bytes, cleared);
    case Drop(ref) => DropKeepsBytes(s, c, ref);
    case _ => SameBytes(s, Perform(s, c, e));
  }

  lemma EffectKeepsTx(s: Sys, c: Client, e: Effect)
    requires Shared(s) && OpSound(s, c, OpOf(s, c)) && Allowed(s, c, e)
    ensures TxSound(Perform(s, c, e))
  {
  }

  lemma EffectKeepsIds(s: Sys, c: Client, e: Effect)
    requires Shared(s) && Allowed(s, c, e)
    ensures KeysUnique(Perform(s, c, e)) && IdsUsed(Perform(s, c, e))
  {
  }

  lemma EffectKeepsShared(s: Sys, c: Client, e: Effect)
    requires Shared(s) && OpSound(s, c, OpOf(s, c)) && Allowed(s, c, e)
    ensures Shared(Perform(s, c, e))
  {
    EffectKeepsBytes(s, c, e);
    EffectKeepsTx(s, c, e);
    EffectKeepsIds(s, c, e);
    EffectGrows(s, c, e);
    var t := Perform(s, c, e);
    assert t.outcomes == s.outcomes;
    OutcomesStable(s, t);
  }

  lemma OutcomesStable(s: Sys, t: Sys)
    requires Grows(s, t) && OutcomesHonest(s) && t.outcomes == s.outcomes
    ensures OutcomesHonest(t)
  {
    forall o | o in t.outcomes ensures OutcomeHonest(t, o) { AfterStable(s, t, Return(o)); }
  }

  /** Seen from client `d`, nothing happened between `s` and `t` but growth and moves of others. */
  ghost predicate Undisturbed(s: Sys, t: Sys, d: Client) {
    && Grows(s, t)
    && t.acked == s.acked && t.committed == s.committed
    && (forall x :: Live(t, d, x) ==> Live(s, d, x) && t.tx == s.tx)
  }

  lemma EffectUndisturbs(s: Sys, c: Client, e: Effect, d: Client)
    requires Shared(s) && Allowed(s, c, e) && d != c
    ensures Undisturbed(s, Perform(s, c, e), d)
  {
    EffectGrows(s, c, e);
  }

  lemma UndisturbedSound(s: Sys, t: Sys, d: Client, op: Op)
    requires Undisturbed(s, t, d) && OpSound(s, d, op) && !op.Putting?
    ensures OpSound(t, d, op)
  {
    match op
    case ToClean(ids, next) => AfterStable(s, t, Clean(ids, next));
    case Sweeping(_, _, _, ok, failed) => AfterStable(s, t, ok); AfterStable(s, t, failed);
    case Closing(_, ok, failed) => AfterStable(s, t, ok); AfterStable(s, t, failed);
    case _ =>
  }

  lemma EffectKeepsPutting(s: Sys, c: Client, e: Effect, d: Client, op: Op)
    requires Shared(s) && OpSound(s, c, OpOf(s, c)) && Allowed(s, c, e) && d != c
    requires op.Putting? && PuttingSound(s, d, op)
    requires OpOf(s, c).Putting? ==> OpOf(s, c).id != op.id
    ensures PuttingSound(Perform(s, c, e), d, op)
  {
    EffectUndisturbs(s, c, e, d);
  }

  lemma EffectKeepsOther(s: Sys, c: Client, e: Effect, d: Client, op: Op)
    requires Shared(s) && OpSound(s, c, OpOf(s, c)) && Allowed(s, c, e) && d != c && OpSound(s, d, op)
    requires OpOf(s, c).Putting? && op.Putting? ==> OpOf(s, c).id != op.id
    ensures OpSound(Perform(s, c, e), d, op)
  {
    if op.Putting? {
      EffectKeepsPutting(s, c, e, d, op);
    } else {
      EffectUndisturbs(s, c, e, d);
      UndisturbedSound(s, Perform(s, c, e), d, op);
    }
  }

  /** What a move must leave behind for its own client. */
  ghost predicate MoveSound(s: Sys, c: Client, m: Move) {
    && Allowed(s, c, m.effect)
    && var t := Perform(s, c, m.effect);
       match m
       case Goto(_, op) =>
         && OpSound(t, c, op)
         && (op.Putting? ==> (OpOf(s, c).Putting? && OpOf(s, c).id == op.id) || op.id !in s.used)
       case Leave(_, after) => AfterHonest(t, after)
  }

  lemma PuttingMoveSound(s: Sys, c: Client, l: Label, m: Move)
    requires Shared(s) && OpSound(s, c, OpOf(s, c)) && OpOf(s, c).Putting?
    requires PuttingMove(s, c, OpOf(s, c), l) == Some(m)
    ensures MoveSound(s, c, m)
  {
  }

  lemma UploadMoveSound(s: Sys, c: Client, l: Label, m: Move)
    requires Shared(s) && OpSound(s, c, OpOf(s, c)) && OpOf(s, c).Putting?
    requires UploadMove(s, c, OpOf(s, c), l) == Some(m)
    ensures MoveSound(s, c, m)
  {
    hide OutcomesHonest, KeysUnique, RowsDurable, Doomed, Lost;
  }

  lemma PutMoveSound(s: Sys, c: Client, l: Label, m: Move)
    requires Shared(s) && OpSound(s, c, OpOf(s, c)) && PutMove(s, c, OpOf(s, c), l) == Some(m)
    ensures MoveSound(s, c, m)
  {
    if l.PutBind? {
    } else if l.PutBindFault? {
    } else if l.PutStage? || l.PutStageFault? || l.PutPromote? || l.PutPromoteFault? {
      UploadMoveSound(s, c, l, m);
    } else {
      PuttingMoveSound(s, c, l, m);
    }
  }

  lemma RecheckMoveSound(s: Sys, c: Client, l: Label, m: Move)
    requires Shared(s) && OpSound(s, c, OpOf(s, c)) && RecheckMove(s, c, OpOf(s, c), l) == Some(m)
    ensures MoveSound(s, c, m)
  {
    assert forall id :: RefsOf([id]) == [Ref(id, false), Ref(id, true)];
  }

  lemma DeletingMoveSound(s: Sys, c: Client, l: Label, m: Move)
    requires Shared(s) && OpSound(s, c, OpOf(s, c)) && OpOf(s, c).Deleting?
    requires DeletingMove(s, c, OpOf(s, c), l) == Some(m)
    ensures MoveSound(s, c, m)
  {
  }

  lemma DeleteRecheckMoveSound(s: Sys, c: Client, l: Label, m: Move)
    requires Shared(s) && OpSound(s, c, OpOf(s, c)) && (OpOf(s, c).DeleteFailed? || OpOf(s, c).DeleteRechecking?)
    requires DeleteRecheckMove(s, c, OpOf(s, c), l) == Some(m)
    ensures MoveSound(s, c, m)
  {
  }

  lemma DeleteMoveSound(s: Sys, c: Client, l: Label, m: Move)
    requires Shared(s) && OpSound(s, c, OpOf(s, c)) && DeleteMove(s, c, OpOf(s, c), l) == Some(m)
    ensures MoveSound(s, c, m)
  {
    var op := OpOf(s, c);
    if l.DeleteBind? {
    } else if op.Deleting? {
      DeletingMoveSound(s, c, l, m);
    } else {
      DeleteRecheckMoveSound(s, c, l, m);
    }
  }

  lemma PurgeMoveSound(s: Sys, c: Client, l: Label, m: Move)
    requires Shared(s) && OpSound(s, c, OpOf(s, c)) && PurgeMove(s, c, OpOf(s, c), l) == Some(m)
    ensures MoveSound(s, c, m)
  {
  }

  lemma {:induction false} RefsOfUsed(s: Sys, ids: seq<Id>)
    requires forall i :: i in ids ==> i in s.used
    ensures forall r :: r in RefsOf(ids) ==> r.id in s.used
  {
    if ids != [] { RefsOfUsed(s, ids[1..]); }
  }

  lemma CleanMoveSound(s: Sys, c: Client, l: Label, m: Move)
    requires Shared(s) && OpSound(s, c, OpOf(s, c)) && OpOf(s, c).ToClean?
    requires CleanMove(s, c, OpOf(s, c), l) == Some(m)
    ensures MoveSound(s, c, m)
  {
    var op := OpOf(s, c);
    if op.only.Some? { RefsOfUsed(s, op.only.value); }
    EffectGrows(s, c, m.effect);
    AfterStable(s, Perform(s, c, m.effect), op.next);
  }

  lemma SweepingMoveSound(s: Sys, c: Client, l: Label, m: Move)
    requires Shared(s) && OpSound(s, c, OpOf(s, c)) && OpOf(s, c).Sweeping?
    requires SweepingMove(s, c, OpOf(s, c), l) == Some(m)
    ensures MoveSound(s, c, m)
  {
    var op := OpOf(s, c);
    EffectGrows(s, c, m.effect);
    AfterStable(s, Perform(s, c, m.effect), op.ok);
    AfterStable(s, Perform(s, c, m.effect), op.failed);
  }

  lemma SweepMoveSound(s: Sys, c: Client, l: Label, m: Move)
    requires Shared(s) && OpSound(s, c, OpOf(s, c)) && SweepMove(s, c, OpOf(s, c), l) == Some(m)
    ensures MoveSound(s, c, m)
  {
    var op := OpOf(s, c);
    if l.CleanStart? {
    } else if op.ToClean? {
      CleanMoveSound(s, c, l, m);
    } else {
      SweepingMoveSound(s, c, l, m);
    }
  }

  lemma CloseMoveSound(s: Sys, c: Client, l: Label, m: Move)
    requires Shared(s) && OpSound(s, c, OpOf(s, c)) && CloseMove(s, c, OpOf(s, c), l) == Some(m)
    ensures MoveSound(s, c, m)
  {
    var op := OpOf(s, c);
    EffectGrows(s, c, m.effect);
    AfterStable(s, Perform(s, c, m.effect), op.ok);
    AfterStable(s, Perform(s, c, m.effect), op.failed);
  }

  lemma ClientMoveSound(s: Sys, c: Client, l: Label, m: Move)
    requires Shared(s) && OpSound(s, c, OpOf(s, c)) && ClientMove(s, c, l) == Some(m)
    ensures MoveSound(s, c, m)
  {
    if IsRecheck(l) { RecheckMoveSound(s, c, l, m); }
    else if IsDelete(l) { DeleteMoveSound(s, c, l, m); }
    else if IsPurge(l) { PurgeMoveSound(s, c, l, m); }
    else if IsSweep(l) { SweepMoveSound(s, c, l, m); }
    else if IsClose(l) { CloseMoveSound(s, c, l, m); }
    else { PutMoveSound(s, c, l, m); }
  }

  /** Program points and returned outcomes do not matter to what other clients know. */
  lemma OpSoundFrame(s: Sys, t: Sys, d: Client, op: Op)
    requires OpSound(s, d, op)
    requires t == s.(ops := t.ops, outcomes := t.outcomes)
    ensures OpSound(t, d, op)
  {
    if op.Putting? {
    } else {
      assert Undisturbed(s, t, d);
      UndisturbedSound(s, t, d, op);
    }
  }

  lemma SharedFrame(p: Sys, t: Sys)
    requires Shared(p) && t == p.(ops := t.ops, outcomes := t.outcomes)
    requires forall o :: o in t.outcomes ==> OutcomeHonest(p, o)
    ensures Shared(t)
  {
    SameBytes(p, t);
    forall o | o in t.outcomes ensures OutcomeHonest(t, o) { AfterStable(p, t, Return(o)); }
  }

  lemma MovedKeepsOwn(s: Sys, c: Client, m: Move)
    requires MoveSound(s, c, m)
    ensures OpSound(Moved(s, c, m), c, OpOf(Moved(s, c, m), c))
  {
    var p, t := Perform(s, c, m.effect), Moved(s, c, m);
    assert OpSound(p, c, OpOf(t, c)) by {
      match m
      case Goto(_, op) => assert OpOf(t, c) == op;
      case Leave(_, Clean(ids, next)) => assert OpOf(t, c) == ToClean(ids, next);
      case Leave(_, Return(_)) => assert OpOf(t, c) == Idle;
    }
    OpSoundFrame(p, t, c, OpOf(t, c));
  }

  lemma PerformFrame(s: Sys, c: Client, e: Effect)
    ensures Perform(s, c, e).ops == s.ops && Perform(s, c, e).outcomes == s.outcomes
  {
  }

  lemma MovedFrame(s: Sys, c: Client, m: Move)
    ensures var p, t := Perform(s, c, m.effect), Moved(s, c, m); t == p.(ops := t.ops, outcomes := t.outcomes)
    ensures forall d :: d != c ==> OpOf(Moved(s, c, m), d) == OpOf(s, d)
  {
    PerformFrame(s, c, m.effect);
    match m
    case Goto(_, _) =>
    case Leave(_, Clean(_, _)) =>
    case Leave(_, Return(_)) =>
  }

  lemma MovedKeepsOther(s: Sys, c: Client, m: Move, d: Client)
    requires Shared(s) && OpSound(s, c, OpOf(s, c)) && Allowed(s, c, m.effect) && OpSound(s, d, OpOf(s, d)) && c != d
    requires OpOf(s, c).Putting? && OpOf(s, d).Putting? ==> OpOf(s, c).id != OpOf(s, d).id
    ensures OpOf(Moved(s, c, m), d) == OpOf(s, d)
    ensures OpSound(Moved(s, c, m), d, OpOf(s, d))
  {
    var p, t := Perform(s, c, m.effect), Moved(s, c, m);
    MovedFrame(s, c, m);
    EffectKeepsOther(s, c, m.effect, d, OpOf(s, d));
    OpSoundFrame(p, t, d, OpOf(s, d));
  }

  lemma MovedKeepsDistinct(s: Sys, c: Client, m: Move, d: Client)
    requires MoveSound(s, c, m) && OpSound(s, d, OpOf(s, d)) && c != d
    requires OpOf(s, c).Putting? && OpOf(s, d).Putting? ==> OpOf(s, c).id != OpOf(s, d).id
    ensures OpOf(Moved(s, c, m), c).Putting? && OpOf(s, d).Putting? ==> OpOf(Moved(s, c, m), c).id != OpOf(s, d).id
  {
    match m
    case Goto(_, op) => assert OpOf(Moved(s, c, m), c) == op;
    case _ => assert !OpOf(Moved(s, c, m), c).Putting?;
  }

  lemma MovedOutcomes(s: Sys, c: Client, m: Move)
    requires MoveSound(s, c, m) && Shared(Perform(s, c, m.effect))
    ensures forall o :: o in Moved(s, c, m).outcomes ==> OutcomeHonest(Perform(s, c, m.effect), o)
  {
    hide OpSound, RowsDurable, RetainedKept, KeysUnique, IdsUsed, TxSound, Perform, OutcomeHonest;
  }

  lemma MovedKeeps(s: Sys, c: Client, m: Move)
    requires Inv(s) && MoveSound(s, c, m)
    ensures Inv(Moved(s, c, m))
  {
    hide OpSound, RowsDurable, RetainedKept, KeysUnique, IdsUsed, TxSound, Perform, Moved, AfterHonest;
    var t := Moved(s, c, m);
    MovedFrame(s, c, m);
    EffectKeepsShared(s, c, m.effect);
    MovedOutcomes(s, c, m);
    SharedFrame(Perform(s, c, m.effect), t);
    forall d
      ensures OpSound(t, d, OpOf(t, d))
      ensures c != d ==> OpOf(t, d) == OpOf(s, d)
      ensures c != d && OpOf(t, c).Putting? && OpOf(s, d).Putting? ==> OpOf(t, c).id != OpOf(s, d).id
    {
      if d == c {
        MovedKeepsOwn(s, c, m);
      } else {
        MovedKeepsOther(s, c, m, d);
        MovedKeepsDistinct(s, c, m, d);
      }
    }
  }

  // ---------------------------------------------------------------- environment steps

  lemma CommitGrows(s: Sys)
    requires Shared(s) && s.tx.Some? && s.tx.value.commitSent
    ensures Grows(s, Committed(s))
  {
  }

  lemma CommitKeepsShared(s: Sys)
    requires Shared(s) && s.tx.Some? && s.tx.value.commitSent
    ensures Shared(Committed(s))
  {
    CommitGrows(s);
    OutcomesStable(s, Committed(s));
    assert forall r :: Stored(Committed(s), r) == Stored(s, r);
  }

  lemma CommitKeepsOp(s: Sys, d: Client, op: Op)
    requires Shared(s) && s.tx.Some? && s.tx.value.commitSent && OpSound(s, d, op)
    ensures OpSound(Committed(s), d, op)
  {
    var t := Committed(s);
    CommitGrows(s);
    match op
    case ToClean(ids, next) => AfterStable(s, t, Clean(ids, next));
    case Sweeping(_, _, _, ok, failed) => AfterStable(s, t, ok); AfterStable(s, t, failed);
    case Closing(_, ok, failed) => AfterStable(s, t, ok); AfterStable(s, t, failed);
    case _ =>
  }

  lemma QuietKeeps(s: Sys, c: Client, l: Label, t: Sys)
    requires Inv(s) && IsEnvironment(l) && !l.ServerCommit? && Environment(s, c, l) == Some(t)
    ensures Inv(t)
  {
    QuietKeepsShared(s, c, l, t);
    QuietKeepsOps(s, c, l, t);
  }

  lemma QuietKeepsShared(s: Sys, c: Client, l: Label, t: Sys)
    requires Inv(s) && IsEnvironment(l) && !l.ServerCommit? && Environment(s, c, l) == Some(t)
    ensures Shared(t) && UploadsDistinct(t)
  {
    hide OpSound;
    assert Grows(s, t);
    OutcomesStable(s, t);
    SameBytes(s, t);
    assert forall d :: OpOf(t, d) == OpOf(s, d) || OpOf(t, d).Idle?;
  }

  lemma QuietKeepsOps(s: Sys, c: Client, l: Label, t: Sys)
    requires Inv(s) && IsEnvironment(l) && !l.ServerCommit? && Environment(s, c, l) == Some(t)
    ensures OpsSound(t)
  {
    assert forall d :: OpOf(t, d) == OpOf(s, d) || OpOf(t, d).Idle?;
    forall d ensures OpSound(t, d, OpOf(t, d)) {
      assert OpSound(s, d, OpOf(s, d));
      if !OpOf(t, d).Putting? && !OpOf(t, d).Idle? {
        UndisturbedSound(s, t, d, OpOf(t, d));
      }
    }
  }

  lemma StepKeeps(s: Sys, c: Client, l: Label, t: Sys)
    requires Inv(s) && Step(s, c, l) == Some(t)
    ensures Inv(t)
  {
    if l.ServerCommit? {
      CommitKeepsShared(s);
      forall d ensures OpSound(t, d, OpOf(t, d)) {
        assert OpOf(t, d) == OpOf(s, d);
        CommitKeepsOp(s, d, OpOf(s, d));
      }
      assert forall d :: OpOf(t, d) == OpOf(s, d);
    } else if IsEnvironment(l) {
      QuietKeeps(s, c, l, t);
    } else {
      assert OpSound(s, c, OpOf(s, c));
      var m := ClientMove(s, c, l).value;
      ClientMoveSound(s, c, l, m);
      MovedKeeps(s, c, m);
    }
  }

  lemma StepGrows(s: Sys, c: Client, l: Label, t: Sys)
    requires Inv(s) && Step(s, c, l) == Some(t)
    ensures Grows(s, t)
  {
    if l.ServerCommit? {
      CommitGrows(s);
    } else if IsEnvironment(l) {
      assert Grows(s, t);
    } else {
      assert OpSound(s, c, OpOf(s, c));
      var m := ClientMove(s, c, l).value;
      ClientMoveSound(s, c, l, m);
      EffectGrows(s, c, m.effect);
      MovedFrame(s, c, m);
      GrowsFrame(s, Perform(s, c, m.effect), t);
    }
  }

  lemma GrowsFrame(s: Sys, p: Sys, t: Sys)
    requires Grows(s, p) && t == p.(ops := t.ops, outcomes := t.outcomes)
    ensures Grows(s, t)
  {
    assert forall id :: Doomed(p, id) ==> Doomed(t, id);
    assert forall a: (Client, TxId) :: Lost(p, a) ==> Lost(t, a);
  }

  /** A final object disappears only when its row is gone for good. */
  lemma StepRemovesDoomed(s: Sys, c: Client, l: Label, t: Sys, id: Id)
    requires Inv(s) && Step(s, c, l) == Some(t) && id in s.final && id !in t.final
    ensures Doomed(s, id)
  {
    if !IsEnvironment(l) {
      assert OpSound(s, c, OpOf(s, c));
      var m := ClientMove(s, c, l).value;
      ClientMoveSound(s, c, l, m);
      MovedFrame(s, c, m);
      OnlyDropRemoves(s, c, m.effect, id);
    }
  }

  lemma OnlyDropRemoves(s: Sys, c: Client, e: Effect, id: Id)
    requires Allowed(s, c, e) && id in s.final && id !in Perform(s, c, e).final
    ensures Doomed(s, id)
  {
  }
}

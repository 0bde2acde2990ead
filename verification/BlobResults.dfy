/** The results of uploads, deletions and purges that run undisturbed, lose their transaction, or lose the answer to their commit. */
module BlobResults {
  import opened Wrappers
  import opened Content
  import opened BlobProtocol
  import opened BlobCalls

  // ---------------------------------------------------------------- an upload

  datatype Upload = Upload(id: Id, key: string, bytes: Bytes, owner: nat, expiresAt: int)

  function RowOf(u: Upload): Row {
    Row(u.key, StampOf(u.bytes), u.owner, u.expiresAt)
  }

  /** The client is free, the id is fresh, and no row has the key. */
  predicate CanUpload(s: Sys, c: Client, u: Upload) {
    && OpOf(s, c).Idle? && s.tx.None? && u.id !in s.used && KeyFree(s, u.key)
    && u.id !in s.rows && u.id !in s.final && u.id !in s.staged && Ref(u.id, false) !in s.retained && Ref(u.id, true) !in s.retained
  }

  function UploadSteps(u: Upload): seq<Label> {
    [PutBind(u.id, u.key, u.bytes, u.owner, u.expiresAt), PutStage, PutInsert, PutPromote, PutVerify, PutConfirm, PutCommit]
  }

  function PointAfter(n: nat): PutAt
    requires 1 <= n <= 7
  {
    [ToStage, ToInsert, ToPromote, ToVerify, ToConfirm, ToCommit, PutAwaiting][n - 1]
  }

  /** What the objects are after the first `n` steps: staged after two, final after four. */
  function Storing(s: Sys, u: Upload, n: nat): Sys {
    if n < 2 then s
    else if n < 4 then s.(staged := s.staged[u.id := u.bytes])
    else s.(final := s.final[u.id := u.bytes])
  }

  function Uploading(s: Sys, c: Client, u: Upload, n: nat): Sys {
    var tx := Tx(s.nextTx, c, Some(u.id), if n < 3 then None else Some(RowOf(u)), {}, n == 7);
    Storing(s, u, n).(tx := Some(tx), nextTx := s.nextTx + 1, used := s.used + {u.id})
  }

  function UploadOp(s: Sys, u: Upload, n: nat): Op
    requires 1 <= n <= 7
  {
    Putting(u.id, RowOf(u), u.bytes, s.nextTx, PointAfter(n))
  }

  /** The state after the first `n` steps. */
  function During(s: Sys, c: Client, u: Upload, n: nat): Sys
    requires 1 <= n <= 7
  {
    At(Uploading(s, c, u, n), c, UploadOp(s, u, n))
  }

  function EffectAt(u: Upload, n: nat): Effect {
    if n == 1 then WriteStaged(u.id, u.bytes)
    else if n == 2 then Insert(RowOf(u))
    else if n == 3 then WriteFinal(u.id, u.bytes, true)
    else if n == 6 then SendCommit
    else Nothing
  }

  lemma UploadBinds(s: Sys, c: Client, u: Upload)
    requires CanUpload(s, c, u)
    ensures Step(s, c, UploadSteps(u)[0]) == Some(During(s, c, u, 1))
  {
    hide KeyFree;
  }

  /** The steps on the store. */
  lemma StoreMoves(v: Sys, c: Client, u: Upload, op: Op, n: nat)
    requires OpOf(v, c) == op && op.Putting? && op.id == u.id && op.bytes == u.bytes && (n == 1 || n == 3) && op.put == PointAfter(n)
    requires n == 1 ==> u.id !in v.staged
    requires n == 3 ==> u.id in v.staged && v.staged[u.id] == u.bytes && u.id !in v.final
    ensures ClientMove(v, c, UploadSteps(u)[n]) == Some(Goto(EffectAt(u, n), op.(put := PointAfter(n + 1))))
  {
    hide OpOf;
  }

  /** The steps in the transaction, and the look at the final object. */
  lemma TxMoves(v: Sys, c: Client, u: Upload, op: Op, n: nat)
    requires OpOf(v, c) == op && op.Putting? && op.id == u.id && op.bytes == u.bytes && op.row == RowOf(u)
    requires n in {2, 4, 5, 6} && op.put == PointAfter(n) && Open(v, c, op.tx) && KeyFree(v, u.key)
    requires n == 4 ==> u.id in v.final && v.final[u.id] == u.bytes
    ensures ClientMove(v, c, UploadSteps(u)[n]) == Some(Goto(EffectAt(u, n), op.(put := PointAfter(n + 1))))
  {
    hide OpOf, KeyFree, Open;
  }

  lemma DuringMeans(s: Sys, c: Client, u: Upload, n: nat)
    requires CanUpload(s, c, u) && 1 <= n <= 6
    ensures var v := During(s, c, u, n);
      && OpOf(v, c) == UploadOp(s, u, n) && Open(v, c, s.nextTx) && KeyFree(v, u.key)
      && (n == 1 ==> u.id !in v.staged)
      && (n == 3 ==> u.id in v.staged && v.staged[u.id] == u.bytes && u.id !in v.final)
      && (n == 4 ==> u.id in v.final && v.final[u.id] == u.bytes)
  {
  }

  lemma UploadMoves(s: Sys, c: Client, u: Upload, n: nat)
    requires CanUpload(s, c, u) && 1 <= n <= 6
    ensures ClientMove(During(s, c, u, n), c, UploadSteps(u)[n]) == Some(Goto(EffectAt(u, n), UploadOp(s, u, n + 1)))
  {
    hide ClientMove, CanUpload, OpOf, Open, KeyFree, During, EffectAt;
    DuringMeans(s, c, u, n);
    if n == 1 || n == 3 {
      StoreMoves(During(s, c, u, n), c, u, UploadOp(s, u, n), n);
    } else {
      TxMoves(During(s, c, u, n), c, u, UploadOp(s, u, n), n);
    }
  }

  lemma UploadWrites(s: Sys, c: Client, u: Upload, n: nat)
    requires u.id !in s.staged && (n == 1 || n == 3)
    ensures Perform(Uploading(s, c, u, n), c, EffectAt(u, n)) == Uploading(s, c, u, n + 1)
  {
    if n == 3 { assert s.staged[u.id := u.bytes] - {u.id} == s.staged; }
  }

  lemma UploadChanges(s: Sys, c: Client, u: Upload, n: nat)
    requires n in {2, 4, 5, 6}
    ensures Perform(Uploading(s, c, u, n), c, EffectAt(u, n)) == Uploading(s, c, u, n + 1)
  {
    if n == 2 {
    } else if n == 6 {
    } else {
    }
  }

  lemma UploadPerforms(s: Sys, c: Client, u: Upload, n: nat, op: Op)
    requires CanUpload(s, c, u) && 1 <= n <= 6
    ensures Perform(At(Uploading(s, c, u, n), c, op), c, EffectAt(u, n)) == At(Uploading(s, c, u, n + 1), c, op)
  {
    hide Perform, At;
    PerformAt(Uploading(s, c, u, n), c, op, EffectAt(u, n));
    if n == 1 || n == 3 { UploadWrites(s, c, u, n); } else { UploadChanges(s, c, u, n); }
  }

  lemma UploadStep(s: Sys, c: Client, u: Upload, n: nat)
    requires CanUpload(s, c, u) && 1 <= n <= 6
    ensures Step(During(s, c, u, n), c, UploadSteps(u)[n]) == Some(During(s, c, u, n + 1))
  {
    hide CanUpload, ClientMove, Perform, At, Step, EffectAt, PointAfter, UploadOp;
    UploadMoves(s, c, u, n);
    UploadPerforms(s, c, u, n, UploadOp(s, u, n));
    Goes(Uploading(s, c, u, n), c, UploadOp(s, u, n), UploadSteps(u)[n], EffectAt(u, n), Uploading(s, c, u, n + 1), UploadOp(s, u, n + 1));
  }

  lemma {:induction false} UploadReaches(s: Sys, c: Client, u: Upload, n: nat)
    requires CanUpload(s, c, u) && 1 <= n <= 7
    ensures Play(s, c, UploadSteps(u)[..n]) == Some(During(s, c, u, n))
  {
    hide Play, Step, During, CanUpload;
    var steps := UploadSteps(u);
    assert steps[..n] == steps[..n - 1] + [steps[n - 1]];
    if n == 1 {
      UploadBinds(s, c, u);
      Play1(s, c, steps[0], During(s, c, u, 1));
      assert steps[..1] == [steps[0]];
    } else {
      UploadReaches(s, c, u, n - 1);
      UploadStep(s, c, u, n - 1);
      Play1(During(s, c, u, n - 1), c, steps[n - 1], During(s, c, u, n));
      PlayThen(s, c, steps[..n - 1], [steps[n - 1]], During(s, c, u, n - 1));
    }
  }

  /** The row is committed, and the final object holds the bytes. */
  function Finished(s: Sys, c: Client, u: Upload): Sys {
    s.(rows := s.rows[u.id := RowOf(u)], final := s.final[u.id := u.bytes], nextTx := s.nextTx + 1,
       used := s.used + {u.id}, acked := s.acked + {(c, s.nextTx)}, committed := s.committed + {u.id})
  }

  lemma UploadCommits(s: Sys, c: Client, u: Upload, op: Op)
    requires s.tx.None?
    ensures Step(At(Uploading(s, c, u, 7), c, op), c, ServerCommit) == Some(At(Finished(s, c, u), c, op))
  {
    assert s.rows - {} == s.rows && s.deleted + {} == s.deleted;
  }

  lemma CommittedUpload(s: Sys, c: Client, u: Upload)
    requires CanUpload(s, c, u)
    ensures Play(s, c, UploadSteps(u) + [ServerCommit]) == Some(At(Finished(s, c, u), c, UploadOp(s, u, 7)))
  {
    hide Play, Step, Uploading, Finished, At, UploadOp;
    UploadReaches(s, c, u, 7);
    assert UploadSteps(u)[..7] == UploadSteps(u);
    UploadCommits(s, c, u, UploadOp(s, u, 7));
    Play1(During(s, c, u, 7), c, ServerCommit, At(Finished(s, c, u), c, UploadOp(s, u, 7)));
    PlayThen(s, c, UploadSteps(u), [ServerCommit], During(s, c, u, 7));
  }

  /** The answer to the commit arrives. */
  lemma UploadHears(s: Sys, c: Client, u: Upload, op: Op)
    requires OpOf(s, c) == op && op.Putting? && op.put == PutAwaiting && (c, op.tx) in s.acked
    ensures Step(s, c, PutAck) == Some(Resumed(s, c, Clean(None, Return(PutOk(op.id)))))
  {
  }

  /** An upload that nobody disturbs commits its row, stores its bytes, and reports success once it has cleaned up. */
  lemma UploadSucceeds(s: Sys, c: Client, u: Upload)
    requires CanUpload(s, c, u)
    ensures Play(s, c, UploadSteps(u) + [ServerCommit] + [PutAck])
         == Some(Resumed(Finished(s, c, u), c, Clean(None, Return(PutOk(u.id)))))
  {
    hide Play, Step, Resumed, CanUpload, OpOf;
    var op, after := UploadOp(s, u, 7), Clean(None, Return(PutOk(u.id)));
    var s1 := At(Finished(s, c, u), c, op);
    CommittedUpload(s, c, u);
    OpAt(Finished(s, c, u), c, op);
    UploadHears(s1, c, u, op);
    Play1(s1, c, PutAck, Resumed(s1, c, after));
    PlayThen(s, c, UploadSteps(u) + [ServerCommit], [PutAck], s1);
    ResumedFrom(Finished(s, c, u), c, op, after);
  }

  // ---------------------------------------------------------------- the recheck of an upload

  lemma RecheckBinds(s: Sys, c: Client, id: Id)
    requires OpOf(s, c) == PutFailed(id) && s.tx.None?
    ensures Step(s, c, RecheckBind) == Some(Bound(s, c, Rechecking(id, s.nextTx)))
  {
  }

  lemma RecheckReads(s: Sys, c: Client, id: Id, t: TxId)
    requires OpOf(s, c) == Rechecking(id, t) && Clear(s, c, t)
    ensures Step(s, c, RecheckRead) == Some(At(s, c, AfterRead(s, id, t)))
  {
    hide RefsOf;
  }

  function AfterRead(s: Sys, id: Id, t: TxId): Op {
    if id in s.rows then Closing(t, Return(PutOk(id)), Return(PutUnavailable(id)))
    else Sweeping(t, if s.gateActive then [] else RefsOf([id]), None, Return(PutRejected(id)), Return(PutUnavailable(id)))
  }

  lemma Rereads(s: Sys, c: Client, id: Id)
    requires OpOf(s, c) == PutFailed(id) && s.tx.None?
    ensures Play(s, c, [RecheckBind, RecheckRead]) == Some(Bound(s, c, AfterRead(s, id, s.nextTx)))
  {
    hide Play, Step, OpOf, Clear, AfterRead;
    var s1 := Bound(s, c, Rechecking(id, s.nextTx));
    RecheckBinds(s, c, id);
    BoundOver(s, c, Rechecking(id, s.nextTx), Return(PutOk(id)));
    RecheckReads(s1, c, id, s.nextTx);
    AfterReadFrame(s, c, id, Rechecking(id, s.nextTx));
    Play2(s, c, RecheckBind, s1, RecheckRead, At(s1, c, AfterRead(s, id, s.nextTx)));
    BoundAt(s, c, Rechecking(id, s.nextTx), AfterRead(s, id, s.nextTx));
  }

  lemma AfterReadFrame(s: Sys, c: Client, id: Id, op: Op)
    ensures AfterRead(Bound(s, c, op), id, s.nextTx) == AfterRead(s, id, s.nextTx)
  {
    hide RefsOf;
  }

  lemma BoundAt(s: Sys, c: Client, op: Op, next: Op)
    ensures At(Bound(s, c, op), c, next) == Bound(s, c, next)
  {
    assert s.ops[c := op][c := next] == s.ops[c := next];
  }

  function RecheckSteps(s: Sys, id: Id): seq<Label> {
    if id in s.rows then [RecheckBind, RecheckRead] + CLOSING else
    [RecheckBind, RecheckRead] + (SweepSteps(s.rows, s.retained, Asked(s, Some([id]), [])) + ([SweepEnd] + CLOSING))
  }

  /**
   * After any failure the recheck tells the truth: it reports success when the row is there, and otherwise removes what
   * nothing needs of the two objects of the id - nothing while the gate is up - and records a rejection.
   */
  lemma RecheckTells(s: Sys, c: Client, id: Id)
    requires OpOf(s, c) == PutFailed(id) && s.tx.None?
    ensures var refs := Asked(s, Some([id]), []);
      && Play(s, c, RecheckSteps(s, id)) == Some(
           if id in s.rows then Resumed(Spent(s, c), c, Return(PutOk(id)))
           else Resumed(Swept(Spent(s, c), refs), c, Return(PutRejected(id))))
      && forall r :: Stored(Swept(s, refs), r) == if Unneeded(s, Some([id]), [], r) then None else Stored(s, r)
  {
    hide Play, Step, OpOf, Clear, Swept, SweepSteps, Resumed, Needed, Stored, Unneeded, Bound, Spent, RefsOf, Over;
    var t, refs, op := s.nextTx, Asked(s, Some([id]), []), AfterRead(s, id, s.nextTx);
    var s1 := Bound(s, c, op);
    Rereads(s, c, id);
    BoundOver(s, c, op, Return(PutOk(id)));
    BoundKeeps(s, c, op);
    if id in s.rows {
      Closes(s1, c, t, Return(PutOk(id)), Return(PutUnavailable(id)));
      PlayThen(s, c, [RecheckBind, RecheckRead], CLOSING, s1);
    } else {
      SweepsToEnd(s1, c, t, refs, Return(PutRejected(id)), Return(PutUnavailable(id)));
      SweptBound(s, c, refs, op, Return(PutRejected(id)));
      PlayThen(s, c, [RecheckBind, RecheckRead], SweepSteps(s.rows, s.retained, refs) + ([SweepEnd] + CLOSING), s1);
    }
    forall r ensures Stored(Swept(s, refs), r) == if Unneeded(s, Some([id]), [], r) then None else Stored(s, r) {
      AskedUnneeded(s, Some([id]), [], r);
      SweptStored(s, refs, r);
    }
  }

  lemma BoundKeeps(s: Sys, c: Client, op: Op)
    ensures Bound(s, c, op).rows == s.rows && Bound(s, c, op).retained == s.retained
  {
  }

  /** A recheck that does not come about, or loses its transaction, claims nothing. */
  lemma LostRecheckClaimsNothing(s: Sys, c: Client, id: Id)
    requires OpOf(s, c) == PutFailed(id) && s.tx.None?
    ensures Play(s, c, [RecheckUnavailable]) == Some(Resumed(s, c, Return(PutUnavailable(id))))
    ensures var lost := Resumed(s.(nextTx := s.nextTx + 1), c, Return(PutUnavailable(id)));
      && Play(s, c, [RecheckBind, ServerAbort, RecheckUnavailable]) == Some(lost)
      && Play(s, c, [RecheckBind, RecheckRead] + [ServerAbort, if id in s.rows then CloseThrow else SweepThrow]) == Some(lost)
  {
    hide Play, Step, OpOf, Resumed, RefsOf;
    var lost := s.(nextTx := s.nextTx + 1);
    var after := Return(PutUnavailable(id));
    GivesUp(s, c, id, RecheckUnavailable);
    Play1(s, c, RecheckUnavailable, Resumed(s, c, after));
    RecheckBinds(s, c, id);
    Rereads(s, c, id);
    forall op ensures Step(Bound(s, c, op), c, ServerAbort) == Some(At(lost, c, op)) { Aborts(s, c, op); }
    var reading, read := Rechecking(id, s.nextTx), AfterRead(s, id, s.nextTx);
    OpAt(lost, c, reading);
    OpAt(lost, c, read);
    ResumedFrom(lost, c, reading, after);
    ResumedFrom(lost, c, read, after);
    var throw := if id in s.rows then CloseThrow else SweepThrow;
    GivesUp(At(lost, c, reading), c, id, RecheckUnavailable);
    GivesUp(At(lost, c, read), c, id, throw);
    Play3(s, c, RecheckBind, Bound(s, c, reading), ServerAbort, At(lost, c, reading), RecheckUnavailable, Resumed(lost, c, after));
    Play2(Bound(s, c, read), c, ServerAbort, At(lost, c, read), throw, Resumed(lost, c, after));
    PlayThen(s, c, [RecheckBind, RecheckRead], [ServerAbort, throw], Bound(s, c, read));
  }

  lemma Aborts(s: Sys, c: Client, op: Op)
    requires s.tx.None?
    ensures Step(Bound(s, c, op), c, ServerAbort) == Some(At(s.(nextTx := s.nextTx + 1), c, op))
  {
  }

  lemma GivesUp(s: Sys, c: Client, id: Id, l: Label)
    requires var op := OpOf(s, c);
      || (l.RecheckUnavailable? && (op == PutFailed(id) || (op.Rechecking? && op.id == id)))
      || (l.CloseThrow? && op.Closing? && op.failed == Return(PutUnavailable(id)))
      || (l.SweepThrow? && op.Sweeping? && op.hold.None? && op.failed == Return(PutUnavailable(id)))
    ensures Step(s, c, l) == Some(Resumed(s, c, Return(PutUnavailable(id))))
  {
    hide OpOf, RefsOf;
  }

  // ---------------------------------------------------------------- uploads that fail, and commits that go unheard

  lemma UploadThrows(s: Sys, c: Client, op: Op)
    requires OpOf(s, c) == op && op.Putting?
    ensures Step(s, c, PutThrow) == Some(At(s, c, PutFailed(op.id)))
  {
  }

  lemma Fails(s: Sys, c: Client, op: Op)
    requires op.Putting?
    ensures Play(At(s, c, op), c, [PutThrow]) == Some(At(s, c, PutFailed(op.id)))
  {
    hide Play, Step, OpOf;
    OpAt(s, c, op);
    UploadThrows(At(s, c, op), c, op);
    AtAt(s, c, op, PutFailed(op.id));
    Play1(At(s, c, op), c, PutThrow, At(s, c, PutFailed(op.id)));
  }

  /** The commit was carried out but its answer was lost: the client still reports success, and the row stays. */
  lemma UnheardUploadSucceeds(s: Sys, c: Client, u: Upload)
    requires CanUpload(s, c, u)
    ensures Play(s, c, UploadSteps(u) + [ServerCommit] + [PutThrow] + ([RecheckBind, RecheckRead] + CLOSING))
         == Some(Resumed(Spent(Finished(s, c, u), c), c, Return(PutOk(u.id))))
  {
    assert s.tx.None?;
    hide Play, Step, Resumed, CanUpload, OpOf, Spent, SweepSteps, Asked, Swept, Stored;
    var op, t := UploadOp(s, u, 7), Finished(s, c, u);
    var s1, s2 := At(t, c, op), At(t, c, PutFailed(u.id));
    CommittedUpload(s, c, u);
    Fails(t, c, op);
    OpAt(t, c, PutFailed(u.id));
    RecheckTells(s2, c, u.id);
    PlayThen(s, c, UploadSteps(u) + [ServerCommit], [PutThrow], s1);
    PlayThen(s, c, UploadSteps(u) + [ServerCommit] + [PutThrow], [RecheckBind, RecheckRead] + CLOSING, s2);
    SpentFrom(t, c, PutFailed(u.id), Return(PutOk(u.id)));
  }

  /** After the first `n` steps of the upload the server has aborted its transaction. */
  function Dropped(s: Sys, u: Upload, n: nat): Sys {
    Storing(s, u, n).(nextTx := s.nextTx + 1, used := s.used + {u.id})
  }

  lemma UploadAborts(s: Sys, c: Client, u: Upload, n: nat, op: Op)
    requires s.tx.None?
    ensures Step(At(Uploading(s, c, u, n), c, op), c, ServerAbort) == Some(At(Dropped(s, u, n), c, op))
  {
  }

  lemma UploadFails(s: Sys, c: Client, u: Upload, n: nat)
    requires CanUpload(s, c, u) && 1 <= n <= 7
    ensures Play(s, c, UploadSteps(u)[..n] + [ServerAbort] + [PutThrow]) == Some(At(Dropped(s, u, n), c, PutFailed(u.id)))
  {
    assert s.tx.None?;
    hide Play, Step, CanUpload, Uploading, Dropped, At;
    var op := UploadOp(s, u, n);
    UploadReaches(s, c, u, n);
    UploadAborts(s, c, u, n, op);
    Play1(During(s, c, u, n), c, ServerAbort, At(Dropped(s, u, n), c, op));
    PlayThen(s, c, UploadSteps(u)[..n], [ServerAbort], During(s, c, u, n));
    Fails(Dropped(s, u, n), c, op);
    PlayThen(s, c, UploadSteps(u)[..n] + [ServerAbort], [PutThrow], At(Dropped(s, u, n), c, op));
  }

  /**
   * The server aborts the upload after any of its steps, even when the commit was already asked for: no row, a recorded
   * rejection, and nothing of the upload is left behind - unless the gate is up, which keeps what was written.
   */
  lemma AbortedUploadIsRejected(s: Sys, c: Client, u: Upload, n: nat)
    requires CanUpload(s, c, u) && 1 <= n <= 7
    ensures var refs := Asked(s, Some([u.id]), []);
      && Play(s, c, UploadSteps(u)[..n] + [ServerAbort] + [PutThrow] + RecheckSteps(s, u.id))
         == Some(Resumed(Swept(Spent(Dropped(s, u, n), c), refs), c, Return(PutRejected(u.id))))
      && forall r :: Stored(Swept(Dropped(s, u, n), refs), r) ==
           if s.gateActive then Stored(Storing(s, u, n), r) else if r.id == u.id then None else Stored(s, r)
  {
    assert s.tx.None?;
    hide Play, Step, CanUpload, Dropped, Resumed, OpOf, Swept, Stored, Unneeded, RecheckSteps, RefsOf, Spent, At;
    var v, op := Dropped(s, u, n), PutFailed(u.id);
    var s1, refs := At(v, c, op), Asked(s, Some([u.id]), []);
    UploadFails(s, c, u, n);
    OpAt(v, c, op);
    DroppedKeeps(s, c, u, n, op);
    RecheckTells(s1, c, u.id);
    PlayThen(s, c, UploadSteps(u)[..n] + [ServerAbort] + [PutThrow], RecheckSteps(s, u.id), s1);
    SweptFrom(v, c, op, refs, Return(PutRejected(u.id)));
    forall r ensures Stored(Swept(v, refs), r) ==
                     if s.gateActive then Stored(Storing(s, u, n), r) else if r.id == u.id then None else Stored(s, r) {
      DroppedObjects(s, c, u, n, r);
    }
  }

  lemma DroppedKeeps(s: Sys, c: Client, u: Upload, n: nat, op: Op)
    requires CanUpload(s, c, u)
    ensures var v := At(Dropped(s, u, n), c, op);
      v.tx.None? && u.id !in v.rows && RecheckSteps(v, u.id) == RecheckSteps(s, u.id) && Asked(v, Some([u.id]), []) == Asked(s, Some([u.id]), [])
  {
    hide RefsOf, SweepSteps;
  }

  lemma DroppedObjects(s: Sys, c: Client, u: Upload, n: nat, r: Ref)
    requires CanUpload(s, c, u)
    ensures Stored(Swept(Dropped(s, u, n), Asked(s, Some([u.id]), [])), r)
         == if s.gateActive then Stored(Storing(s, u, n), r) else if r.id == u.id then None else Stored(s, r)
  {
    hide RefsOf, Swept;
    SweptStored(Dropped(s, u, n), Asked(s, Some([u.id]), []), r);
    RefsOfHas([u.id], r);
  }

  /** However an upload fails, the recheck decides: no row and no transaction changes, and no object of another id. */
  lemma EveryFailureIsRechecked(s: Sys, c: Client, l: Label, t: Sys)
    requires OpOf(s, c).Putting? && (l.PutThrow? || l.PutStageFault? || l.PutPromoteFault?) && Step(s, c, l) == Some(t)
    ensures OpOf(t, c) == PutFailed(OpOf(s, c).id) && t.rows == s.rows && t.tx == s.tx && t.outcomes == s.outcomes
    ensures forall r: Ref :: r.id != OpOf(s, c).id ==> Stored(t, r) == Stored(s, r)
    ensures l.PutThrow? ==> t == At(s, c, PutFailed(OpOf(s, c).id))
  {
    hide ClientMove, Perform, OpOf, Stored;
    var id, m := OpOf(s, c).id, ClientMove(s, c, l).value;
    FailureMoves(s, c, l, m);
    FailureEffects(s, c, id, m.effect);
    OpAt(Perform(s, c, m.effect), c, PutFailed(id));
    assert t == At(Perform(s, c, m.effect), c, PutFailed(id));
    forall r: Ref | r.id != id ensures Stored(t, r) == Stored(s, r) { StoredFrom(Perform(s, c, m.effect), c, PutFailed(id), r); }
  }

  /** Nothing happens, or something is written for this id. */
  predicate WritesOnly(e: Effect, id: Id) {
    e.Nothing? || (e.WriteStaged? && e.id == id) || (e.WriteFinal? && e.id == id)
  }

  lemma FailureMoves(s: Sys, c: Client, l: Label, m: Move)
    requires OpOf(s, c).Putting? && (l.PutThrow? || l.PutStageFault? || l.PutPromoteFault?) && ClientMove(s, c, l) == Some(m)
    ensures m == Goto(m.effect, PutFailed(OpOf(s, c).id)) && WritesOnly(m.effect, OpOf(s, c).id)
    ensures l.PutThrow? ==> m.effect.Nothing?
  {
    hide OpOf;
  }

  lemma FailureEffects(s: Sys, c: Client, id: Id, e: Effect)
    requires WritesOnly(e, id)
    ensures var t := Perform(s, c, e);
      && t.rows == s.rows && t.tx == s.tx && t.outcomes == s.outcomes && t.ops == s.ops
      && (forall r: Ref :: r.id != id ==> Stored(t, r) == Stored(s, r))
      && (e.Nothing? ==> t == s)
  {
  }

  lemma StoredFrom(s: Sys, c: Client, op: Op, r: Ref)
    ensures Stored(At(s, c, op), r) == Stored(s, r)
  {
  }

  /** An upload that gets no transaction is rechecked too. */
  lemma UnboundUploadIsRechecked(s: Sys, c: Client, id: Id)
    requires OpOf(s, c).Idle? && id !in s.used
    ensures Step(s, c, PutBindFault(id)) == Some(At(s.(used := s.used + {id}), c, PutFailed(id)))
  {
  }

  /** A failed staging request leaves anything. */
  lemma FailedStagingLeaves(s: Sys, c: Client, op: Op, left: Option<Bytes>)
    requires OpOf(s, c) == op && op.Putting? && op.put == ToStage
    ensures Step(s, c, PutStageFault(left))
         == Some(At(if left.Some? then s.(staged := s.staged[op.id := left.value]) else s, c, PutFailed(op.id)))
  {
    hide OpOf;
  }

  /** A failed promotion leaves everything as it was, or on S3 the final object and perhaps the staged one, or is a rename that worked. */
  lemma FailedPromotionLeaves(s: Sys, c: Client, op: Op, wrote: bool, cleared: bool)
    requires OpOf(s, c) == op && op.Putting? && op.put == ToPromote
    ensures !wrote ==> Step(s, c, PutPromoteFault(wrote, cleared)) == Some(At(s, c, PutFailed(op.id)))
    ensures wrote && s.backend.S3? ==>
      Step(s, c, PutPromoteFault(wrote, cleared)) == Some(At(
        s.(final := s.final[op.id := op.bytes], staged := if cleared then s.staged - {op.id} else s.staged), c, PutFailed(op.id)))
    ensures wrote && s.backend.Filesystem? ==>
      Step(s, c, PutPromoteFault(wrote, cleared)) ==
        if op.id in s.staged && op.id !in s.final
        then Some(At(s.(final := s.final[op.id := s.staged[op.id]], staged := s.staged - {op.id}), c, PutFailed(op.id)))
        else None
  {
    hide OpOf;
  }
}

/** What the blob protocol promises about whole runs, for every interleaving, crash and lost acknowledgement. */
module BlobRuns {
  import opened Wrappers
  import opened Content
  import opened BlobProtocol
  import opened BlobSafety

  lemma {:induction false} RunKeeps(ss: seq<Sys>, cs: seq<Client>, ls: seq<Label>, i: nat)
    requires IsRun(ss, cs, ls) && i < |ss|
    ensures Inv(ss[i])
  {
    if i == 0 {
      InitSound(ss[0]);
    } else {
      RunKeeps(ss, cs, ls, i - 1);
      assert StepAt(ss, cs, ls, i - 1);
      StepKeeps(ss[i - 1], cs[i - 1], ls[i - 1], ss[i]);
    }
  }

  lemma InitSound(s: Sys)
    requires Init(s)
    ensures Inv(s)
  {
    assert forall c :: OpOf(s, c).Idle?;
    assert forall r :: r in s.retained ==> r.id in s.used;
  }

  lemma {:induction false} RunGrows(ss: seq<Sys>, cs: seq<Client>, ls: seq<Label>, i: nat, j: nat)
    requires IsRun(ss, cs, ls) && i <= j < |ss|
    ensures Grows(ss[i], ss[j])
  {
    if i == j {
      GrowsReflexive(ss[i]);
    } else {
      hide *;
      RunGrows(ss, cs, ls, i, j - 1);
      RunStepGrows(ss, cs, ls, j - 1);
      GrowsTransitive(ss[i], ss[j - 1], ss[j]);
    }
  }

  lemma RunStepGrows(ss: seq<Sys>, cs: seq<Client>, ls: seq<Label>, i: nat)
    requires IsRun(ss, cs, ls) && i + 1 < |ss|
    ensures Grows(ss[i], ss[i + 1])
  {
    hide Inv, Step, Init, Grows;
    RunKeeps(ss, cs, ls, i);
    assert StepAt(ss, cs, ls, i);
    StepGrows(ss[i], cs[i], ls[i], ss[i + 1]);
  }

  lemma GrowsReflexive(s: Sys)
    ensures Grows(s, s)
  {
    hide Doomed, Lost;
  }

  lemma GrowsTransitive(a: Sys, b: Sys, c: Sys)
    requires Grows(a, b) && Grows(b, c)
    ensures Grows(a, c)
  {
    hide Doomed, Lost;
    assert forall id :: Doomed(a, id) ==> Doomed(b, id);
    assert forall x: (Client, TxId) :: Lost(a, x) ==> Lost(b, x);
  }

  /**
   * Durability: in every reachable state each committed row has a final object of exactly its size and
   * hash, and every retained object still holds the bytes it held at the start.
   */
  lemma Durable(ss: seq<Sys>, cs: seq<Client>, ls: seq<Label>, i: nat)
    requires IsRun(ss, cs, ls) && i < |ss|
    ensures forall id :: id in ss[i].rows ==> id in ss[i].final && StampOf(ss[i].final[id]) == ss[i].rows[id].stamp
    ensures ss[i].retained == ss[0].retained
    ensures forall r :: r in ss[0].retained ==> Stored(ss[i], r) == Stored(ss[0], r)
  {
    RunKeeps(ss, cs, ls, i);
    RunKeeps(ss, cs, ls, 0);
    RunGrows(ss, cs, ls, 0, i);
  }

  /** A row leaves the table only by a committed deletion, and its id never gets a row again. */
  lemma RowsAreCommittedNotDeleted(ss: seq<Sys>, cs: seq<Client>, ls: seq<Label>, i: nat, j: nat)
    requires IsRun(ss, cs, ls) && i <= j < |ss|
    ensures ss[i].rows.Keys == ss[i].committed - ss[i].deleted
    ensures ss[i].deleted <= ss[j].deleted && ss[i].deleted !! ss[j].rows.Keys
  {
    RunKeeps(ss, cs, ls, i);
    RunKeeps(ss, cs, ls, j);
    RunGrows(ss, cs, ls, i, j);
  }

  /** Every outcome a client reports is true when it is reported, and stays true. */
  lemma OutcomesAreHonest(ss: seq<Sys>, cs: seq<Client>, ls: seq<Label>, i: nat, j: nat, o: Outcome)
    requires IsRun(ss, cs, ls) && i <= j < |ss| && o in ss[i].outcomes
    ensures o.PutOk? ==> o.id in ss[i].committed
    ensures o.PutRejected? ==> o.id !in ss[j].rows
    ensures o.DeleteOk? ==> o.id in ss[i].deleted && o.id !in ss[j].rows
    ensures o.DeleteRejected? && o.confirmed ==> o.attempt !in ss[j].acked
  {
    RunKeeps(ss, cs, ls, i);
    RunGrows(ss, cs, ls, i, j);
    assert OutcomeHonest(ss[i], o);
    if o.PutRejected? || o.DeleteOk? { assert Doomed(ss[j], o.id); }
    if o.DeleteRejected? && o.confirmed { assert Lost(ss[j], o.attempt); }
  }

  /** Whatever removes a final object, a recheck or a sweep, no row of that id commits later. */
  lemma RemovedBytesAreNeverNeeded(ss: seq<Sys>, cs: seq<Client>, ls: seq<Label>, i: nat, j: nat, id: Id)
    requires IsRun(ss, cs, ls) && i + 1 < |ss| && i <= j < |ss|
    requires id in ss[i].final && id !in ss[i + 1].final
    ensures id !in ss[j].rows
  {
    RunKeeps(ss, cs, ls, i);
    assert StepAt(ss, cs, ls, i);
    StepRemovesDoomed(ss[i], cs[i], ls[i], ss[i + 1], id);
    RunGrows(ss, cs, ls, i, j);
  }

  /**
   * A recorded put rejection does not mean that the row never committed. It is a false claim exactly
   * when a deletion, by a client or by the expiry purge, took the committed row before the recheck looked for it.
   */
  lemma RejectionIsFalseIffDeleted(ss: seq<Sys>, cs: seq<Client>, ls: seq<Label>, i: nat, id: Id)
    requires IsRun(ss, cs, ls) && i < |ss| && PutRejected(id) in ss[i].outcomes
    ensures id in ss[i].committed <==> id in ss[i].deleted
  {
    RunKeeps(ss, cs, ls, i);
    assert OutcomeHonest(ss[i], PutRejected(id));
  }

  // ---------------------------------------------------------------- runs that show the limits

  function Empty(): Sys {
    Sys(S3, map[], map[], map[], map[], None, 0, {}, {}, map[], true, 0, {}, {}, {})
  }

  /** A run that ends in `s`. */
  ghost predicate Reaches(s: Sys) {
    exists ss, cs, ls :: IsRun(ss, cs, ls) && ss[|ss| - 1] == s
  }

  lemma Next(s: Sys, c: Client, l: Label) returns (t: Sys)
    requires Reaches(s) && Step(s, c, l).Some?
    ensures t == Step(s, c, l).value && Reaches(t)
  {
    hide Step, Init;
    t := Step(s, c, l).value;
    var ss, cs, ls :| IsRun(ss, cs, ls) && ss[|ss| - 1] == s;
    forall i | 0 <= i < |ls + [l]| ensures StepAt(ss + [t], cs + [c], ls + [l], i) {
      assert i < |ls| ==> StepAt(ss, cs, ls, i);
    }
    assert IsRun(ss + [t], cs + [c], ls + [l]);
  }

  const UPLOADED := Row("k", StampOf([]), 0, 100)

  /** Client 0 alone, at a program point of its upload of id 7. */
  ghost predicate UploadAt(s: Sys, at: PutAt) {
    && Reaches(s) && s.backend.S3? && s.gateActive && s.rows == map[] && s.committed == {} && s.deleted == {}
    && s.acked == {} && s.nextTx == 1
    && OpOf(s, 0) == Putting(7, UPLOADED, [], 0, at) && OpOf(s, 1).Idle?
    && s.tx == Some(Tx(0, 0, Some(7), if at == ToStage || at == ToInsert then None else Some(UPLOADED), {}, false))
    && (at == ToVerify || at == ToConfirm || at == ToCommit ==> 7 in s.final && s.final[7] == [])
  }

  lemma Start() returns (s: Sys)
    ensures Reaches(s) && s.backend.S3? && s.gateActive && s.rows == map[] && s.committed == {} && s.deleted == {}
    ensures s.acked == {} && s.nextTx == 0 && s.tx.None? && s.used == {} && s.ops == map[]
  {
    s := Empty();
    assert IsRun([s], [], []);
  }

  lemma UploadBound() returns (s: Sys)
    ensures UploadAt(s, ToStage)
  {
    s := Start();
    s := Next(s, 0, PutBind(7, "k", [], 0, 100));
  }

  lemma UploadStart() returns (s: Sys)
    ensures UploadAt(s, ToInsert)
  {
    s := UploadBound();
    s := Next(s, 0, PutStage);
  }

  lemma UploadInserted() returns (s: Sys)
    ensures UploadAt(s, ToPromote)
  {
    s := UploadStart();
    s := Next(s, 0, PutInsert);
  }

  lemma UploadMiddle() returns (s: Sys)
    ensures UploadAt(s, ToVerify)
  {
    s := UploadInserted();
    s := Next(s, 0, PutPromote);
  }

  lemma UploadVerified() returns (s: Sys)
    ensures UploadAt(s, ToConfirm)
  {
    s := UploadMiddle();
    s := Next(s, 0, PutVerify);
  }

  lemma UploadEnd() returns (s: Sys)
    ensures UploadAt(s, ToCommit)
  {
    s := UploadVerified();
    s := Next(s, 0, PutConfirm);
  }

  lemma CommitSent() returns (s: Sys)
    ensures Reaches(s) && s.gateActive && s.tx == Some(Tx(0, 0, Some(7), Some(UPLOADED), {}, true)) && s.nextTx == 1
    ensures s.rows == map[] && s.committed == {} && s.deleted == {} && s.acked == {}
    ensures OpOf(s, 0) == Putting(7, UPLOADED, [], 0, PutAwaiting) && OpOf(s, 1).Idle?
  {
    s := UploadEnd();
    s := Next(s, 0, PutCommit);
  }

  lemma CommitDone() returns (s: Sys)
    ensures Reaches(s) && s.gateActive && s.tx.None? && s.nextTx == 1 && s.acked == {(0, 0)}
    ensures s.rows == map[7 := UPLOADED] && s.committed == {7} && s.deleted == {}
    ensures OpOf(s, 0) == Putting(7, UPLOADED, [], 0, PutAwaiting) && OpOf(s, 1).Idle?
  {
    s := CommitSent();
    s := Next(s, 0, ServerCommit);
  }

  /** The row of id 7 has committed, but client 0 was not told. */
  lemma CommittedUnheard() returns (s: Sys)
    ensures Reaches(s) && s.gateActive && s.tx.None? && s.nextTx == 1 && s.acked == {(0, 0)}
    ensures s.rows == map[7 := UPLOADED] && s.committed == {7} && s.deleted == {}
    ensures OpOf(s, 0) == PutFailed(7) && OpOf(s, 1).Idle?
  {
    s := CommitDone();
    s := Next(s, 0, PutThrow);
  }

  lemma DeleteBound() returns (s: Sys)
    ensures Reaches(s) && s.gateActive && s.nextTx == 2 && s.tx == Some(Tx(1, 1, None, None, {}, false))
    ensures s.rows == map[7 := UPLOADED] && s.committed == {7} && s.deleted == {} && s.acked == {(0, 0)}
    ensures OpOf(s, 0) == PutFailed(7) && OpOf(s, 1) == Deleting(7, None, 1, ToRead)
  {
    s := CommittedUnheard();
    s := Next(s, 1, DeleteBind(7, None));
  }

  lemma DeleteReady() returns (s: Sys)
    ensures Reaches(s) && s.gateActive && s.nextTx == 2 && s.tx == Some(Tx(1, 1, None, None, {7}, false))
    ensures s.rows == map[7 := UPLOADED] && s.committed == {7} && s.deleted == {} && s.acked == {(0, 0)}
    ensures OpOf(s, 0) == PutFailed(7) && OpOf(s, 1) == Deleting(7, None, 1, ToSendDelete)
  {
    s := DeleteBound();
    s := Next(s, 1, DeleteRead);
  }

  lemma DeleteSent() returns (s: Sys)
    ensures Reaches(s) && s.gateActive && s.nextTx == 2 && s.tx == Some(Tx(1, 1, None, None, {7}, true))
    ensures s.rows == map[7 := UPLOADED] && s.committed == {7} && s.deleted == {}
    ensures OpOf(s, 0) == PutFailed(7) && OpOf(s, 1) == Deleting(7, None, 1, DeleteAwaiting)
  {
    s := DeleteReady();
    s := Next(s, 1, DeleteCommit);
  }

  /** Client 1 deletes the row, and its commit goes through. */
  lemma DeletedMeanwhile() returns (s: Sys)
    ensures Reaches(s) && s.gateActive && s.tx.None? && s.nextTx == 2
    ensures 7 !in s.rows && 7 in s.committed && 7 in s.deleted && (1, 1) in s.acked
    ensures OpOf(s, 0) == PutFailed(7) && OpOf(s, 1) == Deleting(7, None, 1, DeleteAwaiting)
  {
    s := DeleteSent();
    s := Next(s, 1, ServerCommit);
  }

  lemma RecheckBound() returns (s: Sys)
    ensures Reaches(s) && s.tx == Some(Tx(2, 0, None, None, {}, false)) && s.gateActive
    ensures 7 in s.committed && 7 !in s.rows && OpOf(s, 0) == Rechecking(7, 2)
  {
    s := DeletedMeanwhile();
    s := Next(s, 0, RecheckBind);
  }

  lemma RecheckSawNothing() returns (s: Sys)
    ensures Reaches(s) && s.tx == Some(Tx(2, 0, None, None, {}, false)) && 7 in s.committed
    ensures OpOf(s, 0) == Sweeping(2, [], None, Return(PutRejected(7)), Return(PutUnavailable(7)))
  {
    s := RecheckBound();
    s := Next(s, 0, RecheckRead);
  }

  lemma RecheckEnds() returns (s: Sys)
    ensures Reaches(s) && s.tx == Some(Tx(2, 0, None, None, {}, false)) && 7 in s.committed
    ensures OpOf(s, 0) == Closing(2, Return(PutRejected(7)), Return(PutUnavailable(7)))
  {
    s := RecheckSawNothing();
    s := Next(s, 0, SweepEnd);
  }

  lemma RecheckCloses() returns (s: Sys)
    ensures Reaches(s) && (0, 2) in s.acked && 7 in s.committed
    ensures OpOf(s, 0) == Closing(2, Return(PutRejected(7)), Return(PutUnavailable(7)))
  {
    s := RecheckEnds();
    s := Next(s, 0, CloseSend);
    s := Next(s, 0, ServerCommit);
  }

  /** The false put rejection is reachable: commit, lost acknowledgement, foreign delete, recheck. */
  lemma PutRejectionCanBeFalse() returns (s: Sys)
    ensures Reaches(s) && PutRejected(7) in s.outcomes && 7 in s.committed
  {
    s := RecheckCloses();
    s := Next(s, 0, CloseAck);
  }

  lemma DeleteThrown() returns (s: Sys)
    ensures Reaches(s) && OpOf(s, 1) == DeleteFailed(7, 1) && (1, 1) in s.acked && 7 in s.deleted
  {
    s := DeletedMeanwhile();
    s := Next(s, 1, DeleteThrow);
  }

  /** Unlike putBlob, deleteBlob records a rejection when its recheck is unavailable, even if the row is gone. */
  lemma DeleteRejectionCanBeFalse() returns (s: Sys)
    ensures Reaches(s) && DeleteRejected(7, (1, 1), false) in s.outcomes && (1, 1) in s.acked && 7 in s.deleted
  {
    s := DeleteThrown();
    s := Next(s, 1, DeleteRecheckFault);
  }

  lemma PurgeBound() returns (s: Sys)
    ensures Reaches(s) && s.nextTx == 2 && s.tx == Some(Tx(1, 1, None, None, {}, false)) && 100 <= s.now
    ensures s.rows == map[7 := UPLOADED] && OpOf(s, 1) == Purging([], 1, ToSelect)
  {
    s := CommittedUnheard();
    s := Next(s, 1, Tick(if s.now <= 100 then 100 else s.now));
    s := Next(s, 1, PurgeBind);
  }

  lemma PurgeSelected() returns (s: Sys)
    ensures Reaches(s) && s.tx == Some(Tx(1, 1, None, None, {7}, false)) && OpOf(s, 1) == Purging([7], 1, ToSendPurge)
  {
    s := PurgeBound();
    s := Next(s, 1, PurgeSelect([7]));
    assert forall i :: i in s.tx.value.deletes <==> i in [7];
    assert s.tx.value.deletes == {7};
  }

  lemma PurgeDone() returns (s: Sys)
    ensures Reaches(s) && (1, 1) in s.acked && 7 in s.deleted && OpOf(s, 1) == Purging([7], 1, PurgeAwaiting)
  {
    s := PurgeSelected();
    s := Next(s, 1, PurgeCommit);
    s := Next(s, 1, ServerCommit);
  }

  /** A purge whose commit was not heard is recorded as rejected although it deleted its rows; nothing rechecks it. */
  lemma PurgeRejectionCanBeFalse() returns (s: Sys)
    ensures Reaches(s) && PurgeRejected((1, 1)) in s.outcomes && (1, 1) in s.acked && 7 in s.deleted
  {
    s := PurgeDone();
    s := Next(s, 1, PurgeThrow);
  }
}

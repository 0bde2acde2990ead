/** An approved row change is applied to exactly the row that was looked at when the Approval was requested. */
module ApprovedRows {
  import opened Wrappers
  import opened ApprovalPolicy
  import opened ApprovalProtocol
  import opened ApprovalSafety

  ghost predicate AtMost(a: Option<Position>, b: Option<Position>) {
    a.None? || (b.Some? && a.value <= b.value)
  }

  /** LastConsumed is the largest position at which an Approval for the row was consumed. */
  lemma {:induction false} LastConsumedIsMax(approvals: seq<Approval>, row: RowId)
    ensures forall id :: 0 <= id < |approvals| && approvals[id].target == RowTarget(row) ==>
      AtMost(approvals[id].consumed, LastConsumed(approvals, row))
    ensures LastConsumed(approvals, row).Some? ==>
      exists id :: 0 <= id < |approvals| && approvals[id].target == RowTarget(row) && approvals[id].consumed == LastConsumed(approvals, row)
  {
    if approvals != [] {
      var n := |approvals| - 1;
      LastConsumedIsMax(approvals[..n], row);
      var rest := LastConsumed(approvals[..n], row);
      forall id | 0 <= id < |approvals| && approvals[id].target == RowTarget(row) ensures AtMost(approvals[id].consumed, LastConsumed(approvals, row)) {
        if id < n { assert approvals[..n][id] == approvals[id]; }
      }
      if rest.Some? && LastConsumed(approvals, row) == rest {
        var id :| 0 <= id < n && approvals[..n][id].target == RowTarget(row) && approvals[..n][id].consumed == rest;
        assert approvals[id].consumed == rest;
      } else if LastConsumed(approvals, row).Some? {
        assert approvals[n].consumed == LastConsumed(approvals, row);
      }
    }
  }

  lemma LastConsumedGrows(s: State, t: State, row: RowId)
    requires ApprovalsLater(s, t)
    ensures AtMost(LastConsumed(s.approvals, row), LastConsumed(t.approvals, row))
  {
    LastConsumedIsMax(s.approvals, row);
    LastConsumedIsMax(t.approvals, row);
    var last := LastConsumed(s.approvals, row);
    if last.Some? {
      var id :| 0 <= id < |s.approvals| && s.approvals[id].target == RowTarget(row) && s.approvals[id].consumed == last;
      assert Later(s.approvals[id], t.approvals[id], |s.events|);
    }
  }

  lemma ConsumingMovesOn(s: State, t: State, id: Id, row: RowId)
    requires Inv(s) && Evolves(s, t) && OnlyConsumes(s, t, id) && s.approvals[id].target == RowTarget(row)
    ensures LastConsumed(t.approvals, row) != LastConsumed(s.approvals, row)
  {
    hide LastConsumed, LedgerGapless, ApprovalSound;
    LastConsumedIsMax(s.approvals, row);
    LastConsumedIsMax(t.approvals, row);
    assert Later(s.approvals[id], t.approvals[id], |s.events|);
    var last := LastConsumed(s.approvals, row);
    if last.Some? {
      var other :| 0 <= other < |s.approvals| && s.approvals[other].target == RowTarget(row) && s.approvals[other].consumed == last;
      assert Logged(s.events, last.value, Consumed(other));
    }
  }

  /** The gate was enabled under the same epoch all along, since no epoch returns. */
  lemma GateUnchanged(a: State, b: State, c: State, at: Selector)
    requires Inv(a) && Evolves(a, b) && Evolves(b, c)
    requires GateEpoch(a.gates, at).Some? && GateEpoch(c.gates, at) == GateEpoch(a.gates, at)
    ensures GateEpoch(b.gates, at) == GateEpoch(a.gates, at)
  {
    hide ApprovalsLater, ApprovalSound, ConsumptionsLogged, LedgerGapless;
  }

  /** A row with the same version before and after was not touched in between, by anyone. */
  lemma {:induction false} SameVersionUntouched(ss: seq<State>, ls: seq<Label>, i: nat, k: nat, j: nat, row: RowId)
    requires IsRun(ss, ls) && i <= k <= j < |ss|
    requires RowTargetVersion(ss[i], row).Ok? && RowTargetVersion(ss[j], row) == RowTargetVersion(ss[i], row)
    ensures row in ss[i].rows && row in ss[k].rows && ss[k].rows[row] == ss[i].rows[row]
    ensures RowTargetVersion(ss[k], row) == RowTargetVersion(ss[i], row)
    decreases k
  {
    Between(ss, ls, i, k, j, row);
    if k > i {
      SameVersionUntouched(ss, ls, i, k - 1, j, row);
      StepTouchesNothing(ss, ls, i, k - 1, j, row);
    }
  }

  lemma VersionParts(s: State, t: State, row: RowId)
    requires RowTargetVersion(s, row).Ok? && RowTargetVersion(t, row) == RowTargetVersion(s, row)
    ensures GateEpoch(s.gates, RowGate(row.table)).Some? && GateEpoch(t.gates, RowGate(row.table)) == GateEpoch(s.gates, RowGate(row.table))
    ensures CurrentRevision(t.ledger) == CurrentRevision(s.ledger) && LastConsumed(t.approvals, row) == LastConsumed(s.approvals, row)
  {
    hide LastConsumed, CurrentRevision, GateEpoch;
  }

  lemma Between(ss: seq<State>, ls: seq<Label>, i: nat, k: nat, j: nat, row: RowId)
    requires IsRun(ss, ls) && i <= k <= j < |ss|
    requires RowTargetVersion(ss[i], row).Ok? && RowTargetVersion(ss[j], row) == RowTargetVersion(ss[i], row)
    ensures CurrentRevision(ss[k].ledger) == CurrentRevision(ss[i].ledger)
    ensures GateEpoch(ss[k].gates, RowGate(row.table)) == GateEpoch(ss[i].gates, RowGate(row.table))
    ensures LastConsumed(ss[k].approvals, row) == LastConsumed(ss[i].approvals, row)
  {
    hide IsRun, Inv, LastConsumed, CurrentRevision, ApprovalsLater, GatesLater, GateEpoch;
    RunKeeps(ss, ls, i);
    RunEvolves(ss, ls, i, k);
    RunEvolves(ss, ls, k, j);
    RevisionsAreGapless(ss, ls, i, i);
    RevisionsAreGapless(ss, ls, i, k);
    RevisionsAreGapless(ss, ls, k, j);
    VersionParts(ss[i], ss[j], row);
    LastConsumedGrows(ss[i], ss[k], row);
    LastConsumedGrows(ss[k], ss[j], row);
    GateUnchanged(ss[i], ss[k], ss[j], RowGate(row.table));
  }

  lemma StepTouchesNothing(ss: seq<State>, ls: seq<Label>, i: nat, k: nat, j: nat, row: RowId)
    requires IsRun(ss, ls) && i <= k < j < |ss|
    requires RowTargetVersion(ss[i], row).Ok? && RowTargetVersion(ss[j], row) == RowTargetVersion(ss[i], row)
    requires row in ss[k].rows && RowTargetVersion(ss[k], row) == RowTargetVersion(ss[i], row)
    ensures row in ss[k + 1].rows && ss[k + 1].rows[row] == ss[k].rows[row]
  {
    Between(ss, ls, i, k, j, row);
    Between(ss, ls, i, k + 1, j, row);
    RunKeeps(ss, ls, k);
    RunEvolves(ss, ls, k, k + 1);
    assert StepAt(ss, ls, k);
    hide IsRun, Inv, Step, Evolves, LastConsumed, CurrentRevision, OnlyConsumes;
    if RowChanged(ss[k], ss[k + 1], row) {
      GatedRowsChangeByApproval(ss[k], ls[k], ss[k + 1], row);
      var id :| AuthorizesRow(ss[k], ss[k + 1], id, row);
      ConsumingMovesOn(ss[k], ss[k + 1], id, row);
    }
  }

  /** An Approval for a row carries the version that the row had when it was requested. */
  lemma RequestedAtVersion(s: State, l: Label, t: State, row: RowId)
    requires Step(s, l, t) && |t.approvals| > |s.approvals| && t.approvals[|s.approvals|].target == RowTarget(row)
    ensures RowTargetVersion(s, row) == Ok(t.approvals[|s.approvals|].version)
  {
    hide RowTargetVersion, DecisionRefusal, CurrentRevision;
    assert l.RequestStep? by {
      match l
      case DecideStep(id, authorized, who, decision, d) =>
        if Decide(s, id, authorized, who, decision, d).Ok? { DecisionIsFresh(s, id, authorized, who, decision, d); }
      case _ =>
    }
    var requested := RequestTarget(s, l.who, l.request).value;
    assert requested.target == RowTarget(row) && l.request.row == row;
    assert RowTargetVersion(s, row) == Ok(RowTargetVersion(s, row).value);
  }

  lemma ConsumedAtVersion(s: State, l: Label, t: State, id: Id, row: RowId)
    requires Step(s, l, t) && OnlyConsumes(s, t, id) && s.approvals[id].target == RowTarget(row)
    ensures RowTargetVersion(s, row) == Ok(s.approvals[id].version)
  {
    hide RowTargetVersion, RequestTarget, DecisionRefusal, CurrentRevision;
    match l
    case ApplyStep(who, input, plan, _) => ApplyConsumes(s, who, input, plan);
    case ExecuteStep(who, input, _) => if RowCheck(s, who, input).value.Some? { RowCheckConsumes(s, who, input); }
    case _ =>
  }

  lemma RunStep(ss: seq<State>, ls: seq<Label>, i: nat)
    requires IsRun(ss, ls) && i + 1 < |ss|
    ensures i < |ls| && Step(ss[i], ls[i], ss[i + 1])
  {
    assert StepAt(ss, ls, i);
  }

  lemma SameVersionAtBothEnds(ss: seq<State>, ls: seq<Label>, i: nat, j: nat, id: Id, row: RowId)
    requires IsRun(ss, ls) && i < j && j + 1 < |ss|
    requires id == |ss[i].approvals| < |ss[i + 1].approvals| && ss[i + 1].approvals[id].target == RowTarget(row)
    requires id < |ss[j].approvals| && OnlyConsumes(ss[j], ss[j + 1], id)
    ensures RowTargetVersion(ss[i], row).Ok? && RowTargetVersion(ss[j], row) == RowTargetVersion(ss[i], row)
  {
    hide *;
    RunStep(ss, ls, i);
    RunStep(ss, ls, j);
    KeptIdentity(ss, ls, i + 1, j, id);
    RequestedAtVersion(ss[i], ls[i], ss[i + 1], row);
    ConsumedAtVersion(ss[j], ls[j], ss[j + 1], id, row);
  }

  /**
   * From its request to its consumption, the row of an Approval was never changed and no Migration was applied:
   * what is executed is what the approver could look at.
   */
  lemma ApprovedRowWasUntouched(ss: seq<State>, ls: seq<Label>, i: nat, k: nat, j: nat, id: Id, row: RowId)
    requires IsRun(ss, ls) && i < k <= j && j + 1 < |ss|
    requires id == |ss[i].approvals| < |ss[i + 1].approvals| && ss[i + 1].approvals[id].target == RowTarget(row)
    requires id < |ss[j].approvals| && OnlyConsumes(ss[j], ss[j + 1], id)
    ensures row in ss[i].rows && row in ss[k].rows && ss[k].rows[row] == ss[i].rows[row]
    ensures ss[k].ledger == ss[i].ledger
  {
    SameVersionAtBothEnds(ss, ls, i, j, id, row);
    hide *;
    SameVersionUntouched(ss, ls, i, k, j, row);
    Between(ss, ls, i, k, j, row);
    RevisionsAreGapless(ss, ls, i, i);
    RevisionsAreGapless(ss, ls, i, k);
  }
}

/** When a decision goes through, what it records, and that nothing else makes an Approval approved. */
module ApprovalDecisions {
  import opened Wrappers
  import opened ApprovalPolicy
  import opened ApprovalProtocol

  /** The target is as it was when the Approval was requested: the held Delivery, the row's version, or the gated revision. */
  predicate IsCurrent(s: State, a: Approval, d: Option<DeliveryFacts>) {
    match a.target
    case Delivery(_) => d.Some? && d.value.current && d.value.held && d.value.version == Some(a.version)
    case RowTarget(row) =>
      var at := RowGate(row.table);
      && at in s.gates && s.gates[at].enabled && row in s.rows
      && a.version == RowVersion(CurrentRevision(s.ledger), s.gates[at].epoch, LastConsumed(s.approvals, row), s.rows[row])
    case SqlTarget(_) =>
      && MigrationGate in s.gates && s.gates[MigrationGate].enabled && a.epoch == Some(s.gates[MigrationGate].epoch)
      && a.version == Revision(CurrentRevision(s.ledger))
  }

  /** A Principal would decide about its own request or its own Run, and the Workspace does not allow that. */
  predicate DecidesOwn(s: State, a: Approval, who: Option<Principal>) {
    !s.allowSelf && who.Some? && (who.value == a.requestedBy || who.value == a.runPrincipal)
  }

  /**
   * A decision goes through exactly when it is authorized and the Approval exists, is undecided, unexpired and current,
   * the decider may decide about it, and an approved Delivery can be released. Each refusal names the first of these that fails.
   */
  lemma DecisionGoesThroughIff(s: State, l: Label)
    requires l.DecideStep?
    ensures var r := Outcome(s, l);
      var known := l.authorized && l.id < |s.approvals|;
      var open := known && s.approvals[l.id].verdict.None?;
      var timely := open && s.now < s.approvals[l.id].expiresAt;
      var current := timely && IsCurrent(s, s.approvals[l.id], l.delivery);
      var allowed := current && !DecidesOwn(s, s.approvals[l.id], l.decider);
      var done := allowed && (l.decision.Approve? && s.approvals[l.id].target.Delivery? ==> l.delivery.value.released);
      && (r.Ok? <==> done)
      && (r == Err(ApprovalForbidden) <==> !l.authorized)
      && (r == Err(ApprovalNotFound) <==> l.authorized && !known)
      && (r == Err(AlreadyDecided) <==> known && !open)
      && (r == Err(ApprovalExpired) <==> open && !timely)
      && (r == Err(ApprovalStale) <==> timely && !current)
      && (r == Err(SelfForbidden) <==> current && !allowed)
      && (r == Err(ExecutionFailed) <==> allowed && !done)
  {
    hide CurrentRevision, LastConsumed;
  }

  /** A decision records the verdict as given, by whom and under which rule, logs it, and changes nothing else. */
  lemma DecisionIsRecorded(s: State, l: Label, t: State)
    requires l.DecideStep? && Step(s, l, t) && t != s
    ensures l.id < |s.approvals| && l.authorized
    ensures var v := Verdict(l.decision, |s.events| + 1, l.decider, s.allowSelf);
      && t.approvals == s.approvals[l.id := s.approvals[l.id].(verdict := Some(v))]
      && t == s.(approvals := t.approvals, events := s.events + [Decided(l.id, v)])
  {
    hide CurrentVersion, DecisionPolicy;
  }

  /** An authorized decision to approve the Approval, while it was undecided, unexpired and current. */
  ghost predicate Approves(s: State, l: Label, t: State, id: Id) {
    && l.DecideStep? && l.id == id && l.decision.Approve? && l.authorized
    && id < |s.approvals| && s.approvals[id].verdict.None? && s.now < s.approvals[id].expiresAt
    && IsCurrent(s, s.approvals[id], l.delivery) && !DecidesOwn(s, s.approvals[id], l.decider)
    && Outcome(s, l) == Ok(t)
  }

  ghost predicate WasApproved(ss: seq<State>, ls: seq<Label>, j: nat, id: Id)
    requires IsRun(ss, ls) && j < |ss|
  {
    exists k :: 0 <= k < j && Approves(ss[k], ls[k], ss[k + 1], id)
  }

  lemma StepApproves(s: State, l: Label, t: State, id: Id)
    requires Step(s, l, t) && id < |t.approvals| && Approved(t.approvals[id])
    ensures (id < |s.approvals| && Approved(s.approvals[id])) || Approves(s, l, t, id)
  {
    if t != s && l.DecideStep? {
      hide Outcome, IsCurrent;
      DecisionIsRecorded(s, l, t);
      DecisionGoesThroughIff(s, l);
    } else {
      hide RequestTarget, DecisionRefusal, ApplyRefusal, RowCheck, CurrentRevision;
    }
  }

  /** An Approval counts as approved only by such a decision. */
  lemma {:induction false} ApprovedByDecision(ss: seq<State>, ls: seq<Label>, j: nat, id: Id)
    requires IsRun(ss, ls) && j < |ss| && id < |ss[j].approvals| && Approved(ss[j].approvals[id])
    ensures WasApproved(ss, ls, j, id)
  {
    assert j > 0;
    assert StepAt(ss, ls, j - 1);
    hide Step, Approves, Init;
    StepApproves(ss[j - 1], ls[j - 1], ss[j], id);
    if !Approves(ss[j - 1], ls[j - 1], ss[j], id) {
      ApprovedByDecision(ss, ls, j - 1, id);
      var k :| 0 <= k < j - 1 && Approves(ss[k], ls[k], ss[k + 1], id);
    }
  }
}

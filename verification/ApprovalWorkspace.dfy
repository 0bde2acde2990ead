/** The transactions over the tables of one Workspace, each proved to do what its specification function says. */
module ApprovalWorkspace {
  import opened Wrappers
  import opened ApprovalPolicy
  import Spec = ApprovalProtocol
  import opened ApprovalProtocol

  class Workspace {
    var gates: map<Selector, Gate>
    var approvals: seq<Approval>
    var ledger: seq<Migration>
    var events: seq<Event>
    var rows: map<RowId, string>
    var now: int
    var drawn: set<Epoch>
    var allowSelf: bool

    constructor (rows: map<RowId, string>, now: int)
      ensures Init(View()) && View().rows == rows && View().now == now
    {
      gates, approvals, ledger, events := map[], [], [], [];
      this.rows, this.now, drawn, allowSelf := rows, now, {}, false;
    }

    function View(): State
      reads this
    {
      State(gates, approvals, ledger, events, rows, now, drawn, allowSelf)
    }

    /** A transaction either committed the specified state, or failed for the specified reason and changed nothing. */
    ghost predicate Did(before: State, specified: Result<State, Error>, error: Option<Error>)
      reads this
    {
      match specified
      case Ok(after) => error.None? && View() == after
      case Err(e) => error == Some(e) && View() == before
    }

    method Emit(e: Event) returns (position: Position)
      modifies `events
      ensures events == old(events) + [e] && position == |events|
    {
      events := events + [e];
      position := |events|;
    }

    /** Insert the gate, or change it and draw a new epoch when `enabled` differs. */
    method SetGate(member: bool, supported: bool, at: Selector, enabled: bool, epoch: Epoch) returns (error: Option<Error>)
      modifies this
      ensures Did(old(View()), Spec.SetGate(old(View()), member, supported, at, enabled, epoch), error)
    {
      if !member { return Some(ApprovalForbidden); }
      if at.RowGate? && !supported { return Some(TargetUnsupported); }
      var changed := at !in gates || gates[at].enabled != enabled;
      if changed {
        gates, drawn := gates[at := Gate(enabled, epoch)], drawn + {epoch};
        var _ := Emit(GateSet(at, gates[at]));
      }
      error := None;
    }

    method RequestApproval(who: Principal, runBy: Principal, r: Request, lifetime: nat) returns (error: Option<Error>)
      modifies this
      ensures Did(old(View()), Insert(old(View()), who, runBy, r, lifetime), error)
    {
      var target := RequestTarget(View(), who, r);
      if target.Err? { return Some(target.error); }
      var t := target.value;
      var preview := if r.MigrationRequest? then Some(r.preview) else None;
      approvals := approvals + [Approval(t.target, t.version, who, runBy, t.epoch, t.action, preview, now + lifetime, None, None)];
      var _ := Emit(Event.Requested(|approvals| - 1));
      error := None;
    }

    method Decide(id: Id, authorized: bool, who: Option<Principal>, decision: Decision, d: Option<DeliveryFacts>) returns (error: Option<Error>)
      modifies this
      ensures Did(old(View()), Spec.Decide(old(View()), id, authorized, who, decision, d), error)
      ensures error.None? ==> authorized && id < |old(approvals)|
      ensures error.None? ==>
        var v := Verdict(decision, |old(events)| + 1, who, old(allowSelf));
        approvals == old(approvals)[id := old(approvals)[id].(verdict := Some(v))] && events == old(events) + [Decided(id, v)]
    {
      if !authorized { return Some(ApprovalForbidden); }
      if id >= |approvals| { return Some(ApprovalNotFound); }
      var a := approvals[id];
      if a.verdict.Some? { return Some(AlreadyDecided); }
      if a.expiresAt <= now { return Some(ApprovalExpired); }
      var version := CurrentVersion(View(), a, d);
      if version.Err? { return Some(version.error); }
      var reason := DecisionPolicy(FactsOf(View(), a, who, d, version.value));
      if reason.Some? { return reason; }
      if decision.Approve? && a.target.Delivery? && !(d.Some? && d.value.released) { return Some(ExecutionFailed); }
      var verdict := Verdict(decision, |events| + 1, who, allowSelf);
      var _ := Emit(Decided(id, verdict));
      approvals := approvals[id := a.(verdict := Some(verdict))];
      error := None;
    }

    /** Mark one Approval as consumed by the event that says so. */
    method ConsumeApproval(id: Id)
      requires id < |approvals|
      modifies `approvals, `events
      ensures View() == Consume(old(View()), id)
    {
      var position := Emit(Consumed(id));
      approvals := approvals[id := approvals[id].(consumed := Some(position))];
    }

    method ConsumeMigrationApproval(id: Id, gate: GateFacts, input: ApplyInput, who: Principal) returns (error: Option<Error>)
      modifies `approvals, `events
      ensures error == MigrationConsumptionPolicy(gate, input.expected, input.hash, input.preview, who, Lookup(old(View()), id), now)
      ensures error.None? ==> id < |old(approvals)| && View() == Consume(old(View()), id)
      ensures error.Some? ==> View() == old(View())
    {
      var approval := Lookup(View(), id);
      error := MigrationConsumptionPolicy(gate, input.expected, input.hash, input.preview, who, approval, now);
      if error.None? { ConsumeApproval(id); }
    }

    /** Check everything, consume the Approval, run the statements, append to the ledger; a failure rolls back. */
    method ApplyMigration(who: Principal, input: ApplyInput, plan: Option<Plan>, after: Option<map<RowId, string>>) returns (error: Option<Error>)
      modifies this
      ensures Did(old(View()), Apply(old(View()), who, input, plan, after), error)
    {
      var savedApprovals, savedEvents := approvals, events;
      var stale := MigrationRevisionPolicy(CurrentRevision(ledger), input.expected);
      if stale.Some? { return stale; }
      if input.oversized { return Some(InvalidInput); }
      if plan.None? { return Some(PlanRefused); }
      if plan.value.destructive && !input.destructive { return Some(DestructiveUnflagged); }
      if input.hash != Sha256Of(input.sql) { return Some(PreviewMismatch); }
      if !PreviewAt(View(), input.preview, who, input.expected, input.hash) { return Some(PreviewMismatch); }
      if events[input.preview - 1].destructive != plan.value.destructive { return Some(PreviewMismatch); }
      if exists t :: t in plan.value.tables && GateEpoch(gates, RowGate(t)).Some? { return Some(GateConflict); }
      var gate := MigrationTarget(View());
      if gate.epoch.Some? && input.approval.None? { return Some(ApprovalRequired); }
      if input.approval.Some? {
        error := ConsumeMigrationApproval(input.approval.value, gate, input, who);
        if error.Some? { return; }
      }
      if after.None? {
        approvals, events := savedApprovals, savedEvents;
        return Some(ExecutionFailed);
      }
      rows := Rewritten(rows, plan.value.tables, after.value);
      ledger := ledger + [Migration(input.expected + 1, input.name, input.sql, plan.value.destructive, who)];
      var _ := Emit(Applied(input.expected + 1, input.hash));
      error := None;
    }

    /** An SQL statement under the Workspace's row gates. */
    method ExecuteSql(who: Option<Principal>, input: RowInput, effect: Effect) returns (error: Option<Error>)
      modifies this
      ensures Did(old(View()), Execute(old(View()), who, input, effect), error)
    {
      var check := RowCheck(View(), who, input);
      if check.Err? { return Some(check.error); }
      if effect.Failed? { return Some(ExecutionFailed); }
      if check.value.None? {
        rows := Unguarded(rows, input, effect.after);
      } else {
        if effect.count != 1 { return Some(ApprovalMismatch); }
        rows := Guarded(rows, Proposal(input).value, effect.after);
        ConsumeApproval(check.value.value);
      }
      var _ := Emit(Other);
      error := None;
    }
  }
}

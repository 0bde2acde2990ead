/** When gate changes, requests, Migrations and statements go through, why not, and what exactly they change. */
module ApprovalEffects {
  import opened Wrappers
  import opened ApprovalPolicy
  import opened ApprovalProtocol

  // ---------------------------------------------------------------- gates

  /** A member sets any Migration gate and any row gate that is supported; an epoch is drawn exactly for a new or changed gate. */
  lemma GateChanges(s: State, l: Label)
    requires l.GateStep?
    ensures var r := Outcome(s, l);
      var same := l.at in s.gates && s.gates[l.at].enabled == l.enabled;
      && (r == Err(ApprovalForbidden) <==> !l.member)
      && (r == Err(TargetUnsupported) <==> l.member && l.at.RowGate? && !l.supported)
      && (r.Ok? <==> l.member && (l.at.RowGate? ==> l.supported))
      && (r.Ok? && same ==> r.value == s)
      && (r.Ok? && !same ==>
            && r.value.gates.Keys == s.gates.Keys + {l.at} && r.value.gates[l.at] == Gate(l.enabled, l.epoch)
            && (forall other :: other in s.gates && other != l.at ==> r.value.gates[other] == s.gates[other])
            && r.value == s.(gates := r.value.gates, drawn := s.drawn + {l.epoch}, events := s.events + [GateSet(l.at, Gate(l.enabled, l.epoch))]))
  {
  }

  /** A preview is recorded for whoever asked, for the revision at that moment and the very statements. */
  lemma PreviewIsRecorded(s: State, l: Label)
    requires l.PreviewStep?
    ensures Outcome(s, l) == Ok(s.(events := s.events + [Previewed(l.previewer, CurrentRevision(s.ledger), Sha256Of(l.sql), l.destructive)]))
  {
  }

  // ---------------------------------------------------------------- requests

  /** The event at the position is a preview of this Migration for this Principal. */
  predicate Previews(s: State, position: Position, who: Principal, revision: nat, hash: Hash) {
    && 1 <= position <= |s.events| && position <= 0x7fff_ffff_ffff_ffff
    && (s.events[position - 1] == Previewed(who, revision, hash, false) || s.events[position - 1] == Previewed(who, revision, hash, true))
  }

  /** What a request adds: an undecided Approval for whoever asked, and its event. */
  ghost predicate Adds(s: State, l: Label, target: Target, version: Version, epoch: Option<Epoch>, action: Option<Action>, preview: Option<Position>)
    requires l.RequestStep?
  {
    Outcome(s, l) == Ok(s.(
      approvals := s.approvals + [Approval(target, version, l.who, l.runBy, epoch, action, preview, s.now + l.lifetime, None, None)],
      events := s.events + [Event.Requested(|s.approvals|)]))
  }

  /** A Migration Approval can be requested while the gate is enabled, for the next revision and one's own preview of it. */
  lemma MigrationRequests(s: State, l: Label)
    requires l.RequestStep? && l.request.MigrationRequest?
    ensures var r, q, at := Outcome(s, l), l.request, MigrationGate;
      var gated := at in s.gates && s.gates[at].enabled;
      var timely := gated && q.expected == CurrentRevision(s.ledger);
      var shown := timely && Previews(s, q.preview, l.who, q.expected, q.hash);
      && (r == Err(GateNotFound) <==> !gated)
      && (r == Err(ApprovalStale) <==> gated && !timely)
      && (r == Err(ApprovalMismatch) <==> timely && !shown)
      && (r.Ok? <==> shown)
      && (shown ==> Adds(s, l, SqlTarget(q.hash), Revision(q.expected), Some(s.gates[at].epoch), Some(SqlAction(q.hash)), Some(q.preview)))
  {
    hide CurrentRevision;
  }

  /** The row is there and its table is gated. */
  predicate Gated(s: State, row: RowId) {
    RowGate(row.table) in s.gates && s.gates[RowGate(row.table)].enabled && row in s.rows
  }

  function VersionOf(s: State, row: RowId): Version
    requires Gated(s, row)
  {
    RowVersion(CurrentRevision(s.ledger), s.gates[RowGate(row.table)].epoch, LastConsumed(s.approvals, row), s.rows[row])
  }

  /** A row Approval can be requested exactly for the row that the statement provably selects, at the version it has now. */
  lemma RowRequests(s: State, l: Label)
    requires l.RequestStep? && l.request.RowRequest?
    ensures var r, q := Outcome(s, l), l.request;
      var proven := q.proposal.Some? && Gated(s, q.proposal.value) && Gated(s, q.row);
      && (r.Ok? <==> proven && q.proposal.value == q.row && VersionOf(s, q.row) == q.version)
      && (r == Err(TargetUnsupported) <==> q.proposal.None?)
      && (r == Err(ApprovalMismatch) <==> proven && q.proposal.value != q.row)
      && (r == Err(ApprovalStale) <==> proven && q.proposal.value == q.row && VersionOf(s, q.row) != q.version)
      && (q.proposal.Some? && !proven ==>
            var missing := if Gated(s, q.proposal.value) then q.row else q.proposal.value;
            r == Err(if RowGate(missing.table) in s.gates && s.gates[RowGate(missing.table)].enabled then TargetNotFound else GateNotFound))
      && (r.Ok? ==> Adds(s, l, RowTarget(q.row), q.version, Some(s.gates[RowGate(q.row.table)].epoch), Some(RowAction(q.statement, q.row)), None))
  {
    hide CurrentRevision, LastConsumed;
  }

  /** An Approval for a Delivery is requested for as long as the queue holds it. */
  lemma MessageRequests(s: State, l: Label)
    requires l.RequestStep? && l.request.MessageRequest?
    ensures var r, q := Outcome(s, l), l.request;
      && (r == Err(ExecutionFailed) <==> q.heldAt.None?)
      && (q.heldAt.Some? ==> Adds(s, l, Delivery(q.delivery), HeldAt(q.heldAt.value), None, None, None))
  {
  }

  // ---------------------------------------------------------------- Migrations

  /**
   * A Migration is applied exactly when it is for the current revision, within the size limit, has a verified plan that is
   * declared destructive if it is, is what the Principal was shown, touches no gated table, and has the Approval that the
   * gate asks for. Each refusal names the first of these that fails.
   */
  lemma MigrationGoesThroughIff(s: State, l: Label)
    requires l.ApplyStep?
    ensures var r, q := Outcome(s, l), l.input;
      var current := CurrentRevision(s.ledger) == q.expected;
      var sized := current && !q.oversized;
      var planned := sized && l.plan.Some?;
      var flagged := planned && (l.plan.value.destructive ==> q.destructive);
      var shown := flagged && q.hash == Sha256Of(q.sql) && PreviewsPlan(s, l.principal, q, l.plan.value);
      var free := shown && !TouchesGated(s, l.plan.value);
      var gated := MigrationGate in s.gates && s.gates[MigrationGate].enabled;
      var asked := free && (gated ==> q.approval.Some?);
      var paid := asked && (q.approval.Some? ==> PaymentRefusal(s, l.principal, q).None?);
      && (r == Err(RevisionStale) <==> !current)
      && (r == Err(InvalidInput) <==> current && !sized)
      && (r == Err(PlanRefused) <==> sized && !planned)
      && (r == Err(DestructiveUnflagged) <==> planned && !flagged)
      && (r == Err(PreviewMismatch) <==> flagged && !shown)
      && (r == Err(GateConflict) <==> shown && !free)
      && (r == Err(ApprovalRequired) <==> free && !asked)
      && (asked && !paid ==> r == Err(PaymentRefusal(s, l.principal, q).value))
      && (r == Err(ExecutionFailed) <==> paid && l.after.None?)
      && (r.Ok? <==> paid && l.after.Some?)
  {
    hide CurrentRevision, Rewritten;
  }

  /** The event at the position shows this Principal this Migration, with the same verdict on whether it destroys something. */
  predicate PreviewsPlan(s: State, who: Principal, q: ApplyInput, plan: Plan) {
    && 1 <= q.preview <= |s.events| && q.preview <= 0x7fff_ffff_ffff_ffff
    && s.events[q.preview - 1] == Previewed(who, q.expected, q.hash, plan.destructive)
  }

  predicate TouchesGated(s: State, plan: Plan) {
    exists t :: t in plan.tables && RowGate(t) in s.gates && s.gates[RowGate(t)].enabled
  }

  /** Why the named Approval does not pay for the Migration. */
  function PaymentRefusal(s: State, who: Principal, q: ApplyInput): Option<Error>
    requires q.approval.Some?
  {
    var id := q.approval.value;
    if id >= |s.approvals| then Some(ApprovalNotFound)
    else
      var a := s.approvals[id];
      if !(a.requestedBy == who && a.target == SqlTarget(q.hash) && a.action == Some(SqlAction(q.hash))) then Some(ApprovalMismatch)
      else if a.consumed.Some? then Some(AlreadyConsumed)
      else if !(s.now < a.expiresAt) then Some(ApprovalExpired)
      else if !(MigrationGate in s.gates && s.gates[MigrationGate].enabled && a.epoch == Some(s.gates[MigrationGate].epoch)
                && a.version == Revision(q.expected)) then Some(ApprovalStale)
      else if a.preview != Some(q.preview) then Some(ApprovalMismatch)
      else if !(a.verdict.Some? && a.verdict.value.decision == Approve) then Some(NotApproved)
      else None
  }

  /**
   * An applied Migration appends its ledger entry, rewrites the planned tables and no other row, consumes the Approval it
   * names and no other, and logs both.
   */
  lemma MigrationIsApplied(s: State, l: Label, t: State)
    requires l.ApplyStep? && Outcome(s, l) == Ok(t)
    ensures var q, id := l.input, l.input.approval;
      && l.plan.Some? && l.after.Some? && (id.Some? ==> id.value < |s.approvals|)
      && t == s.(ledger := s.ledger + [Migration(q.expected + 1, q.name, q.sql, l.plan.value.destructive, l.principal)],
                 approvals := t.approvals, events := t.events, rows := t.rows)
      && (forall r: RowId :: r.table in l.plan.value.tables ==> (r in t.rows <==> r in l.after.value) && (r in t.rows ==> t.rows[r] == l.after.value[r]))
      && (forall r: RowId :: r.table !in l.plan.value.tables ==> (r in t.rows <==> r in s.rows) && (r in t.rows ==> t.rows[r] == s.rows[r]))
      && t.events == s.events + (if id.Some? then [Consumed(id.value)] else []) + [Applied(q.expected + 1, q.hash)]
      && t.approvals == if id.Some? then s.approvals[id.value := s.approvals[id.value].(consumed := Some(|s.events| + 1))] else s.approvals
  {
    hide CurrentRevision, PreviewAt;
  }

  // ---------------------------------------------------------------- statements

  predicate TableGated(s: State, table: string) {
    RowGate(table) in s.gates && s.gates[RowGate(table)].enabled
  }

  /** A statement that only inserts, or writes no gated table and names no Approval, needs none. */
  predicate Free(s: State, q: RowInput) {
    q.insertOnly || (q.approval.None? && !(q.writes.Some? && TableGated(s, q.writes.value)))
  }

  /** Why the statement is refused that names no Approval although its table is gated. */
  function Demand(s: State, q: RowInput): Error
    requires q.writes.Some?
  {
    if q.key.Some? && RowId(q.writes.value, q.key.value) in s.rows then ApprovalRequired else TargetUnsupported
  }

  /** Why the named Approval does not pay for the statement. */
  function RowPaymentRefusal(s: State, who: Option<Principal>, q: RowInput): Option<Error>
    requires q.approval.Some?
  {
    var id := q.approval.value;
    if id >= |s.approvals| then Some(ApprovalNotFound)
    else
      var a := s.approvals[id];
      if !(who == Some(a.requestedBy) && a.target.RowTarget?) then Some(ApprovalMismatch)
      else if !(q.writes.Some? && TableGated(s, q.writes.value)) then
        Some(if q.writes == Some(a.target.row.table) then ApprovalStale else ApprovalMismatch)
      else if a.consumed.Some? then Some(AlreadyConsumed)
      else if !(s.now < a.expiresAt) then Some(ApprovalExpired)
      else if !(a.verdict.Some? && a.verdict.value.decision == Approve) then Some(NotApproved)
      else if !(q.expectsOne && a.action == Some(RowAction(q.statement, a.target.row))) then Some(ApprovalMismatch)
      else if q.key.None? then Some(TargetUnsupported)
      else if RowId(q.writes.value, q.key.value) !in s.rows then Some(TargetNotFound)
      else if a.target.row != RowId(q.writes.value, q.key.value) then Some(ApprovalMismatch)
      else if !(a.epoch == Some(s.gates[RowGate(q.writes.value)].epoch) && a.version == VersionOf(s, a.target.row)) then Some(ApprovalStale)
      else None
  }

  /**
   * A statement runs exactly when it is free of gates or its Approval pays for it and it then reports one row. Each
   * refusal names the first condition that fails.
   */
  lemma StatementGoesThroughIff(s: State, l: Label)
    requires l.ExecuteStep?
    ensures var r, q := Outcome(s, l), l.row;
      var free := Free(s, q);
      var named := !free && q.approval.Some?;
      var paid := named && RowPaymentRefusal(s, l.caller, q).None?;
      && (!free && !named ==> r == Err(Demand(s, q)))
      && (named && !paid ==> r == Err(RowPaymentRefusal(s, l.caller, q).value))
      && (free || paid ==> (r == Err(ExecutionFailed) <==> l.effect.Failed?))
      && (free ==> (r.Ok? <==> l.effect.Ran?))
      && (paid ==> (r.Ok? <==> l.effect.Ran? && l.effect.count == 1))
      && (paid && l.effect.Ran? && l.effect.count != 1 ==> r == Err(ApprovalMismatch))
  {
    hide CurrentRevision, LastConsumed, Guarded, Unguarded;
  }

  /**
   * A free statement changes rows of its table only, and adds rows only if it only inserts; a paid one gives its one row
   * the new content or deletes it, consumes its Approval, and changes nothing else.
   */
  lemma StatementIsExecuted(s: State, l: Label, t: State)
    requires l.ExecuteStep? && Outcome(s, l) == Ok(t)
    ensures l.effect.Ran?
    ensures var q, after := l.row, l.effect.after;
      && t == s.(approvals := t.approvals, events := t.events, rows := t.rows)
      && (Free(s, q) ==>
            && t.approvals == s.approvals && t.events == s.events + [Other]
            && (forall r: RowId :: var writes := q.writes == Some(r.table) && (q.insertOnly ==> r !in s.rows);
                  && (r in t.rows <==> if writes then r in after else r in s.rows)
                  && (r in t.rows ==> t.rows[r] == if writes then after[r] else s.rows[r])))
      && (!Free(s, q) ==>
            && q.approval.Some? && q.writes.Some? && q.key.Some? && q.approval.value < |s.approvals|
            && var id, row := q.approval.value, RowId(q.writes.value, q.key.value);
            && t.approvals == s.approvals[id := s.approvals[id].(consumed := Some(|s.events| + 1))]
            && t.events == s.events + [Consumed(id), Other]
            && row in s.rows
            && (forall r: RowId :: r in t.rows <==> r in s.rows && (r == row ==> r in after))
            && (forall r: RowId :: r in t.rows ==> t.rows[r] == if r == row then after[r] else s.rows[r]))
  {
    hide CurrentRevision, LastConsumed;
  }
}

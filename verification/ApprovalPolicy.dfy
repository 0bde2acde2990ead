/** The pure decisions over the facts that the adapters read (apps/server/approvals). */
module ApprovalPolicy {
  import opened Wrappers

  type Principal = string
  type Epoch = nat
  type Position = nat

  const MAX_POSITION: nat := 0x7fff_ffff_ffff_ffff

  /** The text of a SHA-256 hash, which is injective on the statements that occur. */
  datatype Hash = Sha256Of(sql: string) | OtherHex(hex: string)

  datatype RowId = RowId(table: string, key: string)

  datatype Target = Delivery(id: string) | RowTarget(row: RowId) | SqlTarget(hash: Hash)

  /** A row's version covers its contents, the schema revision, the gate's epoch and the last approved change. */
  datatype Version =
    | HeldAt(at: string)
    | RowVersion(revision: nat, epoch: Epoch, lastConsumed: Option<Position>, content: string)
    | Revision(number: nat)

  datatype Action = SqlAction(hash: Hash) | RowAction(statement: string, row: RowId)

  datatype Decision = Approve | Reject

  /** Who decided, with whom allowed to: a user when `decidedBy` is None, else a delegated Principal. */
  datatype Verdict = Verdict(decision: Decision, position: Position, decidedBy: Option<Principal>, selfAllowed: bool)

  datatype Approval = Approval(
    target: Target, version: Version, requestedBy: Principal, runPrincipal: Principal, epoch: Option<Epoch>,
    action: Option<Action>, preview: Option<Position>, expiresAt: int, verdict: Option<Verdict>, consumed: Option<Position>)

  datatype Error =
    | RevisionStale | GateNotFound | ApprovalStale | ApprovalMismatch | ApprovalNotFound | AlreadyConsumed | ApprovalExpired
    | NotApproved | AlreadyDecided | SelfForbidden | ApprovalForbidden | InvalidInput | PlanRefused | DestructiveUnflagged
    | PreviewMismatch | GateConflict | ApprovalRequired | ExecutionFailed | TargetUnsupported | TargetNotFound

  /** The Migration gate's epoch when it is enabled, and the current revision. */
  datatype GateFacts = GateFacts(epoch: Option<Epoch>, revision: nat)

  function MigrationRevisionPolicy(current: nat, expected: nat): Option<Error> {
    if current == expected then None else Some(RevisionStale)
  }

  function MigrationRequestPolicy(gate: GateFacts, previewMatches: bool, expected: nat): Option<Error> {
    if gate.epoch.None? then Some(GateNotFound)
    else if MigrationRevisionPolicy(gate.revision, expected).Some? then Some(ApprovalStale)
    else if previewMatches then None else Some(ApprovalMismatch)
  }

  predicate Approved(a: Approval) {
    a.verdict.Some? && a.verdict.value.decision.Approve?
  }

  function MigrationConsumptionPolicy(gate: GateFacts, expected: nat, hash: Hash, preview: Position, who: Principal,
                                      approval: Option<Approval>, now: int): Option<Error> {
    if MigrationRevisionPolicy(gate.revision, expected).Some? then Some(RevisionStale)
    else if approval.None? then Some(ApprovalNotFound)
    else
      var a := approval.value;
      if a.requestedBy != who || a.target != SqlTarget(hash) || a.action != Some(SqlAction(hash)) then Some(ApprovalMismatch)
      else if a.consumed.Some? then Some(AlreadyConsumed)
      else if a.expiresAt <= now then Some(ApprovalExpired)
      else if gate.epoch.None? || a.epoch != gate.epoch || a.version != Revision(gate.revision) then Some(ApprovalStale)
      else if a.preview != Some(preview) then Some(ApprovalMismatch)
      else if !Approved(a) then Some(NotApproved)
      else None
  }

  datatype DecisionFacts = DecisionFacts(
    message: bool, decided: bool, expired: bool, current: bool, held: bool, version: Version, heldVersion: Option<Version>,
    allowSelf: bool, who: Option<Principal>, requestedBy: Principal, runPrincipal: Principal)

  function DecisionPolicy(f: DecisionFacts): Option<Error> {
    if f.decided then Some(AlreadyDecided)
    else if f.expired then Some(ApprovalExpired)
    else if !f.current || (f.message && !f.held) || Some(f.version) != f.heldVersion then Some(ApprovalStale)
    else if !f.allowSelf && (f.who == Some(f.requestedBy) || f.who == Some(f.runPrincipal)) then Some(SelfForbidden)
    else None
  }
}

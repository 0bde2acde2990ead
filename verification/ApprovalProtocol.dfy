/**
Gates, Approvals and the Migration ledger of one Workspace. Every operation is one transaction under the bound
Workspace cursor, so operations are atomic steps; each is given as a function from the state it reads to the state
it commits, and the class Workspace performs it table by table.
*/
module ApprovalProtocol {
  import opened Wrappers
  import opened ApprovalPolicy

  /** An Approval's id is its place in the table. */
  type Id = nat

  datatype Selector = MigrationGate | RowGate(table: string)

  datatype Gate = Gate(enabled: bool, epoch: Epoch)

  datatype Migration = Migration(revision: nat, name: string, sql: string, destructive: bool, who: Principal)

  /** Audit Events; the event at index p - 1 has position p. */
  datatype Event =
    | Previewed(who: Principal, revision: nat, hash: Hash, destructive: bool)
    | GateSet(selector: Selector, gate: Gate)
    | Requested(id: Id)
    | Decided(id: Id, verdict: Verdict)
    | Consumed(id: Id)
    | Applied(revision: nat, hash: Hash)
    | Other

  datatype State = State(
    gates: map<Selector, Gate>, approvals: seq<Approval>, ledger: seq<Migration>, events: seq<Event>,
    rows: map<RowId, string>, now: int, drawn: set<Epoch>, allowSelf: bool)

  function GateEpoch(gates: map<Selector, Gate>, at: Selector): Option<Epoch> {
    if at in gates && gates[at].enabled then Some(gates[at].epoch) else None
  }

  /** coalesce(max(revision), 0) */
  function CurrentRevision(ledger: seq<Migration>): nat {
    if ledger == [] then 0
    else
      var n := |ledger| - 1;
      var rest := CurrentRevision(ledger[..n]);
      if ledger[n].revision > rest then ledger[n].revision else rest
  }

  /** max(consumed_position) of the Approvals for a row. */
  function LastConsumed(approvals: seq<Approval>, row: RowId): Option<Position> {
    if approvals == [] then None
    else
      var a := approvals[|approvals| - 1];
      var rest := LastConsumed(approvals[..|approvals| - 1], row);
      if a.target == RowTarget(row) && a.consumed.Some? && (rest.None? || a.consumed.value > rest.value) then a.consumed else rest
  }

  function MigrationTarget(s: State): GateFacts {
    GateFacts(GateEpoch(s.gates, MigrationGate), CurrentRevision(s.ledger))
  }

  predicate PreviewAt(s: State, position: Position, who: Principal, revision: nat, hash: Hash) {
    && 1 <= position <= |s.events| && position <= MAX_POSITION
    && s.events[position - 1].Previewed?
    && s.events[position - 1].who == who && s.events[position - 1].revision == revision && s.events[position - 1].hash == hash
  }

  /** The row's current target version, or why there is none. */
  function RowTargetVersion(s: State, row: RowId): Result<Version, Error> {
    var epoch := GateEpoch(s.gates, RowGate(row.table));
    if epoch.None? then Err(GateNotFound)
    else if row !in s.rows then Err(TargetNotFound)
    else Ok(RowVersion(CurrentRevision(s.ledger), epoch.value, LastConsumed(s.approvals, row), s.rows[row]))
  }

  // ---------------------------------------------------------------- gates

  function SetGate(s: State, member: bool, supported: bool, at: Selector, enabled: bool, epoch: Epoch): Result<State, Error> {
    if !member then Err(ApprovalForbidden)
    else if at.RowGate? && !supported then Err(TargetUnsupported)
    else if at in s.gates && s.gates[at].enabled == enabled then Ok(s)
    else Ok(s.(gates := s.gates[at := Gate(enabled, epoch)], drawn := s.drawn + {epoch},
               events := s.events + [GateSet(at, Gate(enabled, epoch))]))
  }

  // ---------------------------------------------------------------- requests

  datatype Request =
    | MigrationRequest(hash: Hash, expected: nat, preview: Position)
    | RowRequest(row: RowId, version: Version, statement: string, proposal: Option<RowId>)
    | MessageRequest(delivery: string, heldAt: Option<string>)

  datatype Requested = RequestedTarget(target: Target, version: Version, epoch: Option<Epoch>, action: Option<Action>)

  function RequestTarget(s: State, who: Principal, r: Request): Result<Requested, Error> {
    match r
    case MigrationRequest(hash, expected, preview) =>
      var gate := MigrationTarget(s);
      var refusal := MigrationRequestPolicy(gate, PreviewAt(s, preview, who, expected, hash), expected);
      if refusal.Some? then Err(refusal.value)
      else Ok(RequestedTarget(SqlTarget(hash), Revision(gate.revision), gate.epoch, Some(SqlAction(hash))))
    case RowRequest(row, version, statement, proposal) =>
      if proposal.None? then Err(TargetUnsupported)
      else
        var proposed, requested := RowTargetVersion(s, proposal.value), RowTargetVersion(s, row);
        if proposed.Err? then Err(proposed.error)
        else if requested.Err? then Err(requested.error)
        else if proposal.value != row then Err(ApprovalMismatch)
        else if proposed.value != version then Err(ApprovalStale)
        else Ok(RequestedTarget(RowTarget(row), version, GateEpoch(s.gates, RowGate(row.table)), Some(RowAction(statement, row))))
    case MessageRequest(delivery, heldAt) =>
      if heldAt.None? then Err(ExecutionFailed) else Ok(RequestedTarget(Delivery(delivery), HeldAt(heldAt.value), None, None))
  }

  function Insert(s: State, who: Principal, runBy: Principal, r: Request, lifetime: nat): Result<State, Error> {
    var t := RequestTarget(s, who, r);
    if t.Err? then Err(t.error)
    else
      var preview := if r.MigrationRequest? then Some(r.preview) else None;
      var a := Approval(t.value.target, t.value.version, who, runBy, t.value.epoch, t.value.action, preview, s.now + lifetime, None, None);
      Ok(s.(approvals := s.approvals + [a], events := s.events + [Event.Requested(|s.approvals|)]))
  }

  // ---------------------------------------------------------------- decisions

  /** What the queue says of a held Delivery, and whether releasing it works. */
  datatype DeliveryFacts = DeliveryFacts(current: bool, held: bool, version: Option<Version>, released: bool)

  function CurrentVersion(s: State, a: Approval, d: Option<DeliveryFacts>): Result<Option<Version>, Error> {
    match a.target
    case Delivery(_) => Ok(if d.Some? then d.value.version else None)
    case RowTarget(row) =>
      var v := RowTargetVersion(s, row);
      if v.Err? then Err(ApprovalStale) else Ok(Some(v.value))
    case SqlTarget(_) =>
      var gate := MigrationTarget(s);
      if gate.epoch.None? || gate.epoch != a.epoch then Err(ApprovalStale) else Ok(Some(Revision(gate.revision)))
  }

  function FactsOf(s: State, a: Approval, who: Option<Principal>, d: Option<DeliveryFacts>, version: Option<Version>): DecisionFacts {
    DecisionFacts(a.target.Delivery?, a.verdict.Some?, a.expiresAt <= s.now,
                  !a.target.Delivery? || (d.Some? && d.value.current), d.Some? && d.value.held, a.version, version,
                  s.allowSelf, who, a.requestedBy, a.runPrincipal)
  }

  function DecisionRefusal(s: State, id: Id, authorized: bool, who: Option<Principal>, decision: Decision, d: Option<DeliveryFacts>): Option<Error> {
    if !authorized then Some(ApprovalForbidden)
    else if id >= |s.approvals| then Some(ApprovalNotFound)
    else
      var a := s.approvals[id];
      if a.verdict.Some? then Some(AlreadyDecided)
      else if a.expiresAt <= s.now then Some(ApprovalExpired)
      else
        var version := CurrentVersion(s, a, d);
        if version.Err? then Some(version.error)
        else
          var refusal := DecisionPolicy(FactsOf(s, a, who, d, version.value));
          if refusal.Some? then refusal
          else if decision.Approve? && a.target.Delivery? && !(d.Some? && d.value.released) then Some(ExecutionFailed)
          else None
  }

  function Decide(s: State, id: Id, authorized: bool, who: Option<Principal>, decision: Decision, d: Option<DeliveryFacts>): Result<State, Error> {
    var refusal := DecisionRefusal(s, id, authorized, who, decision, d);
    if refusal.Some? then Err(refusal.value)
    else
      var verdict := Verdict(decision, |s.events| + 1, who, s.allowSelf);
      Ok(s.(approvals := s.approvals[id := s.approvals[id].(verdict := Some(verdict))], events := s.events + [Decided(id, verdict)]))
  }

  // ---------------------------------------------------------------- Migrations

  datatype ApplyInput = ApplyInput(
    sql: string, name: string, expected: nat, destructive: bool, hash: Hash, preview: Position, oversized: bool, approval: Option<Id>)

  /** The verified plan: whether it is destructive, and every table it touches, directly or through an index. */
  datatype Plan = Plan(destructive: bool, tables: set<string>)

  function Lookup(s: State, id: Id): Option<Approval> {
    if id < |s.approvals| then Some(s.approvals[id]) else None
  }

  /** Everything that is checked before the statements run, in the order it is checked. */
  function ApplyRefusal(s: State, who: Principal, input: ApplyInput, plan: Option<Plan>): Option<Error> {
    var gate := MigrationTarget(s);
    if MigrationRevisionPolicy(gate.revision, input.expected).Some? then Some(RevisionStale)
    else if input.oversized then Some(InvalidInput)
    else if plan.None? then Some(PlanRefused)
    else if plan.value.destructive && !input.destructive then Some(DestructiveUnflagged)
    else if input.hash != Sha256Of(input.sql) then Some(PreviewMismatch)
    else if !(PreviewAt(s, input.preview, who, input.expected, input.hash)
              && s.events[input.preview - 1].destructive == plan.value.destructive) then Some(PreviewMismatch)
    else if exists t :: t in plan.value.tables && GateEpoch(s.gates, RowGate(t)).Some? then Some(GateConflict)
    else if input.approval.None? then (if gate.epoch.Some? then Some(ApprovalRequired) else None)
    else MigrationConsumptionPolicy(gate, input.expected, input.hash, input.preview, who, Lookup(s, input.approval.value), s.now)
  }

  function Consume(s: State, id: Id): State
    requires id < |s.approvals|
  {
    s.(approvals := s.approvals[id := s.approvals[id].(consumed := Some(|s.events| + 1))], events := s.events + [Consumed(id)])
  }

  /** The rows after a change to some tables. */
  function Rewritten(rows: map<RowId, string>, tables: set<string>, after: map<RowId, string>): map<RowId, string> {
    map r | r in rows.Keys + after.Keys && (if r.table in tables then r in after else r in rows)
      :: if r.table in tables then after[r] else rows[r]
  }

  /** `after` holds the rows of the touched tables once the statements ran; without it they failed. */
  function Apply(s: State, who: Principal, input: ApplyInput, plan: Option<Plan>, after: Option<map<RowId, string>>): Result<State, Error> {
    var refusal := ApplyRefusal(s, who, input, plan);
    if refusal.Some? then Err(refusal.value)
    else if after.None? then Err(ExecutionFailed)
    else
      var t := if input.approval.Some? && input.approval.value < |s.approvals| then Consume(s, input.approval.value) else s;
      Ok(t.(rows := Rewritten(s.rows, plan.value.tables, after.value),
            ledger := s.ledger + [Migration(input.expected + 1, input.name, input.sql, plan.value.destructive, who)],
            events := t.events + [Applied(input.expected + 1, input.hash)]))
  }

  // ---------------------------------------------------------------- row changes

  /** One SQL statement as the executor classifies it: the table it writes and, if it proves one, the row it selects. */
  datatype RowInput = RowInput(statement: string, expectsOne: bool, insertOnly: bool, writes: Option<string>, key: Option<string>, approval: Option<Id>)

  /** The effect of running a statement: how many rows it reported, and the rows of its table afterwards. */
  datatype Effect = Failed | Ran(count: nat, after: map<RowId, string>)

  /** The row that the statement was proven to select. */
  function Proposal(input: RowInput): Option<RowId> {
    if input.writes.Some? && input.key.Some? then Some(RowId(input.writes.value, input.key.value)) else None
  }

  /** Which Approval the statement must consume, if any. */
  function RowCheck(s: State, who: Option<Principal>, input: RowInput): (r: Result<Option<Id>, Error>)
    ensures r.Ok? && r.value.Some? ==> r.value == input.approval && r.value.value < |s.approvals| && Proposal(input).Some?
  {
    var epoch := if input.writes.Some? then GateEpoch(s.gates, RowGate(input.writes.value)) else None;
    if input.insertOnly || (epoch.None? && input.approval.None?) then Ok(None)
    else if input.approval.None? then
      var row := Proposal(input);
      if row.None? || RowTargetVersion(s, row.value) == Err(TargetNotFound) then Err(TargetUnsupported)
      else if RowTargetVersion(s, row.value).Err? then Err(RowTargetVersion(s, row.value).error)
      else Err(ApprovalRequired)
    else if input.approval.value >= |s.approvals| then Err(ApprovalNotFound)
    else
      var a := s.approvals[input.approval.value];
      if who != Some(a.requestedBy) || !a.target.RowTarget? then Err(ApprovalMismatch)
      else if epoch.None? then Err(if input.writes == Some(a.target.row.table) then ApprovalStale else ApprovalMismatch)
      else if a.consumed.Some? then Err(AlreadyConsumed)
      else if a.expiresAt <= s.now then Err(ApprovalExpired)
      else if !Approved(a) then Err(NotApproved)
      else if !input.expectsOne || a.action != Some(RowAction(input.statement, a.target.row)) then Err(ApprovalMismatch)
      else if Proposal(input).None? then Err(TargetUnsupported)
      else
        var version := RowTargetVersion(s, Proposal(input).value);
        if version.Err? then Err(version.error)
        else if a.target != RowTarget(Proposal(input).value) then Err(ApprovalMismatch)
        else if a.epoch != epoch || a.version != version.value then Err(ApprovalStale)
        else Ok(input.approval)
  }

  /** What a statement that consumes no Approval may do: insert only, or anything to the one table it writes. */
  function Unguarded(rows: map<RowId, string>, input: RowInput, after: map<RowId, string>): map<RowId, string> {
    if input.writes.None? then rows
    else if input.insertOnly then map r | r in rows.Keys + after.Keys && (r in rows || r.table == input.writes.value) :: if r in rows then rows[r] else after[r]
    else Rewritten(rows, {input.writes.value}, after)
  }

  /** A proven proposal changes or deletes exactly its row; `after` is the row's new content. */
  function Guarded(rows: map<RowId, string>, row: RowId, after: map<RowId, string>): map<RowId, string> {
    map r | r in rows && (r == row ==> r in after) :: if r == row then after[r] else rows[r]
  }

  function Execute(s: State, who: Option<Principal>, input: RowInput, effect: Effect): Result<State, Error> {
    var check := RowCheck(s, who, input);
    if check.Err? then Err(check.error)
    else if effect.Failed? then Err(ExecutionFailed)
    else if check.value.None? then Ok(s.(rows := Unguarded(s.rows, input, effect.after), events := s.events + [Other]))
    else if effect.count != 1 then Err(ApprovalMismatch)
    else
      var t := Consume(s, check.value.value);
      Ok(t.(rows := Guarded(s.rows, Proposal(input).value, effect.after), events := t.events + [Other]))
  }

  // ---------------------------------------------------------------- steps

  datatype Label =
    | GateStep(member: bool, supported: bool, at: Selector, enabled: bool, epoch: Epoch)
    | RequestStep(who: Principal, runBy: Principal, request: Request, lifetime: nat)
    | DecideStep(id: Id, authorized: bool, decider: Option<Principal>, decision: Decision, delivery: Option<DeliveryFacts>)
    | ApplyStep(principal: Principal, input: ApplyInput, plan: Option<Plan>, after: Option<map<RowId, string>>)
    | ExecuteStep(caller: Option<Principal>, row: RowInput, effect: Effect)
    | PreviewStep(previewer: Principal, sql: string, destructive: bool)
    | OtherStep(now: int, allowSelf: bool)

  function Outcome(s: State, l: Label): Result<State, Error> {
    match l
    case GateStep(member, supported, at, enabled, epoch) => SetGate(s, member, supported, at, enabled, epoch)
    case RequestStep(who, runBy, r, lifetime) => Insert(s, who, runBy, r, lifetime)
    case DecideStep(id, authorized, who, decision, d) => Decide(s, id, authorized, who, decision, d)
    case ApplyStep(who, input, plan, after) => Apply(s, who, input, plan, after)
    case ExecuteStep(who, input, effect) => Execute(s, who, input, effect)
    case PreviewStep(who, sql, destructive) =>
      Ok(s.(events := s.events + [Previewed(who, CurrentRevision(s.ledger), Sha256Of(sql), destructive)]))
    case OtherStep(now, allow) => Ok(s.(now := if now > s.now then now else s.now, allowSelf := allow, events := s.events + [Other]))
  }

  /** A step commits, with or without its acknowledgement being heard, or leaves everything as it was. */
  ghost predicate Step(s: State, l: Label, t: State) {
    && (l.GateStep? ==> l.epoch !in s.drawn)
    && (t == s || Outcome(s, l) == Ok(t))
  }

  ghost predicate Init(s: State) {
    s.gates == map[] && s.approvals == [] && s.ledger == [] && s.events == []
  }

  ghost predicate StepAt(ss: seq<State>, ls: seq<Label>, i: nat)
    requires i < |ls| && |ss| == |ls| + 1
  {
    Step(ss[i], ls[i], ss[i + 1])
  }

  ghost predicate IsRun(ss: seq<State>, ls: seq<Label>) {
    && |ss| == |ls| + 1 && Init(ss[0])
    && forall i :: 0 <= i < |ls| ==> StepAt(ss, ls, i)
  }
}

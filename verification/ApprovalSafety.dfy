/** What holds in every run of gate changes, requests, decisions, Migrations and row changes. */
module ApprovalSafety {
  import opened Wrappers
  import opened ApprovalPolicy
  import opened ApprovalProtocol
  import opened ApprovalDecisions

  function SelectorOf(t: Target): Option<Selector> {
    match t
    case Delivery(_) => None
    case RowTarget(row) => Some(RowGate(row.table))
    case SqlTarget(_) => Some(MigrationGate)
  }

  /** An Approval was requested for exactly one action under one gate epoch, and nobody approved their own. */
  ghost predicate ApprovalSound(a: Approval, drawn: set<Epoch>) {
    && (a.epoch.Some? ==> a.epoch.value in drawn)
    && (a.target.SqlTarget? ==> a.epoch.Some? && a.action == Some(SqlAction(a.target.hash)) && a.version.Revision? && a.preview.Some?)
    && (a.target.RowTarget? ==> a.version.RowVersion? && a.epoch == Some(a.version.epoch)
                                && a.action.Some? && a.action.value.RowAction? && a.action.value.row == a.target.row)
    && (a.target.Delivery? ==> a.consumed.None?)
    && (a.consumed.Some? ==> Approved(a))
    && (a.verdict.Some? && !a.verdict.value.selfAllowed && a.verdict.value.decidedBy.Some? ==>
          a.verdict.value.decidedBy.value != a.requestedBy && a.verdict.value.decidedBy.value != a.runPrincipal)
  }

  ghost predicate Logged(events: seq<Event>, position: Position, e: Event) {
    1 <= position <= |events| && events[position - 1] == e
  }

  ghost predicate LedgerGapless(ledger: seq<Migration>) {
    forall i :: 0 <= i < |ledger| ==> ledger[i].revision == i + 1
  }

  /** The log has one consumption event for each consumed Approval, and no others. */
  ghost predicate ConsumptionsLogged(approvals: seq<Approval>, events: seq<Event>) {
    && (forall p :: 0 <= p < |events| && events[p].Consumed? ==>
          events[p].id < |approvals| && approvals[events[p].id].consumed == Some(p + 1))
    && (forall id :: 0 <= id < |approvals| && approvals[id].consumed.Some? ==> Logged(events, approvals[id].consumed.value, Consumed(id)))
  }

  ghost predicate ApprovalsSound(s: State) {
    forall id :: 0 <= id < |s.approvals| ==> ApprovalSound(s.approvals[id], s.drawn)
  }

  ghost predicate Inv(s: State) {
    && LedgerGapless(s.ledger)
    && (forall at :: at in s.gates ==> s.gates[at].epoch in s.drawn)
    && ApprovalsSound(s)
    && ConsumptionsLogged(s.approvals, s.events)
  }

  /** What later states keep of an Approval: its identity, its verdict once given, its consumption once made. */
  ghost predicate Later(a: Approval, b: Approval, position: Position) {
    && b.(verdict := a.verdict, consumed := a.consumed) == a
    && (a.verdict.Some? ==> b.verdict == a.verdict)
    && (a.consumed.Some? ==> b.consumed == a.consumed)
    && (a.consumed.None? && b.consumed.Some? ==> b.consumed.value > position)
  }

  ghost predicate ApprovalsLater(s: State, t: State) {
    && |s.approvals| <= |t.approvals|
    && (forall id :: 0 <= id < |s.approvals| ==> Later(s.approvals[id], t.approvals[id], |s.events|))
    && (forall id :: |s.approvals| <= id < |t.approvals| && t.approvals[id].consumed.Some? ==> t.approvals[id].consumed.value > |s.events|)
  }

  /** A gate keeps its epoch or gets one that was never drawn. */
  ghost predicate GatesLater(s: State, t: State) {
    forall at :: at in s.gates ==> at in t.gates && (t.gates[at] == s.gates[at] || t.gates[at].epoch !in s.drawn)
  }

  ghost predicate Evolves(s: State, t: State) {
    && ApprovalsLater(s, t) && GatesLater(s, t)
    && s.ledger <= t.ledger && s.events <= t.events && s.drawn <= t.drawn && s.now <= t.now
  }

  lemma {:induction false} GaplessRevision(ledger: seq<Migration>)
    requires LedgerGapless(ledger)
    ensures CurrentRevision(ledger) == |ledger|
  {
    if ledger != [] { GaplessRevision(ledger[..|ledger| - 1]); }
  }

  // ---------------------------------------------------------------- what each operation keeps

  lemma ConsumeKeeps(s: State, id: Id)
    requires Inv(s) && id < |s.approvals| && s.approvals[id].consumed.None? && Approved(s.approvals[id]) && !s.approvals[id].target.Delivery?
    ensures Inv(Consume(s, id)) && Evolves(s, Consume(s, id))
  {
  }

  /** Anything else is logged by events that are not consumptions. */
  lemma LogKeeps(s: State, e: Event)
    requires Inv(s) && !e.Consumed?
    ensures Inv(s.(events := s.events + [e])) && Evolves(s, s.(events := s.events + [e]))
  {
    var t := s.(events := s.events + [e]);
    forall id | 0 <= id < |t.approvals| && t.approvals[id].consumed.Some? ensures Logged(t.events, t.approvals[id].consumed.value, Consumed(id)) {
      assert Logged(s.events, s.approvals[id].consumed.value, Consumed(id));
    }
  }

  lemma SetGateKeeps(s: State, at: Selector, enabled: bool, epoch: Epoch)
    requires Inv(s) && epoch !in s.drawn
    ensures var t := s.(gates := s.gates[at := Gate(enabled, epoch)], drawn := s.drawn + {epoch}); Inv(t) && Evolves(s, t)
  {
  }

  lemma InsertKeeps(s: State, who: Principal, runBy: Principal, r: Request, lifetime: nat, t: State)
    requires Inv(s) && Insert(s, who, runBy, r, lifetime) == Ok(t)
    ensures Inv(t) && Evolves(s, t)
  {
    var a := t.approvals[|s.approvals|];
    assert ApprovalSound(a, s.drawn) by { hide LedgerGapless, ConsumptionsLogged, PreviewAt, CurrentRevision, LastConsumed; }
    LogKeeps(s, Requested(|s.approvals|));
    var logged := s.(events := s.events + [Event.Requested(|s.approvals|)]);
    assert t == logged.(approvals := s.approvals + [a]);
    hide Insert, ApprovalSound;
  }

  lemma DecideKeeps(s: State, id: Id, authorized: bool, who: Option<Principal>, decision: Decision, d: Option<DeliveryFacts>, t: State)
    requires Inv(s) && Decide(s, id, authorized, who, decision, d) == Ok(t)
    ensures Inv(t) && Evolves(s, t)
  {
    DecisionIsFresh(s, id, authorized, who, decision, d);
    var verdict := t.approvals[id].verdict.value;
    LogKeeps(s, Decided(id, verdict));
    hide DecisionRefusal;
  }

  lemma DecisionIsFresh(s: State, id: Id, authorized: bool, who: Option<Principal>, decision: Decision, d: Option<DeliveryFacts>)
    requires DecisionRefusal(s, id, authorized, who, decision, d).None?
    ensures id < |s.approvals| && s.approvals[id].verdict.None? && s.now < s.approvals[id].expiresAt
    ensures !s.allowSelf && who.Some? ==> who.value != s.approvals[id].requestedBy && who.value != s.approvals[id].runPrincipal
  {
    hide RowTargetVersion;
  }

  lemma ApplyKeeps(s: State, who: Principal, input: ApplyInput, plan: Option<Plan>, after: Option<map<RowId, string>>, t: State)
    requires Inv(s) && Apply(s, who, input, plan, after) == Ok(t)
    ensures Inv(t) && Evolves(s, t)
  {
    GaplessRevision(s.ledger);
    ApplyConsumes(s, who, input, plan);
    var p := if input.approval.Some? then Consume(s, input.approval.value) else s;
    if input.approval.Some? { ConsumeKeeps(s, input.approval.value); }
    LogKeeps(p, Applied(input.expected + 1, input.hash));
    hide ApplyRefusal, Rewritten, ApprovalSound, ConsumptionsLogged, ApprovalsLater;
  }

  /** What passing every check means. */
  lemma ApplyConsumes(s: State, who: Principal, input: ApplyInput, plan: Option<Plan>)
    requires ApplyRefusal(s, who, input, plan).None?
    ensures plan.Some? && CurrentRevision(s.ledger) == input.expected && input.hash == Sha256Of(input.sql)
    ensures Logged(s.events, input.preview, Previewed(who, input.expected, input.hash, plan.value.destructive))
    ensures forall t :: t in plan.value.tables ==> GateEpoch(s.gates, RowGate(t)).None?
    ensures input.approval.Some? <==> GateEpoch(s.gates, MigrationGate).Some?
    ensures input.approval.Some? ==> input.approval.value < |s.approvals| && Pays(s, s.approvals[input.approval.value], who, input)
  {
    hide CurrentRevision;
  }

  /** The Approval covers this Migration at this moment. */
  ghost predicate Pays(s: State, a: Approval, who: Principal, input: ApplyInput) {
    && Approved(a) && a.consumed.None? && s.now < a.expiresAt
    && a.requestedBy == who
    && a.target == SqlTarget(input.hash) && a.version == Revision(CurrentRevision(s.ledger))
    && a.preview == Some(input.preview)
    && a.epoch.Some? && a.epoch == GateEpoch(s.gates, MigrationGate)
  }

  lemma ExecuteKeeps(s: State, who: Option<Principal>, input: RowInput, effect: Effect, t: State)
    requires Inv(s) && Execute(s, who, input, effect) == Ok(t)
    ensures Inv(t) && Evolves(s, t)
  {
    var check := RowCheck(s, who, input);
    var p := if check.value.None? then s else Consume(s, check.value.value);
    if check.value.Some? {
      RowCheckConsumes(s, who, input);
      ConsumeKeeps(s, check.value.value);
    }
    LogKeeps(p, Other);
    hide RowCheck, Guarded, Unguarded, ApprovalSound, ConsumptionsLogged, ApprovalsLater;
  }

  ghost predicate RowPays(s: State, a: Approval, who: Option<Principal>, input: RowInput) {
    && Approved(a) && a.consumed.None? && s.now < a.expiresAt
    && who == Some(a.requestedBy)
    && Proposal(input).Some? && a.target == RowTarget(Proposal(input).value)
    && a.action == Some(RowAction(input.statement, Proposal(input).value))
    && RowTargetVersion(s, Proposal(input).value) == Ok(a.version)
  }

  lemma RowCheckConsumes(s: State, who: Option<Principal>, input: RowInput)
    requires RowCheck(s, who, input).Ok? && RowCheck(s, who, input).value.Some?
    ensures RowPays(s, s.approvals[RowCheck(s, who, input).value.value], who, input)
    ensures !input.insertOnly
  {
    hide RowTargetVersion;
  }

  lemma StepKeeps(s: State, l: Label, t: State)
    requires Inv(s) && Step(s, l, t)
    ensures Inv(t) && Evolves(s, t)
  {
    hide Inv, Evolves, SetGate, Insert, Decide, Apply, Execute;
    StaysEvolved(s);
    if t != s {
      match l
      case GateStep(member, supported, at, enabled, epoch) => GateStepKeeps(s, member, supported, at, enabled, epoch, t);
      case RequestStep(who, runBy, r, lifetime) => InsertKeeps(s, who, runBy, r, lifetime, t);
      case DecideStep(id, authorized, who, decision, d) => DecideKeeps(s, id, authorized, who, decision, d, t);
      case ApplyStep(who, input, plan, after) => ApplyKeeps(s, who, input, plan, after, t);
      case ExecuteStep(who, input, effect) => ExecuteKeeps(s, who, input, effect, t);
      case PreviewStep(who, sql, destructive) => LogKeeps(s, Previewed(who, CurrentRevision(s.ledger), Sha256Of(sql), destructive));
      case OtherStep(now, allow) => OtherKeeps(s, now, allow);
    }
  }

  lemma StaysEvolved(s: State)
    ensures Evolves(s, s)
  {
  }

  lemma OtherKeeps(s: State, now: int, allow: bool)
    requires Inv(s)
    ensures var t := Outcome(s, OtherStep(now, allow)).value; Inv(t) && Evolves(s, t)
  {
    LogKeeps(s, Other);
  }

  lemma GateStepKeeps(s: State, member: bool, supported: bool, at: Selector, enabled: bool, epoch: Epoch, t: State)
    requires Inv(s) && epoch !in s.drawn && SetGate(s, member, supported, at, enabled, epoch) == Ok(t)
    ensures Inv(t) && Evolves(s, t)
  {
    if t == s {
      StaysEvolved(s);
    } else {
      var p := s.(gates := s.gates[at := Gate(enabled, epoch)], drawn := s.drawn + {epoch});
      SetGateKeeps(s, at, enabled, epoch);
      LogKeeps(p, GateSet(at, Gate(enabled, epoch)));
      EvolvesTransitive(s, p, t);
    }
  }

  lemma EvolvesTransitive(s: State, t: State, u: State)
    requires Evolves(s, t) && Evolves(t, u)
    ensures Evolves(s, u)
  {
  }

  // ---------------------------------------------------------------- whole runs

  lemma {:induction false} RunKeeps(ss: seq<State>, ls: seq<Label>, i: nat)
    requires IsRun(ss, ls) && i < |ss|
    ensures Inv(ss[i])
  {
    if i > 0 {
      RunKeeps(ss, ls, i - 1);
      assert StepAt(ss, ls, i - 1);
      hide Inv, Step, Init;
      StepKeeps(ss[i - 1], ls[i - 1], ss[i]);
    }
  }

  lemma {:induction false} RunEvolves(ss: seq<State>, ls: seq<Label>, i: nat, j: nat)
    requires IsRun(ss, ls) && i <= j < |ss|
    ensures Evolves(ss[i], ss[j])
  {
    hide Inv, Step, Init, Evolves;
    if i == j {
      StaysEvolved(ss[i]);
    } else {
      RunEvolves(ss, ls, i, j - 1);
      RunKeeps(ss, ls, j - 1);
      assert StepAt(ss, ls, j - 1);
      StepKeeps(ss[j - 1], ls[j - 1], ss[j]);
      EvolvesTransitive(ss[i], ss[j - 1], ss[j]);
    }
  }

  /** Revisions are 1..n, and the ledger is only appended to. */
  lemma RevisionsAreGapless(ss: seq<State>, ls: seq<Label>, i: nat, j: nat)
    requires IsRun(ss, ls) && i <= j < |ss|
    ensures forall k :: 0 <= k < |ss[j].ledger| ==> ss[j].ledger[k].revision == k + 1
    ensures ss[i].ledger <= ss[j].ledger && CurrentRevision(ss[j].ledger) == |ss[j].ledger|
  {
    RunKeeps(ss, ls, j);
    RunEvolves(ss, ls, i, j);
    GaplessRevision(ss[j].ledger);
  }

  /** Of all Approvals exactly this one is consumed by the step. */
  ghost predicate OnlyConsumes(s: State, t: State, id: Id) {
    && id < |s.approvals| == |t.approvals|
    && s.approvals[id].consumed.None? && t.approvals[id].consumed.Some?
    && t.approvals[id].(consumed := None) == s.approvals[id]
    && forall other :: 0 <= other < |s.approvals| && other != id ==> t.approvals[other] == s.approvals[other]
  }

  /**
   * The Approval that authorizes the Migration applied from `s` to `t`: approved, unexpired, requested by the
   * same Principal, for the same statements, preview and starting revision, under the gate's current epoch.
   */
  ghost predicate Authorizes(s: State, t: State, id: Id, m: Migration) {
    && OnlyConsumes(s, t, id)
    && var a := s.approvals[id];
    && Approved(a) && s.now < a.expiresAt
    && a.requestedBy == m.who && a.target == SqlTarget(Sha256Of(m.sql))
    && a.version.Revision? && m.revision == a.version.number + 1
    && a.preview.Some? && Logged(s.events, a.preview.value, Previewed(m.who, a.version.number, Sha256Of(m.sql), m.destructive))
    && MigrationGate in s.gates && a.epoch == Some(s.gates[MigrationGate].epoch)
  }

  predicate Enabled(gates: map<Selector, Gate>, at: Selector) {
    at in gates && gates[at].enabled
  }

  /** The Principal was shown this Migration as the next one. */
  ghost predicate Shown(s: State, m: Migration) {
    exists p :: Logged(s.events, p, Previewed(m.who, |s.ledger|, Sha256Of(m.sql), m.destructive))
  }

  /**
   * Whenever a Migration is applied it is the next one; with its gate enabled it consumes exactly one Approval,
   * which authorizes it and which an authorized decision approved before, and with the gate disabled it consumes none.
   */
  lemma GatedMigrationConsumesOne(ss: seq<State>, ls: seq<Label>, i: nat)
    requires IsRun(ss, ls) && i + 1 < |ss| && ss[i].ledger != ss[i + 1].ledger
    ensures var s, t := ss[i], ss[i + 1];
      && |t.ledger| == |s.ledger| + 1 && t.ledger[..|s.ledger|] == s.ledger
      && var m := t.ledger[|s.ledger|];
      && m.revision == |s.ledger| + 1 && Shown(s, m)
      && (Enabled(s.gates, MigrationGate) ==> exists id :: Authorizes(s, t, id, m) && WasApproved(ss, ls, i, id))
      && (!Enabled(s.gates, MigrationGate) ==> t.approvals == s.approvals)
  {
    var s, t := ss[i], ss[i + 1];
    RunKeeps(ss, ls, i);
    assert StepAt(ss, ls, i);
    hide Inv, Step, WasApproved;
    OnlyApplyChangesLedger(s, ls[i], t);
    MigrationAuthorized(s, ls[i].principal, ls[i].input, ls[i].plan, ls[i].after, t);
    if Enabled(s.gates, MigrationGate) {
      var id :| Authorizes(s, t, id, t.ledger[|s.ledger|]);
      ApprovedByDecision(ss, ls, i, id);
    }
  }

  lemma OnlyApplyChangesLedger(s: State, l: Label, t: State)
    requires Step(s, l, t) && s.ledger != t.ledger
    ensures l.ApplyStep? && Outcome(s, l) == Ok(t)
  {
    hide RequestTarget, DecisionRefusal, ApplyRefusal, RowCheck;
  }

  lemma MigrationAuthorized(s: State, who: Principal, input: ApplyInput, plan: Option<Plan>, after: Option<map<RowId, string>>, t: State)
    requires Inv(s) && Apply(s, who, input, plan, after) == Ok(t)
    ensures |t.ledger| == |s.ledger| + 1 && t.ledger[..|s.ledger|] == s.ledger
    ensures var m := t.ledger[|s.ledger|];
      && m.revision == |s.ledger| + 1 && Shown(s, m)
      && (Enabled(s.gates, MigrationGate) ==> exists id :: Authorizes(s, t, id, m))
      && (!Enabled(s.gates, MigrationGate) ==> t.approvals == s.approvals)
  {
    GaplessRevision(s.ledger);
    ApplyConsumes(s, who, input, plan);
    hide ApplyRefusal, Rewritten, LedgerGapless, ConsumptionsLogged, ApprovalSound, CurrentRevision;
    var m := t.ledger[|s.ledger|];
    assert Logged(s.events, input.preview, Previewed(m.who, |s.ledger|, Sha256Of(m.sql), m.destructive));
    if input.approval.Some? { assert Authorizes(s, t, input.approval.value, m); }
  }

  /** A consumption is final and has one event in the log. */
  lemma ConsumptionIsUnique(ss: seq<State>, ls: seq<Label>, i: nat, j: nat, id: Id)
    requires IsRun(ss, ls) && i <= j < |ss| && id < |ss[i].approvals| && ss[i].approvals[id].consumed.Some?
    ensures id < |ss[j].approvals| && ss[j].approvals[id] == ss[i].approvals[id]
    ensures forall p: Position :: Logged(ss[j].events, p, Consumed(id)) <==> Some(p) == ss[i].approvals[id].consumed
  {
    RunKeeps(ss, ls, i);
    RunKeeps(ss, ls, j);
    RunEvolves(ss, ls, i, j);
    assert ApprovalSound(ss[i].approvals[id], ss[i].drawn) && Later(ss[i].approvals[id], ss[j].approvals[id], |ss[i].events|);
  }

  /** No Approval authorizes two Migrations. */
  lemma NoApprovalIsUsedTwice(ss: seq<State>, ls: seq<Label>, i: nat, j: nat, id: Id, other: Id)
    requires IsRun(ss, ls) && i < j && j + 1 < |ss|
    requires OnlyConsumes(ss[i], ss[i + 1], id) && OnlyConsumes(ss[j], ss[j + 1], other)
    ensures id != other
  {
    ConsumptionIsUnique(ss, ls, i + 1, j, id);
  }

  /** A step consumes an Approval only under the epoch that the gate then has. */
  lemma ConsumedUnderEpoch(s: State, l: Label, t: State, id: Id)
    requires Inv(s) && Step(s, l, t) && id < |s.approvals| && |s.approvals| <= |t.approvals|
    requires s.approvals[id].consumed.None? && t.approvals[id].consumed.Some?
    ensures var at := SelectorOf(s.approvals[id].target);
      at.Some? && GateEpoch(s.gates, at.value).Some? && GateEpoch(s.gates, at.value) == s.approvals[id].epoch
  {
    hide LedgerGapless, ConsumptionsLogged, CurrentRevision, LastConsumed;
    match l
    case ApplyStep(who, input, plan, _) => ApplyConsumes(s, who, input, plan);
    case ExecuteStep(who, input, _) =>
      if RowCheck(s, who, input).value.Some? { RowCheckConsumes(s, who, input); }
      assert ApprovalSound(s.approvals[id], s.drawn);
    case _ =>
  }

  /** No Approval survives a change of its gate: whatever was not consumed by then never is. */
  lemma {:induction false} NoneSurvivesToggle(ss: seq<State>, ls: seq<Label>, k: nat, j: nat, id: Id)
    requires IsRun(ss, ls) && k < j < |ss| && id < |ss[k].approvals| && ss[k].approvals[id].consumed.None?
    requires var at := SelectorOf(ss[k].approvals[id].target);
      at.Some? && at.value in ss[k].gates && at.value in ss[k + 1].gates && ss[k].gates[at.value] != ss[k + 1].gates[at.value]
    ensures id < |ss[j].approvals| && ss[j].approvals[id].consumed.None?
    decreases j
  {
    var a, at := ss[k].approvals[id], SelectorOf(ss[k].approvals[id].target).value;
    KeptIdentity(ss, ls, k, j - 1, id);
    if j == k + 1 {
      ToggleConsumesNothing(ss, ls, k, id);
    } else {
      NoneSurvivesToggle(ss, ls, k, j - 1, id);
      EpochNeverReturns(ss, ls, k, j - 1, at, a.epoch.value);
      RunKeeps(ss, ls, j - 1);
      assert StepAt(ss, ls, j - 1);
      hide Step, Inv;
      StaleIsNotConsumed(ss[j - 1], ls[j - 1], ss[j], id);
    }
  }

  lemma KeptIdentity(ss: seq<State>, ls: seq<Label>, k: nat, j: nat, id: Id)
    requires IsRun(ss, ls) && k <= j < |ss| && id < |ss[k].approvals|
    ensures id < |ss[j].approvals|
    ensures var a, b := ss[k].approvals[id], ss[j].approvals[id]; a.target == b.target && a.epoch == b.epoch && a.version == b.version
    ensures var a := ss[k].approvals[id]; !a.target.Delivery? ==> a.epoch.Some? && a.epoch.value in ss[k].drawn
  {
    RunKeeps(ss, ls, k);
    RunEvolves(ss, ls, k, j);
    assert Later(ss[k].approvals[id], ss[j].approvals[id], |ss[k].events|) && ApprovalSound(ss[k].approvals[id], ss[k].drawn);
  }

  lemma StaleIsNotConsumed(s: State, l: Label, t: State, id: Id)
    requires Inv(s) && Step(s, l, t) && id < |s.approvals| && s.approvals[id].consumed.None?
    requires var at := SelectorOf(s.approvals[id].target); at.Some? && GateEpoch(s.gates, at.value) != s.approvals[id].epoch
    ensures id < |t.approvals| && t.approvals[id].consumed.None?
  {
    StepKeeps(s, l, t);
    if t.approvals[id].consumed.Some? { ConsumedUnderEpoch(s, l, t, id); }
  }

  lemma ToggleConsumesNothing(ss: seq<State>, ls: seq<Label>, k: nat, id: Id)
    requires IsRun(ss, ls) && k + 1 < |ss| && ss[k].gates != ss[k + 1].gates && id < |ss[k].approvals|
    ensures id < |ss[k + 1].approvals| && ss[k + 1].approvals[id] == ss[k].approvals[id]
  {
    assert StepAt(ss, ls, k);
    hide RequestTarget, DecisionRefusal, ApplyRefusal, RowCheck;
  }

  /** Once a gate has left an epoch it never has it again. */
  lemma EpochNeverReturns(ss: seq<State>, ls: seq<Label>, k: nat, j: nat, at: Selector, epoch: Epoch)
    requires IsRun(ss, ls) && k < j < |ss| && epoch in ss[k].drawn
    requires at in ss[k].gates && at in ss[k + 1].gates && ss[k].gates[at] != ss[k + 1].gates[at]
    ensures GateEpoch(ss[j].gates, at) != Some(epoch)
  {
    RunEvolves(ss, ls, k, k + 1);
    RunEvolves(ss, ls, k + 1, j);
  }

  /** A verdict is given once, and never by the requester unless that was allowed. */
  lemma VerdictIsFinal(ss: seq<State>, ls: seq<Label>, i: nat, j: nat, id: Id)
    requires IsRun(ss, ls) && i <= j < |ss| && id < |ss[i].approvals| && ss[i].approvals[id].verdict.Some?
    ensures id < |ss[j].approvals| && ss[j].approvals[id].verdict == ss[i].approvals[id].verdict
    ensures var a := ss[i].approvals[id];
      var v := a.verdict.value;
      v.selfAllowed || v.decidedBy.None? || (v.decidedBy.value != a.requestedBy && v.decidedBy.value != a.runPrincipal)
  {
    RunKeeps(ss, ls, i);
    RunEvolves(ss, ls, i, j);
    assert Later(ss[i].approvals[id], ss[j].approvals[id], |ss[i].events|) && ApprovalSound(ss[i].approvals[id], ss[i].drawn);
  }

  /** Conversely nothing but a Migration of its statements consumes a Migration's Approval. */
  lemma MigrationApprovalIsSpentOnIt(s: State, l: Label, t: State, id: Id)
    requires Inv(s) && Step(s, l, t) && id < |s.approvals| && |s.approvals| <= |t.approvals|
    requires s.approvals[id].consumed.None? && t.approvals[id].consumed.Some? && s.approvals[id].target.SqlTarget?
    ensures |t.ledger| == |s.ledger| + 1 && s.approvals[id].target.hash == Sha256Of(t.ledger[|s.ledger|].sql)
  {
    hide LedgerGapless, ConsumptionsLogged, CurrentRevision, LastConsumed;
    match l
    case ApplyStep(who, input, plan, _) => ApplyConsumes(s, who, input, plan);
    case ExecuteStep(who, input, _) => if RowCheck(s, who, input).value.Some? { RowCheckConsumes(s, who, input); }
    case _ =>
  }

  // ---------------------------------------------------------------- gated rows

  /** The Approval that authorizes the change of one row: it was approved for exactly the version the row has. */
  ghost predicate AuthorizesRow(s: State, t: State, id: Id, row: RowId) {
    && OnlyConsumes(s, t, id)
    && var a := s.approvals[id];
    && Approved(a) && s.now < a.expiresAt && a.target == RowTarget(row)
    && RowTargetVersion(s, row) == Ok(a.version)
    && forall other :: other in s.rows && other != row ==> other in t.rows && t.rows[other] == s.rows[other]
  }

  ghost predicate RowChanged(s: State, t: State, row: RowId) {
    row in s.rows && (row !in t.rows || t.rows[row] != s.rows[row])
  }

  /** While a table's gate is enabled, its rows change only one at a time, each change consuming its Approval. */
  lemma GatedRowsChangeByApproval(s: State, l: Label, t: State, row: RowId)
    requires Inv(s) && Step(s, l, t) && GateEpoch(s.gates, RowGate(row.table)).Some? && RowChanged(s, t, row)
    ensures exists id :: AuthorizesRow(s, t, id, row)
  {
    hide LedgerGapless, ConsumptionsLogged, CurrentRevision, LastConsumed, RequestTarget, DecisionRefusal;
    match l
    case ApplyStep(who, input, plan, _) => ApplyConsumes(s, who, input, plan);
    case ExecuteStep(who, input, effect) =>
      if RowCheck(s, who, input).value.Some? {
        RowCheckConsumes(s, who, input);
        RowExecution(s, who, input, effect, t, row);
      }
    case _ =>
  }

  lemma RowExecution(s: State, who: Option<Principal>, input: RowInput, effect: Effect, t: State, row: RowId)
    requires Execute(s, who, input, effect) == Ok(t) && RowCheck(s, who, input).value.Some? && RowChanged(s, t, row)
    ensures exists id :: AuthorizesRow(s, t, id, row)
  {
    RowCheckConsumes(s, who, input);
    hide RowCheck, RowTargetVersion;
    assert AuthorizesRow(s, t, RowCheck(s, who, input).value.value, row);
  }

  /** In a run an authorized decision has approved each such change before, while the row had that version. */
  lemma GatedRowsWereApproved(ss: seq<State>, ls: seq<Label>, i: nat, row: RowId)
    requires IsRun(ss, ls) && i + 1 < |ss| && Enabled(ss[i].gates, RowGate(row.table)) && RowChanged(ss[i], ss[i + 1], row)
    ensures exists id :: AuthorizesRow(ss[i], ss[i + 1], id, row) && WasApproved(ss, ls, i, id)
  {
    RunKeeps(ss, ls, i);
    assert StepAt(ss, ls, i);
    hide Inv, Step, WasApproved, RowTargetVersion;
    GatedRowsChangeByApproval(ss[i], ls[i], ss[i + 1], row);
    var id :| AuthorizesRow(ss[i], ss[i + 1], id, row);
    ApprovedByDecision(ss, ls, i, id);
  }
}

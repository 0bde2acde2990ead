/**
When a recorded rejection of a deletion or of a purge is false: the steps of a run that lead to it, and that the
transaction it names can have committed only in one way.
*/
module BlobHistory {
  import opened Wrappers
  import opened BlobProtocol
  import opened BlobSafety
  import opened BlobRuns

  type Attempt = (Client, TxId)

  // ---------------------------------------------------------------- the steps that matter

  /** The server carries out the commit of `a`. */
  predicate CarriesOut(s: Sys, l: Label, a: Attempt) {
    l.ServerCommit? && s.tx.Some? && (s.tx.value.owner, s.tx.value.id) == a
  }

  /** The client gives up its deletion attempt `a` at program point `at`, without having heard of a commit. */
  predicate GivesUp(s: Sys, c: Client, l: Label, id: Id, a: Attempt, at: DeleteAt) {
    c == a.0 && l.DeleteThrow? && OpOf(s, c).Deleting? && OpOf(s, c).id == id && OpOf(s, c).tx == a.1 && OpOf(s, c).del == at
  }

  /** The recheck of attempt `a` finds the row still there. */
  predicate SeesRow(s: Sys, c: Client, l: Label, id: Id, a: Attempt) {
    && c == a.0 && l.DeleteRecheckRead? && id in s.rows
    && OpOf(s, c).DeleteRechecking? && OpOf(s, c).id == id && OpOf(s, c).attempt == a.1
  }

  /** The recheck of attempt `a` does not bind, does not get its answer, or finds no row and then does not close. */
  predicate RecheckFails(s: Sys, c: Client, l: Label, id: Id, a: Attempt) {
    && c == a.0
    && var op := OpOf(s, c);
       || (l.DeleteRecheckFault? && (op.DeleteFailed? || op.DeleteRechecking?) && op.id == id && op.attempt == a.1)
       || (l.CloseThrow? && op.Closing? && op.failed == Return(DeleteRejected(id, a, false)))
  }

  predicate PurgeGivesUp(s: Sys, c: Client, l: Label, a: Attempt, at: PurgeAt) {
    c == a.0 && l.PurgeThrow? && OpOf(s, c).Purging? && OpOf(s, c).tx == a.1 && OpOf(s, c).purge == at
  }

  /** The steps of each kind that a run has taken. */
  datatype Taken = Taken(
    commits: set<Attempt>, gaveUp: set<(Id, Attempt, DeleteAt)>, saw: set<(Id, Attempt)>, failed: set<(Id, Attempt)>,
    purges: set<(Attempt, PurgeAt)>)

  function Learn(h: Taken, s: Sys, c: Client, l: Label): Taken {
    var op := OpOf(s, c);
    match l
    case ServerCommit => if s.tx.Some? then h.(commits := h.commits + {(s.tx.value.owner, s.tx.value.id)}) else h
    case DeleteThrow => if op.Deleting? then h.(gaveUp := h.gaveUp + {(op.id, (c, op.tx), op.del)}) else h
    case DeleteRecheckRead =>
      if op.DeleteRechecking? && op.id in s.rows then h.(saw := h.saw + {(op.id, (c, op.attempt))}) else h
    case DeleteRecheckFault =>
      if op.DeleteFailed? || op.DeleteRechecking? then h.(failed := h.failed + {(op.id, (c, op.attempt))}) else h
    case CloseThrow =>
      if op.Closing? && op.failed.Return? && op.failed.outcome.DeleteRejected? && !op.failed.outcome.confirmed
         && op.failed.outcome.attempt.0 == c
      then h.(failed := h.failed + {(op.failed.outcome.id, op.failed.outcome.attempt)})
      else h
    case PurgeThrow => if op.Purging? then h.(purges := h.purges + {((c, op.tx), op.purge)}) else h
    case _ => h
  }

  ghost function TakenBy(ss: seq<Sys>, cs: seq<Client>, ls: seq<Label>, j: nat): Taken
    requires IsRun(ss, cs, ls) && j < |ss|
  {
    if j == 0 then Taken({}, {}, {}, {}, {}) else Learn(TakenBy(ss, cs, ls, j - 1), ss[j - 1], cs[j - 1], ls[j - 1])
  }

  ghost predicate CarriedOut(ss: seq<Sys>, cs: seq<Client>, ls: seq<Label>, j: nat, a: Attempt)
    requires IsRun(ss, cs, ls) && j < |ss|
  {
    exists k :: 0 <= k < j && CarriesOut(ss[k], ls[k], a)
  }

  ghost predicate GaveUp(ss: seq<Sys>, cs: seq<Client>, ls: seq<Label>, j: nat, id: Id, a: Attempt, at: DeleteAt)
    requires IsRun(ss, cs, ls) && j < |ss|
  {
    exists k :: 0 <= k < j && GivesUp(ss[k], cs[k], ls[k], id, a, at)
  }

  ghost predicate RecheckSawRow(ss: seq<Sys>, cs: seq<Client>, ls: seq<Label>, j: nat, id: Id, a: Attempt)
    requires IsRun(ss, cs, ls) && j < |ss|
  {
    exists k :: 0 <= k < j && SeesRow(ss[k], cs[k], ls[k], id, a)
  }

  ghost predicate RecheckFailed(ss: seq<Sys>, cs: seq<Client>, ls: seq<Label>, j: nat, id: Id, a: Attempt)
    requires IsRun(ss, cs, ls) && j < |ss|
  {
    exists k :: 0 <= k < j && RecheckFails(ss[k], cs[k], ls[k], id, a)
  }

  ghost predicate PurgeGaveUp(ss: seq<Sys>, cs: seq<Client>, ls: seq<Label>, j: nat, a: Attempt, at: PurgeAt)
    requires IsRun(ss, cs, ls) && j < |ss|
  {
    exists k :: 0 <= k < j && PurgeGivesUp(ss[k], cs[k], ls[k], a, at)
  }

  lemma LearnMeans(h: Taken, s: Sys, c: Client, l: Label, id: Id, a: Attempt, at: DeleteAt, pt: PurgeAt)
    ensures var n := Learn(h, s, c, l);
      && (a in n.commits <==> a in h.commits || CarriesOut(s, l, a))
      && ((id, a, at) in n.gaveUp <==> (id, a, at) in h.gaveUp || GivesUp(s, c, l, id, a, at))
      && ((id, a) in n.saw <==> (id, a) in h.saw || SeesRow(s, c, l, id, a))
      && ((id, a) in n.failed <==> (id, a) in h.failed || RecheckFails(s, c, l, id, a))
      && ((a, pt) in n.purges <==> (a, pt) in h.purges || PurgeGivesUp(s, c, l, a, pt))
  {
    hide OpOf;
  }

  /** What `TakenBy` collects are the steps of the run. */
  lemma {:induction false} TakenMeans(ss: seq<Sys>, cs: seq<Client>, ls: seq<Label>, j: nat, id: Id, a: Attempt, at: DeleteAt, pt: PurgeAt)
    requires IsRun(ss, cs, ls) && j < |ss|
    ensures var h := TakenBy(ss, cs, ls, j);
      && (a in h.commits <==> CarriedOut(ss, cs, ls, j, a))
      && ((id, a, at) in h.gaveUp <==> GaveUp(ss, cs, ls, j, id, a, at))
      && ((id, a) in h.saw <==> RecheckSawRow(ss, cs, ls, j, id, a))
      && ((id, a) in h.failed <==> RecheckFailed(ss, cs, ls, j, id, a))
      && ((a, pt) in h.purges <==> PurgeGaveUp(ss, cs, ls, j, a, pt))
  {
    hide Learn, CarriesOut, GivesUp, SeesRow, RecheckFails, PurgeGivesUp, StepAt, Init;
    if j > 0 {
      TakenMeans(ss, cs, ls, j - 1, id, a, at, pt);
      LearnMeans(TakenBy(ss, cs, ls, j - 1), ss[j - 1], cs[j - 1], ls[j - 1], id, a, at, pt);
    }
  }

  // ---------------------------------------------------------------- where outcomes come from

  function EndOf(a: After): Outcome {
    match a
    case Return(o) => o
    case Clean(_, next) => EndOf(next)
  }

  predicate AnyGaveUp(h: Taken, id: Id, a: Attempt) {
    (id, a, ToSendDelete) in h.gaveUp || (id, a, DeleteAwaiting) in h.gaveUp
  }

  predicate OutcomeTraced(h: Taken, o: Outcome) {
    match o
    case DeleteRejected(id, a, confirmed) =>
      AnyGaveUp(h, id, a) && (if confirmed then (id, a) in h.saw else (id, a) in h.failed)
    case PurgeRejected(a) => exists at :: (a, at) in h.purges
    case _ => true
  }

  /** What follows this program point does not end in a rejection of a deletion or purge. */
  predicate RejectFree(a: After) {
    !EndOf(a).DeleteRejected? && !EndOf(a).PurgeRejected?
  }

  predicate OpTraced(h: Taken, c: Client, op: Op) {
    match op
    case DeleteFailed(id, t) => AnyGaveUp(h, id, (c, t))
    case DeleteRechecking(id, t, _) => AnyGaveUp(h, id, (c, t))
    case ToClean(_, next) => RejectFree(next)
    case Sweeping(_, _, _, ok, failed) => RejectFree(ok) && RejectFree(failed)
    case Closing(_, ok, failed) =>
      && (RejectFree(ok) || (ok.Return? && ok == failed && ok.outcome.DeleteRejected? && ok.outcome.confirmed))
      && (RejectFree(failed)
          || (failed.Return? && failed.outcome.DeleteRejected?
              && var o := failed.outcome;
                 o.attempt.0 == c && AnyGaveUp(h, o.id, o.attempt) && (o.confirmed ==> (o.id, o.attempt) in h.saw)))
    case _ => true
  }

  ghost predicate Traced(h: Taken, s: Sys) {
    && (forall c :: OpTraced(h, c, OpOf(s, c)))
    && (forall o :: o in s.outcomes ==> OutcomeTraced(h, o))
  }

  predicate Knows(h: Taken, n: Taken) {
    h.commits <= n.commits && h.gaveUp <= n.gaveUp && h.saw <= n.saw && h.failed <= n.failed && h.purges <= n.purges
  }

  lemma LearnKnows(h: Taken, s: Sys, c: Client, l: Label)
    ensures Knows(h, Learn(h, s, c, l))
  {
    hide OpOf;
  }

  lemma TracedStays(h: Taken, n: Taken, c: Client, op: Op)
    requires Knows(h, n) && OpTraced(h, c, op)
    ensures OpTraced(n, c, op)
  {
    hide EndOf;
  }

  lemma OutcomeStays(h: Taken, n: Taken, o: Outcome)
    requires Knows(h, n) && OutcomeTraced(h, o)
    ensures OutcomeTraced(n, o)
  {
  }

  /** What a move leaves for its client is traced too. */
  ghost predicate MoveTraced(h: Taken, c: Client, m: Move) {
    match m
    case Goto(_, op) => OpTraced(h, c, op)
    case Leave(_, Clean(_, next)) => RejectFree(next)
    case Leave(_, Return(o)) => OutcomeTraced(h, o)
  }

  lemma PutMoveTraced(h: Taken, s: Sys, c: Client, l: Label, m: Move)
    requires PutMove(s, c, OpOf(s, c), l) == Some(m)
    ensures MoveTraced(h, c, m)
  {
  }

  lemma RecheckMoveTraced(h: Taken, s: Sys, c: Client, l: Label, m: Move)
    requires RecheckMove(s, c, OpOf(s, c), l) == Some(m)
    ensures MoveTraced(h, c, m)
  {
    hide RefsOf, Open;
  }

  lemma DeleteMoveTraced(h: Taken, s: Sys, c: Client, l: Label, m: Move)
    requires OpTraced(h, c, OpOf(s, c)) && DeleteMove(s, c, OpOf(s, c), l) == Some(m) && IsDelete(l)
    ensures MoveTraced(Learn(h, s, c, l), c, m)
  {
    hide Open, OpOf;
    var op := OpOf(s, c);
    if l.DeleteRecheckRead? && op.DeleteRechecking? { RecheckReadTraced(h, s, c, l, m); }
  }

  lemma RecheckReadTraced(h: Taken, s: Sys, c: Client, l: Label, m: Move)
    requires OpTraced(h, c, OpOf(s, c)) && OpOf(s, c).DeleteRechecking? && l.DeleteRecheckRead?
    requires DeleteRecheckMove(s, c, OpOf(s, c), l) == Some(m)
    ensures MoveTraced(Learn(h, s, c, l), c, m)
  {
    hide Open, OpOf;
    var op := OpOf(s, c);
    var n := Learn(h, s, c, l);
    assert AnyGaveUp(n, op.id, (c, op.attempt));
    if op.id in s.rows {
      assert (op.id, (c, op.attempt)) in n.saw;
    } else {
      assert EndOf(m.op.ok) == DeleteOk(op.id);
    }
  }

  lemma PurgeMoveTraced(h: Taken, s: Sys, c: Client, l: Label, m: Move)
    requires PurgeMove(s, c, OpOf(s, c), l) == Some(m) && IsPurge(l)
    ensures MoveTraced(Learn(h, s, c, l), c, m)
  {
    hide Open;
    var op := OpOf(s, c);
    if l.PurgeThrow? { assert ((c, op.tx), op.purge) in Learn(h, s, c, l).purges; }
  }

  lemma SweepMoveTraced(h: Taken, s: Sys, c: Client, l: Label, m: Move)
    requires OpTraced(h, c, OpOf(s, c)) && SweepMove(s, c, OpOf(s, c), l) == Some(m)
    ensures MoveTraced(h, c, m)
  {
    hide RefsOf, Open;
  }

  lemma CloseMoveTraced(h: Taken, s: Sys, c: Client, l: Label, m: Move)
    requires OpTraced(h, c, OpOf(s, c)) && CloseMove(s, c, OpOf(s, c), l) == Some(m) && IsClose(l)
    ensures MoveTraced(Learn(h, s, c, l), c, m)
  {
    hide Open;
    LearnKnows(h, s, c, l);
  }

  lemma ClientMoveTraced(h: Taken, s: Sys, c: Client, l: Label, m: Move)
    requires OpTraced(h, c, OpOf(s, c)) && ClientMove(s, c, l) == Some(m)
    ensures MoveTraced(Learn(h, s, c, l), c, m)
  {
    hide Learn, PutMove, RecheckMove, DeleteMove, PurgeMove, SweepMove, CloseMove, OpTraced, MoveTraced;
    var n := Learn(h, s, c, l);
    LearnKnows(h, s, c, l);
    TracedStays(h, n, c, OpOf(s, c));
    if IsRecheck(l) { RecheckMoveTraced(n, s, c, l, m); }
    else if IsDelete(l) { DeleteMoveTraced(h, s, c, l, m); }
    else if IsPurge(l) { PurgeMoveTraced(h, s, c, l, m); }
    else if IsSweep(l) { SweepMoveTraced(n, s, c, l, m); }
    else if IsClose(l) { CloseMoveTraced(h, s, c, l, m); }
    else { PutMoveTraced(n, s, c, l, m); }
  }

  /** The program points and outcomes after a step. */
  lemma StepOps(s: Sys, c: Client, l: Label, t: Sys)
    requires Step(s, c, l) == Some(t)
    ensures IsEnvironment(l) ==> t.outcomes == s.outcomes && forall d :: OpOf(t, d) == OpOf(s, d) || OpOf(t, d).Idle?
    ensures !IsEnvironment(l) ==> ClientMove(s, c, l).Some? && AfterMove(s, c, ClientMove(s, c, l).value, t)
  {
    hide ClientMove;
    if !IsEnvironment(l) { PerformFrame(s, c, ClientMove(s, c, l).value.effect); }
  }

  ghost predicate AfterMove(s: Sys, c: Client, m: Move, t: Sys) {
    && (forall d :: d != c ==> OpOf(t, d) == OpOf(s, d))
    && match m
       case Goto(_, op) => OpOf(t, c) == op && t.outcomes == s.outcomes
       case Leave(_, Clean(ids, next)) => OpOf(t, c) == ToClean(ids, next) && t.outcomes == s.outcomes
       case Leave(_, Return(o)) => OpOf(t, c) == Idle && t.outcomes == s.outcomes + {o}
  }

  lemma StepTraced(h: Taken, s: Sys, c: Client, l: Label, t: Sys)
    requires Traced(h, s) && Step(s, c, l) == Some(t)
    ensures Traced(Learn(h, s, c, l), t)
  {
    hide Learn, ClientMove, OutcomeTraced, AnyGaveUp, EndOf, RejectFree, OpOf, Step, Knows;
    var n := Learn(h, s, c, l);
    LearnKnows(h, s, c, l);
    StepOps(s, c, l, t);
    if !IsEnvironment(l) {
      assert OpTraced(h, c, OpOf(s, c));
      ClientMoveTraced(h, s, c, l, ClientMove(s, c, l).value);
    }
    forall d ensures OpTraced(n, d, OpOf(t, d)) {
      assert OpTraced(h, d, OpOf(s, d));
      TracedStays(h, n, d, OpOf(s, d));
    }
    forall o | o in t.outcomes ensures OutcomeTraced(n, o) {
      if o in s.outcomes { OutcomeStays(h, n, o); }
    }
  }

  // ---------------------------------------------------------------- attempts that can no longer commit

  function TxOf(op: Op): Option<TxId> {
    match op
    case Putting(_, _, _, tx, _) => Some(tx)
    case Rechecking(_, tx) => Some(tx)
    case Deleting(_, _, tx, _) => Some(tx)
    case DeleteRechecking(_, _, tx) => Some(tx)
    case Purging(_, tx, _) => Some(tx)
    case Sweeping(tx, _, _, _, _) => Some(tx)
    case Closing(tx, _, _) => Some(tx)
    case _ => None
  }

  /** Not committed, no commit requested, and no client that could still request it. */
  ghost predicate Abandoned(s: Sys, a: Attempt) {
    && a.1 < s.nextTx && a !in s.acked
    && !(Live(s, a.0, a.1) && s.tx.value.commitSent)
    && TxOf(OpOf(s, a.0)) != Some(a.1)
  }

  /** A client requests the commit of its own transaction only, and gets a new one only by binding. */
  ghost predicate TxDisciplined(s: Sys, c: Client, m: Move) {
    && (m.effect.SendCommit? ==> s.tx.Some? && s.tx.value.owner == c && TxOf(OpOf(s, c)) == Some(s.tx.value.id))
    && (m.effect.Bind? ==> s.tx.None?)
    && (m.Goto? ==> || TxOf(m.op).None? || TxOf(m.op) == TxOf(OpOf(s, c))
                    || (m.effect.Bind? && TxOf(m.op) == Some(s.nextTx)))
  }

  lemma PutDisciplined(s: Sys, c: Client, l: Label, m: Move)
    requires PutMove(s, c, OpOf(s, c), l) == Some(m)
    ensures TxDisciplined(s, c, m)
  {
    hide KeyFree, OpOf;
  }

  lemma OthersDisciplined(s: Sys, c: Client, l: Label, m: Move)
    requires RecheckMove(s, c, OpOf(s, c), l) == Some(m) || DeleteMove(s, c, OpOf(s, c), l) == Some(m)
             || PurgeMove(s, c, OpOf(s, c), l) == Some(m)
    ensures TxDisciplined(s, c, m)
  {
    hide RefsOf, OpOf;
  }

  lemma SweepsDisciplined(s: Sys, c: Client, l: Label, m: Move)
    requires SweepMove(s, c, OpOf(s, c), l) == Some(m) || CloseMove(s, c, OpOf(s, c), l) == Some(m)
    ensures TxDisciplined(s, c, m)
  {
    hide RefsOf, OpOf;
  }

  lemma ClientMoveDisciplined(s: Sys, c: Client, l: Label, m: Move)
    requires ClientMove(s, c, l) == Some(m)
    ensures TxDisciplined(s, c, m)
  {
    hide PutMove, RecheckMove, DeleteMove, PurgeMove, SweepMove, CloseMove, TxDisciplined, OpOf;
    if IsRecheck(l) || IsDelete(l) || IsPurge(l) { OthersDisciplined(s, c, l, m); }
    else if IsSweep(l) || IsClose(l) { SweepsDisciplined(s, c, l, m); }
    else { PutDisciplined(s, c, l, m); }
  }

  /** What an effect may do to the bound transaction. */
  ghost predicate TxAfter(s: Sys, c: Client, e: Effect, t: Sys) {
    && t.acked == s.acked
    && if e.Bind? then t.nextTx == s.nextTx + 1 && Live(t, c, s.nextTx) && !t.tx.value.commitSent
       else
         && t.nextTx == s.nextTx && t.tx.Some? == s.tx.Some?
         && (s.tx.Some? ==>
               && t.tx.value.id == s.tx.value.id && t.tx.value.owner == s.tx.value.owner
               && (t.tx.value.commitSent == (s.tx.value.commitSent || e.SendCommit?)))
  }

  lemma PerformTx(s: Sys, c: Client, e: Effect)
    ensures TxAfter(s, c, e, Perform(s, c, e))
  {
  }

  lemma MovedTx(s: Sys, c: Client, m: Move)
    ensures TxAfter(s, c, m.effect, Moved(s, c, m))
  {
    hide Perform, Moved;
    PerformTx(s, c, m.effect);
    MovedFrame(s, c, m);
  }

  lemma MoveAbandons(s: Sys, c: Client, m: Move, t: Sys, a: Attempt)
    requires Abandoned(s, a) && TxDisciplined(s, c, m) && TxAfter(s, c, m.effect, t) && AfterMove(s, c, m, t)
    ensures Abandoned(t, a)
  {
    hide OpOf;
  }

  lemma EnvironmentAbandons(s: Sys, c: Client, l: Label, t: Sys, a: Attempt)
    requires Abandoned(s, a) && Environment(s, c, l) == Some(t)
    ensures Abandoned(t, a)
  {
  }

  /** An abandoned attempt stays abandoned. */
  lemma StepAbandons(s: Sys, c: Client, l: Label, t: Sys, a: Attempt)
    requires Abandoned(s, a) && Step(s, c, l) == Some(t)
    ensures Abandoned(t, a)
  {
    hide ClientMove, OpOf, TxOf, Abandoned, Environment, Moved, TxAfter, AfterMove;
    if IsEnvironment(l) {
      EnvironmentAbandons(s, c, l, t, a);
    } else {
      var m := ClientMove(s, c, l).value;
      StepOps(s, c, l, t);
      ClientMoveDisciplined(s, c, l, m);
      MovedTx(s, c, m);
      MoveAbandons(s, c, m, t, a);
    }
  }

  // ---------------------------------------------------------------- what the history says about commits

  /** Commits are those carried out; who gave up before asking for one has abandoned it; a row that was seen was not deleted. */
  ghost predicate Settled(h: Taken, s: Sys) {
    && s.acked == h.commits
    && (forall id, a :: (id, a, ToSendDelete) in h.gaveUp ==> Abandoned(s, a))
    && (forall id, a: Attempt :: (id, a) in h.saw ==> Lost(s, a))
    && (forall a, at :: (a, at) in h.purges && at != PurgeAwaiting ==> Abandoned(s, a))
  }

  lemma GivingUpAbandons(s: Sys, c: Client, l: Label, t: Sys, a: Attempt)
    requires Inv(s) && Step(s, c, l) == Some(t)
    requires (exists id :: GivesUp(s, c, l, id, a, ToSendDelete)) || (exists at :: at != PurgeAwaiting && PurgeGivesUp(s, c, l, a, at))
    ensures Abandoned(t, a)
  {
    hide Shared, UploadsDistinct, RefsOf, KeyFree;
    assert OpSound(s, c, OpOf(s, c));
  }

  lemma SeenRowIsKept(s: Sys, c: Client, l: Label, t: Sys, id: Id, a: Attempt)
    requires Inv(s) && Step(s, c, l) == Some(t) && SeesRow(s, c, l, id, a)
    ensures Lost(s, a)
  {
    hide UploadsDistinct;
    assert OpSound(s, c, OpOf(s, c));
  }

  lemma StepSettles(h: Taken, s: Sys, c: Client, l: Label, t: Sys)
    requires Inv(s) && Settled(h, s) && Step(s, c, l) == Some(t)
    ensures Settled(Learn(h, s, c, l), t)
  {
    hide Learn, Inv, Step, Abandoned, Lost, GivesUp, SeesRow, PurgeGivesUp, CarriesOut;
    var n := Learn(h, s, c, l);
    StepGrows(s, c, l, t);
    forall a ensures a in t.acked <==> a in n.commits {
      StepAcks(s, c, l, t, a);
      LearnMeans(h, s, c, l, 0, a, ToRead, ToSelect);
    }
    forall id, a | (id, a, ToSendDelete) in n.gaveUp ensures Abandoned(t, a) {
      LearnMeans(h, s, c, l, id, a, ToSendDelete, ToSelect);
      if (id, a, ToSendDelete) in h.gaveUp { StepAbandons(s, c, l, t, a); } else { GivingUpAbandons(s, c, l, t, a); }
    }
    forall id, a: Attempt | (id, a) in n.saw ensures Lost(t, a) {
      LearnMeans(h, s, c, l, id, a, ToRead, ToSelect);
      if (id, a) !in h.saw { SeenRowIsKept(s, c, l, t, id, a); }
      assert Grows(s, t);
    }
    forall a, at | (a, at) in n.purges && at != PurgeAwaiting ensures Abandoned(t, a) {
      LearnMeans(h, s, c, l, 0, a, ToRead, at);
      if (a, at) in h.purges { StepAbandons(s, c, l, t, a); } else { GivingUpAbandons(s, c, l, t, a); }
    }
  }

  lemma StepAcks(s: Sys, c: Client, l: Label, t: Sys, a: Attempt)
    requires Step(s, c, l) == Some(t)
    ensures a in t.acked <==> a in s.acked || CarriesOut(s, l, a)
  {
    hide ClientMove;
    if !IsEnvironment(l) { MovedTx(s, c, ClientMove(s, c, l).value); }
  }

  lemma {:induction false} RunSettles(ss: seq<Sys>, cs: seq<Client>, ls: seq<Label>, j: nat)
    requires IsRun(ss, cs, ls) && j < |ss|
    ensures Settled(TakenBy(ss, cs, ls, j), ss[j]) && Traced(TakenBy(ss, cs, ls, j), ss[j])
  {
    hide Learn, Inv, Step, Settled, Traced, Init;
    if j == 0 {
      InitSettles(ss[0]);
    } else {
      RunSettles(ss, cs, ls, j - 1);
      RunKeeps(ss, cs, ls, j - 1);
      assert StepAt(ss, cs, ls, j - 1);
      StepSettles(TakenBy(ss, cs, ls, j - 1), ss[j - 1], cs[j - 1], ls[j - 1], ss[j]);
      StepTraced(TakenBy(ss, cs, ls, j - 1), ss[j - 1], cs[j - 1], ls[j - 1], ss[j]);
    }
  }

  lemma InitSettles(s: Sys)
    requires Init(s)
    ensures Settled(Taken({}, {}, {}, {}, {}), s) && Traced(Taken({}, {}, {}, {}, {}), s)
  {
  }

  // ---------------------------------------------------------------- when a recorded rejection is false

  /**
   * A recorded rejection of a deletion stands although the deletion committed exactly when the client asked for the
   * commit and gave up waiting, the server carried it out, and the recheck failed: it was not bound, not answered, or
   * found no row and did not close. CarriedOut alone says again that the attempt committed; the content is the forward
   * direction: wherever a rejected attempt did commit, the client had given up waiting for that very commit and its
   * recheck failed without ever seeing the row. A recheck that sees the row makes the rejection true and marks it
   * confirmed. The server may also carry the commit out after the rejection was recorded; `j` is any later moment.
   */
  lemma DeleteRejectionIsFalseIff(ss: seq<Sys>, cs: seq<Client>, ls: seq<Label>, j: nat, id: Id, a: Attempt, confirmed: bool)
    requires IsRun(ss, cs, ls) && j < |ss| && DeleteRejected(id, a, confirmed) in ss[j].outcomes
    ensures a in ss[j].acked <==>
      && CarriedOut(ss, cs, ls, j, a) && GaveUp(ss, cs, ls, j, id, a, DeleteAwaiting)
      && RecheckFailed(ss, cs, ls, j, id, a) && !RecheckSawRow(ss, cs, ls, j, id, a)
    ensures confirmed ==> RecheckSawRow(ss, cs, ls, j, id, a)
    ensures !confirmed ==> RecheckFailed(ss, cs, ls, j, id, a)
  {
    hide IsRun, CarriedOut, GaveUp, RecheckFailed, RecheckSawRow, TakenBy;
    var h := TakenBy(ss, cs, ls, j);
    RunSettles(ss, cs, ls, j);
    assert OutcomeTraced(h, DeleteRejected(id, a, confirmed));
    TakenMeans(ss, cs, ls, j, id, a, DeleteAwaiting, ToSelect);
  }

  /** A recorded rejection of a purge is false exactly when its commit was asked for, given up on and carried out. */
  lemma PurgeRejectionIsFalseIff(ss: seq<Sys>, cs: seq<Client>, ls: seq<Label>, j: nat, a: Attempt)
    requires IsRun(ss, cs, ls) && j < |ss| && PurgeRejected(a) in ss[j].outcomes
    ensures a in ss[j].acked <==> CarriedOut(ss, cs, ls, j, a) && PurgeGaveUp(ss, cs, ls, j, a, PurgeAwaiting)
  {
    hide IsRun, CarriedOut, PurgeGaveUp, TakenBy;
    var h := TakenBy(ss, cs, ls, j);
    RunSettles(ss, cs, ls, j);
    assert OutcomeTraced(h, PurgeRejected(a));
    var at :| (a, at) in h.purges;
    TakenMeans(ss, cs, ls, j, 0, a, ToRead, at);
  }
}

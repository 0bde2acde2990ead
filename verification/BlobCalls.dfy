/** What each call of a client comes to when nobody interferes, for every state it may start in. */
module BlobCalls {
  import opened Wrappers
  import opened Content
  import opened BlobProtocol

  /** The steps `ls` one after the other; the steps of the server in between carry the client's name too. */
  function Play(s: Sys, c: Client, ls: seq<Label>): Option<Sys>
    decreases |ls|
  {
    if ls == [] then Some(s) else
    match Step(s, c, ls[0])
    case None => None
    case Some(t) => Play(t, c, ls[1..])
  }

  lemma {:induction false} PlayThen(s: Sys, c: Client, a: seq<Label>, b: seq<Label>, t: Sys)
    requires Play(s, c, a) == Some(t)
    ensures Play(s, c, a + b) == Play(t, c, b)
    decreases |a|
  {
    hide Step;
    if a == [] {
      assert a + b == b;
    } else {
      assert (a + b)[1..] == a[1..] + b;
      PlayThen(Step(s, c, a[0]).value, c, a[1..], b, t);
    }
  }

  lemma Play1(s: Sys, c: Client, l: Label, t: Sys)
    requires Step(s, c, l) == Some(t)
    ensures Play(s, c, [l]) == Some(t)
  {
    hide Step;
  }

  lemma Play2(s: Sys, c: Client, l: Label, t: Sys, m: Label, u: Sys)
    requires Step(s, c, l) == Some(t) && Step(t, c, m) == Some(u)
    ensures Play(s, c, [l, m]) == Some(u)
  {
    hide Step;
    Play1(s, c, l, t);
    Play1(t, c, m, u);
    PlayThen(s, c, [l], [m], t);
    assert [l, m] == [l] + [m];
  }

  lemma Play3(s: Sys, c: Client, l: Label, t: Sys, m: Label, u: Sys, n: Label, v: Sys)
    requires Step(s, c, l) == Some(t) && Step(t, c, m) == Some(u) && Step(u, c, n) == Some(v)
    ensures Play(s, c, [l, m, n]) == Some(v)
  {
    hide Step;
    Play2(s, c, l, t, m, u);
    Play1(u, c, n, v);
    PlayThen(s, c, [l, m], [n], u);
    assert [l, m, n] == [l, m] + [n];
  }

  // ---------------------------------------------------------------- the end of a transaction

  /** The same state, with client `c` at another program point. */
  function At(s: Sys, c: Client, op: Op): Sys {
    s.(ops := s.ops[c := op])
  }

  function Resumed(s: Sys, c: Client, a: After): Sys {
    match a
    case Return(o) => s.(ops := s.ops - {c}, outcomes := s.outcomes + {o})
    case Clean(ids, next) => s.(ops := s.ops[c := ToClean(ids, next)])
  }

  /** The same state but for what client `c` is at. */
  lemma ResumedFrom(s: Sys, c: Client, op: Op, a: After)
    ensures Resumed(At(s, c, op), c, a) == Resumed(s, c, a)
  {
    assert s.ops[c := op] - {c} == s.ops - {c};
  }

  /** Transaction `t` of client `c` is open and has changed nothing. */
  predicate Clear(s: Sys, c: Client, t: TxId) {
    s.tx == Some(Tx(t, c, None, None, {}, false))
  }

  function Over(s: Sys, c: Client, t: TxId): Sys {
    s.(tx := None, acked := s.acked + {(c, t)})
  }

  const CLOSING := [CloseSend, ServerCommit, CloseAck]

  lemma Closes(s: Sys, c: Client, t: TxId, ok: After, failed: After)
    requires OpOf(s, c) == Closing(t, ok, failed) && Clear(s, c, t)
    ensures Play(s, c, CLOSING) == Some(Resumed(Over(s, c, t), c, ok))
  {
    hide Play, Step, OpOf, Clear, Resumed;
    var op := Closing(t, ok, failed);
    var s1 := At(s.(tx := Some(Tx(t, c, None, None, {}, true))), c, op);
    var s2 := Over(s1, c, t);
    CommitsNothing(s1, c, t);
    OpAt(s, c, op);
    OpAt(Over(s, c, t), c, op);
    CloseHears(s2, c, t, ok, failed);
    CloseSends(s, c, t, op);
    assert s2 == Over(s, c, t).(ops := Over(s, c, t).ops[c := op]);
    ResumedFrom(Over(s, c, t), c, op, ok);
    Play3(s, c, CloseSend, s1, ServerCommit, s2, CloseAck, Resumed(s2, c, ok));
  }

  lemma OpAt(s: Sys, c: Client, op: Op)
    ensures OpOf(At(s, c, op), c) == op
  {
  }

  lemma CloseSends(s: Sys, c: Client, t: TxId, op: Op)
    requires OpOf(s, c) == op && op.Closing? && op.tx == t && Clear(s, c, t)
    ensures Step(s, c, CloseSend) == Some(At(s.(tx := Some(Tx(t, c, None, None, {}, true))), c, op))
  {
  }

  lemma CommitsNothing(s: Sys, c: Client, t: TxId)
    requires s.tx == Some(Tx(t, c, None, None, {}, true))
    ensures Step(s, c, ServerCommit) == Some(Over(s, c, t))
  {
    assert s.rows - {} == s.rows;
    assert s.deleted + {} == s.deleted;
  }

  lemma CloseHears(s: Sys, c: Client, t: TxId, ok: After, failed: After)
    requires OpOf(s, c) == Closing(t, ok, failed) && (c, t) in s.acked
    ensures Step(s, c, CloseAck) == Some(Resumed(s, c, ok))
  {
  }

  /** When the server drops the transaction instead, the client takes the other way. */
  lemma ClosingFails(s: Sys, c: Client, t: TxId, ok: After, failed: After)
    requires OpOf(s, c) == Closing(t, ok, failed) && s.tx.Some?
    ensures Play(s, c, [ServerAbort, CloseThrow]) == Some(Resumed(s.(tx := None), c, failed))
  {
    hide Play;
    Play2(s, c, ServerAbort, s.(tx := None), CloseThrow, Resumed(s.(tx := None), c, failed));
  }

  // ---------------------------------------------------------------- sweeping a list of objects

  /** A final object is needed by its row, any object by the retained ones. */
  predicate Needed(rows: map<Id, Row>, retained: map<Ref, Stamp>, r: Ref) {
    (!r.staging && r.id in rows) || r in retained
  }

  function SweepSteps(rows: map<Id, Row>, retained: map<Ref, Stamp>, refs: seq<Ref>): seq<Label> {
    if refs == [] then [] else
    (if Needed(rows, retained, refs[0]) then [SweepEvidence] else [SweepEvidence, SweepRemove])
    + SweepSteps(rows, retained, refs[1..])
  }

  function Gone(s: Sys, refs: seq<Ref>, staging: bool): set<Id> {
    set r | r in refs && r.staging == staging && !Needed(s.rows, s.retained, r) :: r.id
  }

  function Swept(s: Sys, refs: seq<Ref>): Sys {
    s.(final := s.final - Gone(s, refs, false), staged := s.staged - Gone(s, refs, true))
  }

  lemma SweptFirst(s: Sys, refs: seq<Ref>)
    requires refs != []
    ensures Swept(s, refs) == Swept(Swept(s, [refs[0]]), refs[1..])
  {
    forall b ensures Gone(s, refs, b) == Gone(s, [refs[0]], b) + Gone(s, refs[1..], b) {
      assert refs == [refs[0]] + refs[1..];
      var a, z := Gone(s, refs, b), Gone(s, [refs[0]], b) + Gone(s, refs[1..], b);
      forall i | i in a ensures i in z {
        assert Ref(i, b) in refs;
        assert Ref(i, b) in [refs[0]] || Ref(i, b) in refs[1..];
      }
      forall i | i in z ensures i in a {
        assert Ref(i, b) in refs;
      }
    }
    var t := Swept(s, [refs[0]]);
    assert forall b :: Gone(t, refs[1..], b) == Gone(s, refs[1..], b);
    assert forall m: map<Id, Bytes>, x: set<Id>, y: set<Id> :: m - (x + y) == (m - x) - y;
  }

  /** One object: the evidence decides, and only what is not needed is removed. */
  lemma SweepsOne(s: Sys, c: Client, t: TxId, refs: seq<Ref>, ok: After, failed: After)
    requires OpOf(s, c) == Sweeping(t, refs, None, ok, failed) && Clear(s, c, t) && refs != []
    ensures Play(s, c, if Needed(s.rows, s.retained, refs[0]) then [SweepEvidence] else [SweepEvidence, SweepRemove])
         == Some(At(Swept(s, [refs[0]]), c, Sweeping(t, refs[1..], None, ok, failed)))
  {
    hide Play, Step, Swept;
    var r, op := refs[0], Sweeping(t, refs[1..], None, ok, failed);
    SweptOne(s, r);
    SweepLooks(s, c, t, refs, ok, failed);
    if Needed(s.rows, s.retained, r) {
      Play1(s, c, SweepEvidence, At(s, c, op));
    } else {
      var s1 := At(s, c, op.(hold := Some(r)));
      SweepTakes(s1, c, op.(hold := Some(r)));
      assert s.ops[c := op.(hold := Some(r))][c := op] == s.ops[c := op];
      Play2(s, c, SweepEvidence, s1, SweepRemove, At(Dropped(s1, r), c, op));
    }
  }

  function Dropped(s: Sys, r: Ref): Sys {
    if r.staging then s.(staged := s.staged - {r.id}) else s.(final := s.final - {r.id})
  }

  lemma SweptOne(s: Sys, r: Ref)
    ensures Swept(s, [r]) == if Needed(s.rows, s.retained, r) then s else Dropped(s, r)
  {
    forall b ensures Gone(s, [r], b) == if r.staging == b && !Needed(s.rows, s.retained, r) then {r.id} else {} {
      assert forall i :: i in Gone(s, [r], b) <==> i == r.id && r.staging == b && !Needed(s.rows, s.retained, r);
    }
    assert s.final - {} == s.final && s.staged - {} == s.staged;
  }

  lemma SweepLooks(s: Sys, c: Client, t: TxId, refs: seq<Ref>, ok: After, failed: After)
    requires OpOf(s, c) == Sweeping(t, refs, None, ok, failed) && Clear(s, c, t) && refs != []
    ensures Step(s, c, SweepEvidence) == Some(At(s, c, Sweeping(t, refs[1..],
      if Needed(s.rows, s.retained, refs[0]) then None else Some(refs[0]), ok, failed)))
  {
  }

  lemma SweepTakes(s: Sys, c: Client, op: Op)
    requires OpOf(s, c) == op && op.Sweeping? && op.hold.Some?
    ensures Step(s, c, SweepRemove) == Some(At(Dropped(s, op.hold.value), c, op.(hold := None)))
  {
  }

  lemma {:induction false} SweepsAll(s: Sys, c: Client, t: TxId, refs: seq<Ref>, ok: After, failed: After)
    requires OpOf(s, c) == Sweeping(t, refs, None, ok, failed) && Clear(s, c, t)
    ensures Play(s, c, SweepSteps(s.rows, s.retained, refs)) == Some(At(Swept(s, refs), c, Sweeping(t, [], None, ok, failed)))
    decreases |refs|
  {
    hide Step, Needed, OpOf, Swept, At, Clear;
    var done := Sweeping(t, [], None, ok, failed);
    if refs == [] {
      SweptNone(s, c, done);
    } else {
      hide Play;
      var op := Sweeping(t, refs[1..], None, ok, failed);
      var s1 := At(Swept(s, [refs[0]]), c, op);
      SweepsOne(s, c, t, refs, ok, failed);
      SweptFrame(s, c, refs, op, done, t);
      SweepsAll(s1, c, t, refs[1..], ok, failed);
      PlayThen(s, c, if Needed(s.rows, s.retained, refs[0]) then [SweepEvidence] else [SweepEvidence, SweepRemove],
               SweepSteps(s.rows, s.retained, refs[1..]), s1);
    }
  }

  lemma SweptNone(s: Sys, c: Client, op: Op)
    requires OpOf(s, c) == op && !op.Idle?
    ensures At(Swept(s, []), c, op) == s
  {
    assert Gone(s, [], true) == {} && Gone(s, [], false) == {};
    assert s.final - {} == s.final && s.staged - {} == s.staged && s.ops[c := op] == s.ops;
  }

  lemma SweptFrame(s: Sys, c: Client, refs: seq<Ref>, op: Op, done: Op, t: TxId)
    requires refs != [] && Clear(s, c, t)
    ensures var s1 := At(Swept(s, [refs[0]]), c, op);
      && OpOf(s1, c) == op && Clear(s1, c, t) && s1.rows == s.rows && s1.retained == s.retained
      && At(Swept(s1, refs[1..]), c, done) == At(Swept(s, refs), c, done)
  {
    SweptFirst(s, refs);
    var s1 := At(Swept(s, [refs[0]]), c, op);
    assert s1.ops[c := done] == s.ops[c := done];
    forall b ensures Gone(s1, refs[1..], b) == Gone(Swept(s, [refs[0]]), refs[1..], b) {}
  }

  /** A sweep to its end: its transaction is over, and the client goes on. */
  lemma SweepsToEnd(s: Sys, c: Client, t: TxId, refs: seq<Ref>, ok: After, failed: After)
    requires OpOf(s, c) == Sweeping(t, refs, None, ok, failed) && Clear(s, c, t)
    ensures Play(s, c, SweepSteps(s.rows, s.retained, refs) + ([SweepEnd] + CLOSING))
         == Some(Resumed(Over(Swept(s, refs), c, t), c, ok))
  {
    hide Play, Step, Swept, Resumed, OpOf, Clear, Over;
    var s1 := At(Swept(s, refs), c, Sweeping(t, [], None, ok, failed));
    var s2 := At(Swept(s, refs), c, Closing(t, ok, failed));
    SweepsAll(s, c, t, refs, ok, failed);
    SweptClear(s, c, refs, t);
    OpAt(Swept(s, refs), c, Sweeping(t, [], None, ok, failed));
    OpAt(Swept(s, refs), c, Closing(t, ok, failed));
    SweepEnds(s1, c, t, ok, failed);
    AtAt(Swept(s, refs), c, Sweeping(t, [], None, ok, failed), Closing(t, ok, failed));
    Play1(s1, c, SweepEnd, s2);
    Closes(s2, c, t, ok, failed);
    PlayThen(s1, c, [SweepEnd], CLOSING, s2);
    PlayThen(s, c, SweepSteps(s.rows, s.retained, refs), [SweepEnd] + CLOSING, s1);
    OverAt(Swept(s, refs), c, t, Closing(t, ok, failed));
    ResumedFrom(Over(Swept(s, refs), c, t), c, Closing(t, ok, failed), ok);
  }

  /** A move to another program point. */
  lemma Goes(s: Sys, c: Client, op: Op, l: Label, e: Effect, t: Sys, next: Op)
    requires !IsEnvironment(l) && ClientMove(At(s, c, op), c, l) == Some(Goto(e, next))
    requires Perform(At(s, c, op), c, e) == At(t, c, op) && t.ops == s.ops
    ensures Step(At(s, c, op), c, l) == Some(At(t, c, next))
  {
    hide ClientMove, Perform;
    AtAt(t, c, op, next);
  }

  lemma PerformAt(s: Sys, c: Client, op: Op, e: Effect)
    requires e.Nothing? || e.WriteStaged? || e.WriteFinal? || (s.tx.Some? && (e.Insert? || e.SendCommit?))
    ensures Perform(At(s, c, op), c, e) == At(Perform(s, c, e), c, op)
  {
    if e.WriteFinal? { WriteAt(s, c, op, e); }
  }

  lemma WriteAt(s: Sys, c: Client, op: Op, e: Effect)
    requires e.WriteFinal?
    ensures Perform(At(s, c, op), c, e) == At(Perform(s, c, e), c, op)
  {
  }

  lemma AtAt(s: Sys, c: Client, op: Op, next: Op)
    ensures At(At(s, c, op), c, next) == At(s, c, next)
  {
    assert s.ops[c := op][c := next] == s.ops[c := next];
  }

  lemma OverAt(s: Sys, c: Client, t: TxId, op: Op)
    ensures Over(At(s, c, op), c, t) == At(Over(s, c, t), c, op)
  {
  }

  lemma SweptClear(s: Sys, c: Client, refs: seq<Ref>, t: TxId)
    requires Clear(s, c, t)
    ensures forall op :: Clear(At(Swept(s, refs), c, op), c, t)
  {
  }

  lemma SweepEnds(s: Sys, c: Client, t: TxId, ok: After, failed: After)
    requires OpOf(s, c) == Sweeping(t, [], None, ok, failed)
    ensures Step(s, c, SweepEnd) == Some(At(s, c, Closing(t, ok, failed)))
  {
  }

  // ---------------------------------------------------------------- cleanupBlobs

  /** Client `c` has bound a transaction that is to change nothing, and is at `op`. */
  function Bound(s: Sys, c: Client, op: Op): Sys {
    At(s.(tx := Some(Tx(s.nextTx, c, None, None, {}, false)), nextTx := s.nextTx + 1), c, op)
  }

  /** A transaction that changed nothing has come and gone. */
  function Spent(s: Sys, c: Client): Sys {
    s.(nextTx := s.nextTx + 1, acked := s.acked + {(c, s.nextTx)})
  }

  lemma BoundOver(s: Sys, c: Client, op: Op, a: After)
    requires s.tx.None?
    ensures OpOf(Bound(s, c, op), c) == op && Clear(Bound(s, c, op), c, s.nextTx)
    ensures Resumed(Over(Bound(s, c, op), c, s.nextTx), c, a) == Resumed(Spent(s, c), c, a)
  {
    ResumedFrom(Spent(s, c), c, op, a);
    assert Over(Bound(s, c, op), c, s.nextTx) == At(Spent(s, c), c, op);
  }

  lemma SpentFrom(s: Sys, c: Client, op: Op, a: After)
    ensures Resumed(Spent(At(s, c, op), c), c, a) == Resumed(Spent(s, c), c, a)
  {
    ResumedFrom(Spent(s, c), c, op, a);
    assert Spent(At(s, c, op), c) == At(Spent(s, c), c, op);
  }

  lemma SweptFrom(s: Sys, c: Client, op: Op, refs: seq<Ref>, a: After)
    ensures Resumed(Swept(Spent(At(s, c, op), c), refs), c, a) == Resumed(Swept(Spent(s, c), refs), c, a)
  {
    ResumedFrom(Swept(Spent(s, c), refs), c, op, a);
    assert Swept(Spent(At(s, c, op), c), refs) == At(Swept(Spent(s, c), refs), c, op);
  }

  function Asked(s: Sys, only: Option<seq<Id>>, listed: seq<Ref>): seq<Ref> {
    if s.gateActive then [] else if only.Some? then RefsOf(only.value) else listed
  }

  /** The gate is down, the object is among those asked about, and nothing needs it. */
  predicate Unneeded(s: Sys, only: Option<seq<Id>>, listed: seq<Ref>, r: Ref) {
    !s.gateActive && (if only.Some? then r.id in only.value else r in listed) && !Needed(s.rows, s.retained, r)
  }

  lemma AskedUnneeded(s: Sys, only: Option<seq<Id>>, listed: seq<Ref>, r: Ref)
    ensures Unneeded(s, only, listed, r) <==> r in Asked(s, only, listed) && !Needed(s.rows, s.retained, r)
  {
    if only.Some? { RefsOfHas(only.value, r); }
  }

  function CleanSteps(s: Sys, only: Option<seq<Id>>, listed: seq<Ref>): seq<Label> {
    [CleanBind(listed)] + (SweepSteps(s.rows, s.retained, Asked(s, only, listed)) + ([SweepEnd] + CLOSING))
  }

  /** A cleanup removes exactly the objects it was asked about that nothing needs, and none while the gate is up. */
  lemma CleanupRemovesTheUnneeded(s: Sys, c: Client, only: Option<seq<Id>>, next: After, listed: seq<Ref>)
    requires OpOf(s, c) == ToClean(only, next) && s.tx.None? && forall r :: r in listed ==> r.id in s.used
    ensures var refs := Asked(s, only, listed);
      && Play(s, c, CleanSteps(s, only, listed)) == Some(Resumed(Swept(Spent(s, c), refs), c, next))
      && (forall r :: Stored(Swept(s, refs), r) == if Unneeded(s, only, listed, r) then None else Stored(s, r))
  {
    hide Unneeded, Asked, Play, Step, Resumed, OpOf, Clear, Over, Swept, SweepSteps, Needed;
    var refs := Asked(s, only, listed);
    var op := Sweeping(s.nextTx, refs, None, next, next);
    var s1 := Bound(s, c, op);
    CleanBinds(s, c, only, next, listed);
    Play1(s, c, CleanBind(listed), s1);
    BoundOver(s, c, op, next);
    SweepsToEnd(s1, c, s.nextTx, refs, next, next);
    PlayThen(s, c, [CleanBind(listed)], SweepSteps(s.rows, s.retained, refs) + ([SweepEnd] + CLOSING), s1);
    SweptBound(s, c, refs, op, next);
    forall r ensures Stored(Swept(s, refs), r) == if Unneeded(s, only, listed, r) then None else Stored(s, r) {
      AskedUnneeded(s, only, listed, r);
      SweptStored(s, refs, r);
    }
  }

  /** A cleanup that gets no transaction leaves everything as it is. */
  lemma CleanupMayFail(s: Sys, c: Client, only: Option<seq<Id>>, next: After)
    requires OpOf(s, c) == ToClean(only, next)
    ensures Step(s, c, CleanFault) == Some(Resumed(s, c, next))
  {
  }

  lemma CleanBinds(s: Sys, c: Client, only: Option<seq<Id>>, next: After, listed: seq<Ref>)
    requires OpOf(s, c) == ToClean(only, next) && s.tx.None? && forall r :: r in listed ==> r.id in s.used
    ensures Step(s, c, CleanBind(listed)) == Some(Bound(s, c, Sweeping(s.nextTx, Asked(s, only, listed), None, next, next)))
  {
    hide RefsOf;
  }

  lemma SweptBound(s: Sys, c: Client, refs: seq<Ref>, op: Op, a: After)
    requires s.tx.None?
    ensures Resumed(Over(Swept(Bound(s, c, op), refs), c, s.nextTx), c, a) == Resumed(Swept(Spent(s, c), refs), c, a)
  {
    assert Over(Swept(Bound(s, c, op), refs), c, s.nextTx) == At(Swept(Spent(s, c), refs), c, op);
    ResumedFrom(Swept(Spent(s, c), refs), c, op, a);
  }

  lemma SweptStored(s: Sys, refs: seq<Ref>, r: Ref)
    ensures Stored(Swept(s, refs), r) == if r in refs && !Needed(s.rows, s.retained, r) then None else Stored(s, r)
  {
    assert r.id in Gone(s, refs, r.staging) <==> r in refs && !Needed(s.rows, s.retained, r) by {
      if r.id in Gone(s, refs, r.staging) {
        var q :| q in refs && q.staging == r.staging && !Needed(s.rows, s.retained, q) && q.id == r.id;
        assert q == r;
      }
    }
  }

  lemma {:induction false} RefsOfHas(ids: seq<Id>, r: Ref)
    ensures r in RefsOf(ids) <==> r.id in ids
  {
    if ids != [] { RefsOfHas(ids[1..], r); }
  }

  /** A sweep of its own starts like the cleanup after a call, with whatever the store lists. */
  lemma SweepStarts(s: Sys, c: Client)
    requires OpOf(s, c).Idle?
    ensures Step(s, c, CleanStart) == Some(At(s, c, ToClean(None, Return(SweepDone))))
  {
  }

  /** At the deadline, or without evidence, a sweep passes over an object; a removal that fails may have removed it or not. */
  lemma SweepPassesOver(s: Sys, c: Client, t: TxId, refs: seq<Ref>, ok: After, failed: After, gone: bool)
    requires refs != []
    ensures Step(At(s, c, Sweeping(t, refs, None, ok, failed)), c, SweepStop) == Some(At(s, c, Sweeping(t, refs[1..], None, ok, failed)))
    ensures Step(At(s, c, Sweeping(t, refs[1..], Some(refs[0]), ok, failed)), c, SweepRemoveFault(gone))
         == Some(At(if gone then Dropped(s, refs[0]) else s, c, Sweeping(t, refs[1..], None, ok, failed)))
  {
    hide Step, OpOf;
    var idle, busy, next := Sweeping(t, refs, None, ok, failed), Sweeping(t, refs[1..], Some(refs[0]), ok, failed), Sweeping(t, refs[1..], None, ok, failed);
    OpAt(s, c, idle);
    OpAt(s, c, busy);
    SweepStops(At(s, c, idle), c, idle);
    SweepFails(At(s, c, busy), c, busy, gone);
    AtAt(s, c, idle, next);
    AtAt(s, c, busy, next);
    AtAt(Dropped(s, refs[0]), c, busy, next);
    DroppedAt(s, c, busy, refs[0]);
  }

  lemma SweepStops(s: Sys, c: Client, op: Op)
    requires OpOf(s, c) == op && op.Sweeping? && op.hold.None? && op.refs != []
    ensures Step(s, c, SweepStop) == Some(At(s, c, op.(refs := op.refs[1..])))
  {
  }

  lemma SweepFails(s: Sys, c: Client, op: Op, gone: bool)
    requires OpOf(s, c) == op && op.Sweeping? && op.hold.Some?
    ensures Step(s, c, SweepRemoveFault(gone)) == Some(At(if gone then Dropped(s, op.hold.value) else s, c, op.(hold := None)))
  {
  }

  lemma DroppedAt(s: Sys, c: Client, op: Op, r: Ref)
    ensures Dropped(At(s, c, op), r) == At(Dropped(s, r), c, op)
  {
  }

  /** A crash loses nothing but where its client was. */
  lemma CrashLosesThePlace(s: Sys, c: Client)
    ensures Step(s, c, Crash).Some? && Step(s, c, Crash).value.(ops := s.ops) == s
    ensures forall d :: OpOf(Step(s, c, Crash).value, d) == if d == c then Idle else OpOf(s, d)
  {
  }

  lemma MovedKeepsTime(s: Sys, c: Client, m: Move)
    ensures Moved(s, c, m).now == s.now
  {
    hide Perform;
    PerformKeepsTime(s, c, m.effect);
  }

  lemma PerformKeepsTime(s: Sys, c: Client, e: Effect)
    ensures Perform(s, c, e).now == s.now
  {
    hide OpOf;
  }

  /** Time does not go back, and only time passing lets rows expire. */
  lemma ClockOnlyAdvances(s: Sys, c: Client, l: Label, t: Sys)
    requires Step(s, c, l) == Some(t)
    ensures s.now <= t.now && (t.now != s.now ==> l.Tick?)
  {
    hide ClientMove, Moved;
    if !IsEnvironment(l) { MovedKeepsTime(s, c, ClientMove(s, c, l).value); }
  }
}

/**
The blob durability protocol of one Workspace, as a step machine.

The database holds `rows` and at most one bound transaction: binding takes the Workspace cursor, and
the cursor is free again only when the server commits or aborts that transaction. The server may abort
at any moment (statement, lock and transaction timeouts, lost connections) while the client that opened
the transaction still goes on with its store operations. A commit that was requested may be carried out
or dropped, and its acknowledgement may be lost either way. A client may crash between any two steps.
*/
module BlobProtocol {
  import opened Wrappers
  import opened Content

  type Id = nat
  type Client = nat
  type TxId = nat
  datatype Row = Row(key: string, stamp: Stamp, owner: nat, expiresAt: int)

  /** A stored object: the final object of an id, or its staged copy. */
  datatype Ref = Ref(id: Id, staging: bool)

  /** Uncommitted changes of the transaction that holds the cursor. */
  datatype Tx = Tx(id: TxId, owner: Client, upload: Option<Id>, insert: Option<Row>, deletes: set<Id>, commitSent: bool)

  datatype Backend = Filesystem | S3

  datatype Outcome =
    | PutOk(id: Id)            // 200 with the row
    | PutRejected(id: Id)      // an audit rejection is written, then the error is returned
    | PutUnavailable(id: Id)   // blob_unavailable, nothing claimed
    | DeleteOk(id: Id)
    | DeleteRefused(id: Id)    // not found, forbidden or failed before the row was deleted
    | DeleteRejected(id: Id, attempt: (Client, TxId), confirmed: bool)  // an audit rejection is written
    | PurgeOk
    | PurgeRejected(attempt: (Client, TxId))  // an audit rejection is written
    | SweepDone

  /** What a client does once its current transaction is over. */
  datatype After =
    | Return(outcome: Outcome)
    | Clean(ids: Option<seq<Id>>, next: After)

  datatype PutAt = ToStage | ToInsert | ToPromote | ToVerify | ToConfirm | ToCommit | PutAwaiting
  datatype DeleteAt = ToRead | ToSendDelete | DeleteAwaiting
  datatype PurgeAt = ToSelect | ToSendPurge | PurgeAwaiting

  /** Program points of the clients. */
  datatype Op =
    | Idle
    | Putting(id: Id, row: Row, bytes: Bytes, tx: TxId, put: PutAt)
    | PutFailed(id: Id)
    | Rechecking(id: Id, tx: TxId)
    | Deleting(id: Id, caller: Option<nat>, tx: TxId, del: DeleteAt)
    | DeleteFailed(id: Id, attempt: TxId)
    | DeleteRechecking(id: Id, attempt: TxId, tx: TxId)
    | Purging(batch: seq<Id>, tx: TxId, purge: PurgeAt)
    | ToClean(only: Option<seq<Id>>, next: After)
    | Sweeping(tx: TxId, refs: seq<Ref>, hold: Option<Ref>, ok: After, failed: After)
    | Closing(tx: TxId, ok: After, failed: After)

  datatype Sys = Sys(
    backend: Backend,
    rows: map<Id, Row>,
    final: map<Id, Bytes>,
    staged: map<Id, Bytes>,
    retained: map<Ref, Stamp>,
    tx: Option<Tx>,
    nextTx: TxId,
    acked: set<(Client, TxId)>,
    used: set<Id>,
    ops: map<Client, Op>,
    gateActive: bool,
    now: int,
    // History
    committed: set<Id>,
    deleted: set<Id>,
    outcomes: set<Outcome>)

  datatype Label =
    // Environment
    | Tick(to: int)
    | Gate(active: bool)
    | ServerAbort
    | ServerCommit
    | Crash
    // putBlob
    | PutBind(id: Id, key: string, bytes: Bytes, owner: nat, expiresAt: int)
    | PutBindFault(id: Id)
    | PutStage
    | PutStageFault(left: Option<Bytes>)
    | PutInsert
    | PutPromote
    | PutPromoteFault(wrote: bool, cleared: bool)
    | PutVerify
    | PutConfirm
    | PutCommit
    | PutAck
    | PutThrow
    | RecheckBind
    | RecheckRead
    | RecheckUnavailable
    // deleteBlob
    | DeleteBind(id: Id, caller: Option<nat>)
    | DeleteRead
    | DeleteCommit
    | DeleteAck
    | DeleteThrow
    | DeleteRecheckBind
    | DeleteRecheckRead
    | DeleteRecheckFault
    // purgePayloads
    | PurgeBind
    | PurgeSelect(ids: seq<Id>)
    | PurgeCommit
    | PurgeAck
    | PurgeThrow
    // sweepBlobs and cleanupBlobs
    | CleanStart
    | CleanBind(listed: seq<Ref>)
    | CleanFault
    | SweepEvidence
    | SweepRemove
    | SweepRemoveFault(gone: bool)
    | SweepStop
    | SweepEnd
    | SweepThrow
    | CloseSend
    | CloseAck
    | CloseThrow

  /** The transaction `t` of client `c` still holds the cursor. */
  predicate Live(s: Sys, c: Client, t: TxId) {
    s.tx.Some? && s.tx.value.owner == c && s.tx.value.id == t
  }

  /** Live, and no commit was requested yet: the only state in which a statement can succeed. */
  predicate Open(s: Sys, c: Client, t: TxId) {
    Live(s, c, t) && !s.tx.value.commitSent
  }

  function OpOf(s: Sys, c: Client): Op {
    if c in s.ops then s.ops[c] else Idle
  }

  /** The listed ids, each with its final and its staged object. */
  function RefsOf(ids: seq<Id>): seq<Ref> {
    if ids == [] then [] else [Ref(ids[0], false), Ref(ids[0], true)] + RefsOf(ids[1..])
  }

  // ---------------------------------------------------------------- effects on database and store

  datatype Effect =
    | Nothing
    | Draw(id: Id)                                     // a fresh id, no transaction
    | Bind(upload: Option<Id>)                         // take the cursor, for a fresh id when uploading
    | Insert(row: Row)
    | DeleteRows(ids: set<Id>)
    | SendCommit
    | WriteStaged(id: Id, bytes: Bytes)
    | WriteFinal(id: Id, bytes: Bytes, cleared: bool)
    | Drop(ref: Ref)

  function Perform(s: Sys, c: Client, e: Effect): Sys {
    match e
    case Nothing => s
    case Draw(id) => s.(used := s.used + {id})
    case Bind(upload) =>
      s.(tx := Some(Tx(s.nextTx, c, upload, None, {}, false)), nextTx := s.nextTx + 1,
         used := if upload.Some? then s.used + {upload.value} else s.used)
    case Insert(row) => if s.tx.Some? then s.(tx := Some(s.tx.value.(insert := Some(row)))) else s
    case DeleteRows(ids) => if s.tx.Some? then s.(tx := Some(s.tx.value.(deletes := ids))) else s
    case SendCommit => if s.tx.Some? then s.(tx := Some(s.tx.value.(commitSent := true))) else s
    case WriteStaged(id, bytes) => s.(staged := s.staged[id := bytes])
    case WriteFinal(id, bytes, cleared) =>
      s.(final := s.final[id := bytes], staged := if cleared then s.staged - {id} else s.staged)
    case Drop(ref) =>
      if ref.staging then s.(staged := s.staged - {ref.id}) else s.(final := s.final - {ref.id})
  }

  /** One step of a client: an effect, then either a new program point or what follows its transaction. */
  datatype Move = Goto(effect: Effect, op: Op) | Leave(effect: Effect, after: After)

  function Moved(s: Sys, c: Client, m: Move): Sys {
    var t := Perform(s, c, m.effect);
    match m
    case Goto(_, op) => t.(ops := t.ops[c := op])
    case Leave(_, Clean(ids, next)) => t.(ops := t.ops[c := ToClean(ids, next)])
    case Leave(_, Return(o)) => t.(ops := t.ops - {c}, outcomes := t.outcomes + {o})
  }

  function When(enabled: bool, m: Move): Option<Move> {
    if enabled then Some(m) else None
  }

  // ---------------------------------------------------------------- putBlob

  function PutMove(s: Sys, c: Client, op: Op, l: Label): Option<Move> {
    if l.PutBind? then
      When(op.Idle? && l.id !in s.used && s.tx.None?,
           Goto(Bind(Some(l.id)),
                Putting(l.id, Row(l.key, StampOf(l.bytes), l.owner, l.expiresAt), l.bytes, s.nextTx, ToStage)))
    else if l.PutBindFault? then
      When(op.Idle? && l.id !in s.used, Goto(Draw(l.id), PutFailed(l.id)))
    else if !op.Putting? then None
    else if l.PutStage? || l.PutStageFault? || l.PutPromote? || l.PutPromoteFault? then UploadMove(s, c, op, l)
    else PuttingMove(s, c, op, l)
  }

  /** The writes to the store; they go on even when the server has already aborted the transaction. */
  function UploadMove(s: Sys, c: Client, op: Op, l: Label): Option<Move>
    requires op.Putting?
  {
    match l
    case PutStage =>
      When(op.put == ToStage && (s.backend.Filesystem? ==> op.id !in s.staged),
           Goto(WriteStaged(op.id, op.bytes), op.(put := ToInsert)))
    case PutStageFault(left) =>
      When(op.put == ToStage,
           Goto(if left.Some? then WriteStaged(op.id, left.value) else Nothing, PutFailed(op.id)))
    case PutPromote =>
      if op.put != ToPromote then None
      else if s.backend.S3? then Some(Goto(WriteFinal(op.id, op.bytes, true), op.(put := ToVerify)))
      else if op.id !in s.staged || op.id in s.final then None
      else Some(Goto(WriteFinal(op.id, s.staged[op.id], true), op.(put := ToVerify)))
    case PutPromoteFault(wrote, cleared) =>
      // A rename is one step; S3 writes the final object before it deletes the staged one.
      if op.put != ToPromote then None
      else if !wrote then Some(Goto(Nothing, PutFailed(op.id)))
      else if s.backend.S3? then Some(Goto(WriteFinal(op.id, op.bytes, cleared), PutFailed(op.id)))
      else if op.id !in s.staged || op.id in s.final then None
      else Some(Goto(WriteFinal(op.id, s.staged[op.id], true), PutFailed(op.id)))
    case _ => None
  }

  function PuttingMove(s: Sys, c: Client, op: Op, l: Label): Option<Move>
    requires op.Putting?
  {
    match l
    case PutInsert =>
      When(op.put == ToInsert && Open(s, c, op.tx) && KeyFree(s, op.row.key),
           Goto(Insert(op.row), op.(put := ToPromote)))
    case PutVerify =>
      When(op.put == ToVerify && op.id in s.final && StampOf(s.final[op.id]) == StampOf(op.bytes),
           Goto(Nothing, op.(put := ToConfirm)))
    case PutConfirm =>
      When(op.put == ToConfirm && Open(s, c, op.tx), Goto(Nothing, op.(put := ToCommit)))
    case PutCommit =>
      When(op.put == ToCommit && Open(s, c, op.tx), Goto(SendCommit, op.(put := PutAwaiting)))
    case PutAck =>
      When(op.put == PutAwaiting && (c, op.tx) in s.acked, Leave(Nothing, Clean(None, Return(PutOk(op.id)))))
    case PutThrow => Some(Goto(Nothing, PutFailed(op.id)))
    case _ => None
  }

  predicate KeyFree(s: Sys, key: string) {
    forall i :: i in s.rows ==> s.rows[i].key != key
  }

  /** The catch path of putBlob: one more bound transaction looks for the row. */
  function RecheckMove(s: Sys, c: Client, op: Op, l: Label): Option<Move> {
    match l
    case RecheckBind =>
      if op.PutFailed? then When(s.tx.None?, Goto(Bind(None), Rechecking(op.id, s.nextTx))) else None
    case RecheckUnavailable =>
      if op.PutFailed? || op.Rechecking? then Some(Leave(Nothing, Return(PutUnavailable(op.id)))) else None
    case RecheckRead =>
      if !op.Rechecking? || !Open(s, c, op.tx) then None
      else if op.id in s.rows then
        Some(Goto(Nothing, Closing(op.tx, Return(PutOk(op.id)), Return(PutUnavailable(op.id)))))
      else
        Some(Goto(Nothing, Sweeping(op.tx, if s.gateActive then [] else RefsOf([op.id]), None,
                                    Return(PutRejected(op.id)), Return(PutUnavailable(op.id)))))
    case _ => None
  }

  // ---------------------------------------------------------------- deleteBlob

  /** `caller` is the Principal that asks, or None for a User of the Workspace, who may delete any blob. */
  function DeleteMove(s: Sys, c: Client, op: Op, l: Label): Option<Move> {
    if l.DeleteBind? then
      When(op.Idle? && s.tx.None?, Goto(Bind(None), Deleting(l.id, l.caller, s.nextTx, ToRead)))
    else if op.Deleting? then DeletingMove(s, c, op, l)
    else if op.DeleteFailed? || op.DeleteRechecking? then DeleteRecheckMove(s, c, op, l)
    else None
  }

  function DeletingMove(s: Sys, c: Client, op: Op, l: Label): Option<Move>
    requires op.Deleting?
  {
    match l
    case DeleteRead =>
      if op.del != ToRead || !Open(s, c, op.tx) then None
      else if op.id !in s.rows || (op.caller.Some? && s.rows[op.id].owner != op.caller.value) then
        Some(Goto(Nothing, Closing(op.tx, Return(DeleteRefused(op.id)), Return(DeleteRefused(op.id)))))
      else Some(Goto(DeleteRows({op.id}), op.(del := ToSendDelete)))
    case DeleteCommit =>
      When(op.del == ToSendDelete && Open(s, c, op.tx), Goto(SendCommit, op.(del := DeleteAwaiting)))
    case DeleteAck =>
      When(op.del == DeleteAwaiting && (c, op.tx) in s.acked,
           Leave(Nothing, Clean(Some([op.id]), Return(DeleteOk(op.id)))))
    case DeleteThrow =>
      // Only a transaction that was ready to commit is worth a recheck.
      if op.del == ToRead then Some(Leave(Nothing, Return(DeleteRefused(op.id))))
      else Some(Goto(Nothing, DeleteFailed(op.id, op.tx)))
    case _ => None
  }

  function DeleteRecheckMove(s: Sys, c: Client, op: Op, l: Label): Option<Move>
    requires op.DeleteFailed? || op.DeleteRechecking?
  {
    var unknown := Return(DeleteRejected(op.id, (c, op.attempt), false));
    match l
    case DeleteRecheckBind =>
      When(op.DeleteFailed? && s.tx.None?, Goto(Bind(None), DeleteRechecking(op.id, op.attempt, s.nextTx)))
    case DeleteRecheckFault => Some(Leave(Nothing, unknown))
    case DeleteRecheckRead =>
      if op.DeleteFailed? || !Open(s, c, op.tx) then None
      else if op.id in s.rows then
        var kept := Return(DeleteRejected(op.id, (c, op.attempt), true));
        Some(Goto(Nothing, Closing(op.tx, kept, kept)))
      else Some(Goto(Nothing, Closing(op.tx, Clean(Some([op.id]), Return(DeleteOk(op.id))), unknown)))
    case _ => None
  }

  // ---------------------------------------------------------------- purgePayloads

  function PurgeMove(s: Sys, c: Client, op: Op, l: Label): Option<Move> {
    if l.PurgeBind? then
      When(op.Idle? && s.tx.None?, Goto(Bind(None), Purging([], s.nextTx, ToSelect)))
    else if !op.Purging? then None
    else
      match l
      case PurgeSelect(ids) =>
        When(op.purge == ToSelect && Open(s, c, op.tx)
             && (forall i :: i in ids ==> i in s.rows && s.rows[i].expiresAt <= s.now),
             Goto(DeleteRows(set i | i in ids), Purging(ids, op.tx, ToSendPurge)))
      case PurgeCommit =>
        When(op.purge == ToSendPurge && Open(s, c, op.tx), Goto(SendCommit, op.(purge := PurgeAwaiting)))
      case PurgeAck =>
        When(op.purge == PurgeAwaiting && (c, op.tx) in s.acked,
             Leave(Nothing, Clean(Some(op.batch), Clean(None, Return(PurgeOk)))))
      case PurgeThrow => Some(Leave(Nothing, Return(PurgeRejected((c, op.tx)))))
      case _ => None
  }

  // ---------------------------------------------------------------- sweepBlobs, cleanupBlobs

  function SweepMove(s: Sys, c: Client, op: Op, l: Label): Option<Move> {
    if l.CleanStart? then When(op.Idle?, Goto(Nothing, ToClean(None, Return(SweepDone))))
    else if op.ToClean? then CleanMove(s, c, op, l)
    else if op.Sweeping? then SweepingMove(s, c, op, l)
    else None
  }

  function CleanMove(s: Sys, c: Client, op: Op, l: Label): Option<Move>
    requires op.ToClean?
  {
    match l
    case CleanBind(listed) =>
      // A listing may be stale or partial; only the evidence query decides.
      var refs := if s.gateActive then [] else if op.only.Some? then RefsOf(op.only.value) else listed;
      When(s.tx.None? && (forall r :: r in listed ==> r.id in s.used),
           Goto(Bind(None), Sweeping(s.nextTx, refs, None, op.next, op.next)))
    case CleanFault => Some(Leave(Nothing, op.next))
    case _ => None
  }

  function SweepingMove(s: Sys, c: Client, op: Op, l: Label): Option<Move>
    requires op.Sweeping?
  {
    match l
    case SweepEvidence =>
      if op.hold.Some? || op.refs == [] || !Open(s, c, op.tx) then None else
      var ref := op.refs[0];
      var keep := (!ref.staging && ref.id in s.rows) || ref in s.retained;
      Some(Goto(Nothing, op.(refs := op.refs[1..], hold := if keep then None else Some(ref))))
    case SweepRemove =>
      if op.hold.None? then None else Some(Goto(Drop(op.hold.value), op.(hold := None)))
    case SweepRemoveFault(gone) =>
      if op.hold.None? then None else Some(Goto(if gone then Drop(op.hold.value) else Nothing, op.(hold := None)))
    case SweepStop =>
      // The deadline, and an evidence query that failed, both leave objects for a later sweep.
      if op.hold.Some? || op.refs == [] then None else Some(Goto(Nothing, op.(refs := op.refs[1..])))
    case SweepEnd => When(op.hold.None? && op.refs == [], Goto(Nothing, Closing(op.tx, op.ok, op.failed)))
    case SweepThrow => When(op.hold.None?, Leave(Nothing, op.failed))
    case _ => None
  }

  /** The end of a transaction that changed no row. */
  function CloseMove(s: Sys, c: Client, op: Op, l: Label): Option<Move> {
    if !op.Closing? then None else
    match l
    case CloseSend => When(Open(s, c, op.tx), Goto(SendCommit, op))
    case CloseAck => When((c, op.tx) in s.acked, Leave(Nothing, op.ok))
    case CloseThrow => Some(Leave(Nothing, op.failed))
    case _ => None
  }

  // ---------------------------------------------------------------- the machine

  predicate IsRecheck(l: Label) {
    l.RecheckBind? || l.RecheckRead? || l.RecheckUnavailable?
  }

  predicate IsDelete(l: Label) {
    || l.DeleteBind? || l.DeleteRead? || l.DeleteCommit? || l.DeleteAck? || l.DeleteThrow?
    || l.DeleteRecheckBind? || l.DeleteRecheckRead? || l.DeleteRecheckFault?
  }

  predicate IsPurge(l: Label) {
    l.PurgeBind? || l.PurgeSelect? || l.PurgeCommit? || l.PurgeAck? || l.PurgeThrow?
  }

  predicate IsSweep(l: Label) {
    || l.CleanStart? || l.CleanBind? || l.CleanFault? || l.SweepEvidence? || l.SweepRemove? || l.SweepRemoveFault?
    || l.SweepStop? || l.SweepEnd? || l.SweepThrow?
  }

  predicate IsClose(l: Label) {
    l.CloseSend? || l.CloseAck? || l.CloseThrow?
  }

  function ClientMove(s: Sys, c: Client, l: Label): Option<Move> {
    var op := OpOf(s, c);
    if IsRecheck(l) then RecheckMove(s, c, op, l)
    else if IsDelete(l) then DeleteMove(s, c, op, l)
    else if IsPurge(l) then PurgeMove(s, c, op, l)
    else if IsSweep(l) then SweepMove(s, c, op, l)
    else if IsClose(l) then CloseMove(s, c, op, l)
    else PutMove(s, c, op, l)
  }

  predicate IsEnvironment(l: Label) {
    l.Tick? || l.Gate? || l.ServerAbort? || l.ServerCommit? || l.Crash?
  }

  function Environment(s: Sys, c: Client, l: Label): Option<Sys> {
    match l
    case Tick(to) => if s.now <= to then Some(s.(now := to)) else None
    case Gate(active) => Some(s.(gateActive := active))
    case ServerAbort => if s.tx.Some? then Some(s.(tx := None)) else None
    case ServerCommit => if s.tx.Some? && s.tx.value.commitSent then Some(Committed(s)) else None
    case Crash => Some(s.(ops := s.ops - {c}))
    case _ => None
  }

  function Committed(s: Sys): Sys
    requires s.tx.Some?
  {
    var t := s.tx.value;
    var kept := s.rows - t.deletes;
    var inserts := t.insert.Some? && t.upload.Some?;
    s.(rows := if inserts then kept[t.upload.value := t.insert.value] else kept,
       tx := None,
       acked := s.acked + {(t.owner, t.id)},
       committed := if inserts then s.committed + {t.upload.value} else s.committed,
       deleted := s.deleted + t.deletes)
  }

  function Step(s: Sys, c: Client, l: Label): Option<Sys> {
    if IsEnvironment(l) then Environment(s, c, l) else
    match ClientMove(s, c, l)
    case None => None
    case Some(m) => Some(Moved(s, c, m))
  }

  /** Nothing is running: rows match their objects, and every id seen anywhere counts as used. */
  ghost predicate Init(s: Sys) {
    && s.tx.None? && s.ops == map[] && s.outcomes == {} && s.acked == {}
    && s.committed == s.rows.Keys && s.deleted == {}
    && s.rows.Keys <= s.used && s.final.Keys <= s.used && s.staged.Keys <= s.used
    && (forall id :: id in s.rows ==> id in s.final && StampOf(s.final[id]) == s.rows[id].stamp)
    && (forall r :: r in s.retained ==> Stored(s, r).Some? && StampOf(Stored(s, r).value) == s.retained[r])
    && (forall i, j :: i in s.rows && j in s.rows && s.rows[i].key == s.rows[j].key ==> i == j)
  }

  function Stored(s: Sys, r: Ref): Option<Bytes> {
    if r.staging then (if r.id in s.staged then Some(s.staged[r.id]) else None)
    else if r.id in s.final then Some(s.final[r.id]) else None
  }

  /** A run: one state more than steps, each step enabled where it is taken. */
  ghost predicate IsRun(ss: seq<Sys>, cs: seq<Client>, ls: seq<Label>) {
    && |ss| == |ls| + 1 && |cs| == |ls|
    && Init(ss[0])
    && forall i :: 0 <= i < |ls| ==> StepAt(ss, cs, ls, i)
  }

  ghost predicate StepAt(ss: seq<Sys>, cs: seq<Client>, ls: seq<Label>, i: nat)
    requires i < |ls| && |ss| == |ls| + 1 && |cs| == |ls|
  {
    Step(ss[i], cs[i], ls[i]) == Some(ss[i + 1])
  }
}

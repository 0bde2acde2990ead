/**
One Audit stream (apps/server/events/stream-audit.ts): a back-pressured cursor over the log that may be re-entered
whenever it enqueues a frame. Every method runs to completion between two awaits; what happens to the log in between
is only that it grows, and Run puts the turns together in any order.
*/
module AuditStream {
  import opened Wrappers
  import opened AuditLog

  const HEARTBEAT_BYTES: nat := 27
  const HEARTBEAT_MS: int := 15000

  /** What the controller is given. */
  datatype Chunk = ReadyFrame(bytes: nat) | AuditFrame(event: Event) | HeartbeatFrame | ErrorFrame(error: StreamError, bytes: nat)

  function Size(c: Chunk): nat {
    match c
    case ReadyFrame(n) => n
    case AuditFrame(e) => |e.frame|
    case HeartbeatFrame => HEARTBEAT_BYTES
    case ErrorFrame(_, n) => n
  }

  function Sizes(cs: seq<Chunk>): nat {
    if cs == [] then 0 else Size(cs[0]) + Sizes(cs[1..])
  }

  lemma {:induction false} SizesSnoc(cs: seq<Chunk>, c: Chunk)
    ensures Sizes(cs + [c]) == Sizes(cs) + Size(c)
  {
    if cs != [] {
      assert (cs + [c])[1..] == cs[1..] + [c];
      SizesSnoc(cs[1..], c);
    }
  }

  function Audits(c: Chunk): nat {
    if c.AuditFrame? then 1 else 0
  }

  /** The Audit Events among some chunks, in order. */
  function EventsIn(cs: seq<Chunk>): seq<Event> {
    if cs == [] then [] else (if cs[0].AuditFrame? then [cs[0].event] else []) + EventsIn(cs[1..])
  }

  lemma {:induction false} EventsInSnoc(cs: seq<Chunk>, c: Chunk)
    ensures EventsIn(cs + [c]) == EventsIn(cs) + (if c.AuditFrame? then [c.event] else [])
  {
    if cs != [] {
      assert (cs + [c])[1..] == cs[1..] + [c];
      EventsInSnoc(cs[1..], c);
    }
  }

  /** The reader got the first `received` events of the plan; the queue holds the enqueued ones after them. */
  ghost predicate QueueHolds(queue: seq<Chunk>, plan: seq<Event>, received: nat, sent: nat) {
    received <= sent <= |plan| && EventsIn(queue) == plan[received..sent]
  }

  lemma QueueGrows(queue: seq<Chunk>, plan: seq<Event>, received: nat, sent: nat, c: Chunk)
    requires QueueHolds(queue, plan, received, sent) && (c.AuditFrame? ==> sent < |plan| && c.event == plan[sent])
    ensures QueueHolds(queue + [c], plan, received, sent + Audits(c))
    ensures queue == [] ==> QueueHolds(queue, plan, received + Audits(c), sent + Audits(c))
  {
    EventsInSnoc(queue, c);
  }

  lemma QueueShrinks(queue: seq<Chunk>, plan: seq<Event>, received: nat, sent: nat)
    requires QueueHolds(queue, plan, received, sent) && queue != []
    ensures queue[0].AuditFrame? ==> received < sent && queue[0].event == plan[received]
    ensures QueueHolds(queue[1..], plan, received + Audits(queue[0]), sent)
  {
    if queue[0].AuditFrame? {
      assert EventsIn(queue)[0] == queue[0].event;
      assert EventsIn(queue)[1..] == EventsIn(queue[1..]);
    }
  }

  lemma QueueReplanned(queue: seq<Chunk>, plan: seq<Event>, received: nat, sent: nat, fetched: seq<Event>)
    requires QueueHolds(queue, plan, received, sent)
    ensures QueueHolds(queue, plan[..sent] + fetched, received, sent)
  {
  }

  /** The position of the last event of a history that starts after `initial`. */
  function Last(initial: nat, history: seq<Event>): nat {
    if history == [] then initial else history[|history| - 1].position
  }

  /** A history that is a prefix of the newer events is exactly the interval up to its last position. */
  lemma {:induction false} PrefixIsInterval(es: seq<Event>, initial: nat, history: seq<Event>)
    requires Ascending(es) && history <= Newer(es, initial)
    ensures initial <= Last(initial, history)
    ensures history == Between(es, initial, Last(initial, history))
    ensures Newer(es, Last(initial, history)) == Newer(es, initial)[|history|..]
  {
    var k := Index(es, initial);
    if history == [] {
    } else {
      var last := history[|history| - 1];
      assert last == es[k + |history| - 1];
      IndexUnique(es, last.position, k + |history|);
    }
  }

  lemma SentPart(log: Log, initial: nat, plan: seq<Event>, sent: nat)
    requires ValidLog(log) && initial <= log.head && plan <= Newer(log.events, initial) && sent <= |plan|
    ensures initial <= Last(initial, plan[..sent]) <= log.head
    ensures plan[..sent] == Between(log.events, initial, Last(initial, plan[..sent]))
  {
    PrefixIsInterval(log.events, initial, plan[..sent]);
    if sent != 0 { assert plan[..sent][sent - 1] in log.events; }
  }

  lemma SnapshotExtends(es: seq<Event>, initial: nat, history: seq<Event>, batch: seq<Event>)
    requires Ascending(es) && history <= Newer(es, initial) && batch <= Newer(es, Last(initial, history))
    ensures history + batch <= Newer(es, initial)
  {
    PrefixIsInterval(es, initial, history);
  }

  /** A snapshot of the grown log, taken at the end of the history, continues the history. */
  lemma SnapshotContinues(before: Log, current: Log, workspace: string, denied: bool, initial: nat, history: seq<Event>)
    requires ValidLog(before) && ValidLog(current) && Extends(before, current) && initial <= before.head
    requires history <= Newer(before.events, initial)
    requires AuditSnapshot(current, workspace, denied, Cursor(Last(initial, history), Some(current.generation), None), true).Ok?
    ensures var c := Cursor(Last(initial, history), Some(current.generation), None);
      var batch := AuditSnapshot(current, workspace, denied, c, true).value;
      history + batch <= Newer(current.events, initial) && Total(batch) <= STREAM_BYTES
  {
    var c := Cursor(Last(initial, history), Some(current.generation), None);
    ExtensionKeeps(before, current, initial, initial);
    SnapshotIsNext(current, workspace, denied, c);
    SnapshotExtends(current.events, initial, history, AuditSnapshot(current, workspace, denied, c, true).value);
  }

  /** What a flush may do to the queue: nothing is reordered, and what is added are Audit frames. */
  ghost predicate Appended(before: seq<Chunk>, now: seq<Chunk>) {
    before <= now && forall i :: |before| <= i < |now| ==> now[i].AuditFrame?
  }

  lemma AppendedNothing(queue: seq<Chunk>)
    ensures Appended(queue, queue)
  {
  }

  lemma PendingFits(batch: seq<Event>, offset: nat)
    requires offset < |batch|
    ensures |batch[offset].frame| <= Total(RestOf(batch, offset))
  {
  }

  datatype StreamView = StreamView(
    initial: nat, after: nat, batch: seq<Event>, offset: nat,
    queue: seq<Chunk>, queued: nat, waiting: nat, plan: seq<Event>, closed: bool, awaiting: bool)

  ghost function RestOf(batch: seq<Event>, offset: nat): seq<Event> {
    if offset <= |batch| then batch[offset..] else []
  }

  /** The invariant of the buffers, once the first `sent` events of the plan have been enqueued. */
  ghost predicate ViewSound(v: StreamView, sent: nat) {
    && sent <= |v.plan|
    && v.after == (if sent == 0 then v.initial else v.plan[sent - 1].position)
    && (!v.closed ==> v.offset <= |v.batch| && v.batch[v.offset..] == v.plan[sent..])
    && (v.closed ==> v.batch == [])
    && v.queued == Sizes(v.queue) <= STREAM_BYTES
    && v.waiting == Total(RestOf(v.batch, v.offset)) <= STREAM_BYTES
    && (v.batch == [] && !v.closed ==> v.offset == 0)
    && (v.awaiting ==> !v.closed && v.batch == [] && v.queued == 0)
  }

  /**
   * What can happen to a stream in one turn of the event loop. A snapshot comes with the log its query saw, if the
   * query got through; an access recheck may have been asked about any cursor.
   */
  datatype Action =
    | Pulling(takes: seq<bool>)
    | Reading(takes: seq<bool>)
    | DataTicking(takes: seq<bool>)
    | DataArriving(started: int, reached: bool, current: Log, denied: bool, takes: seq<bool>)
    | AccessTicking
    | AccessArriving(asked: Cursor, reached: bool, current: Log, denied: bool)
    | Aborting
    | Cancelling

  datatype Turn = Turn(action: Action, now: int, errorBytes: nat)

  /** The logs that data queries of this generation see only grow from one to the next. */
  ghost predicate LogsGrow(generation: string, last: Log, turns: seq<Turn>)
    decreases turns
  {
    turns == [] || (LogArrives(generation, last, turns[0].action) && LogsGrow(generation, LogAfter(generation, last, turns[0].action), turns[1..]))
  }

  ghost predicate LogArrives(generation: string, last: Log, a: Action) {
    a.DataArriving? ==> ValidLog(a.current) && (a.current.generation == generation ==> Extends(last, a.current))
  }

  function LogAfter(generation: string, last: Log, a: Action): Log {
    if a.DataArriving? && a.current.generation == generation then a.current else last
  }

  /** Whichever of the logs a stream has taken over, the next one extends it. */
  lemma NextLog(generation: string, seen: Log, last: Log, turns: seq<Turn>)
    requires turns != [] && LogsGrow(generation, last, turns) && Extends(seen, last)
    ensures LogArrives(generation, seen, turns[0].action)
    ensures var next := LogAfter(generation, last, turns[0].action);
      && LogsGrow(generation, next, turns[1..]) && Extends(seen, next)
      && Extends(LogAfter(generation, seen, turns[0].action), next)
      && Extends(seen, LogAfter(generation, seen, turns[0].action))
  {
    hide ValidLog, Extends;
    var next := LogAfter(generation, last, turns[0].action);
    ExtendsItself(seen);
    ExtendsItself(next);
    if next != last { ExtendsOn(seen, last, next); }
  }

  class Stream {
    const workspace: string
    const generation: string
    const slowConsumerMs: int
    var after: nat
    var batch: seq<Event>      // frames and positions
    var offset: nat
    var closed: bool
    var dataBusy: bool
    var accessBusy: bool
    var flushing: bool
    var lastProgress: int
    var lastHeartbeat: int
    var queue: seq<Chunk>      // enqueued and not yet read
    var queued: nat            // its total size
    ghost var waiting: nat     // total size of the pending frames
    ghost var awaiting: bool   // a data tick is waiting for its snapshot
    ghost var log: Log         // the log as last seen by anyone
    ghost var initial: nat
    ghost var plan: seq<Event> // every Audit frame enqueued so far, and the pending ones after them
    ghost var sent: nat        // how many of them were enqueued
    ghost var received: nat    // how many of them the consumer has read

    function Desired(): int
      reads this`queued
    {
      STREAM_BYTES - queued
    }

    /** Every Audit frame ever enqueued. */
    ghost function Sent(): seq<Event>
      reads `plan, `sent
    {
      if sent <= |plan| then plan[..sent] else []
    }

    ghost function View(): StreamView
      reads `initial, `after, `batch, `offset, `queue, `queued, `waiting, `plan, `closed, `awaiting
    {
      StreamView(initial, after, batch, offset, queue, queued, waiting, plan, closed, awaiting)
    }

    ghost predicate Sound(count: nat)
      reads `initial, `after, `batch, `offset, `queue, `queued, `waiting, `plan, `closed, `awaiting
    {
      ViewSound(View(), count)
    }

    ghost predicate Queued()
      reads `queue, `plan, `received, `sent
    {
      QueueHolds(queue, plan, received, sent)
    }

    ghost predicate Valid()
      reads `sent, `received, `initial, `after, `batch, `offset, `queue, `queued, `waiting, `plan, `closed, `awaiting
    {
      Sound(sent) && Queued()
    }

    /** Every Audit frame the consumer has read. */
    ghost function Received(): seq<Event>
      reads `plan, `received
    {
      if received <= |plan| then plan[..received] else []
    }

    /** What was and will be sent comes from the log, in order and without a gap. */
    ghost predicate Exact()
      reads `log, `initial, `plan
    {
      ValidLog(log) && log.generation == generation && initial <= log.head && plan <= Newer(log.events, initial)
    }

    /** Nothing is pending, or the next pending frame does not fit. */
    predicate Stalled()
      reads `batch, `offset, `queued
    {
      batch == [] || (offset < |batch| && Desired() < |batch[offset].frame|)
    }

    /** The state between two turns of the event loop, kept by everything that can happen to the stream. */
    ghost predicate AtRest()
      reads `sent, `received, `initial, `after, `batch, `offset, `queue, `queued, `waiting, `plan, `closed, `awaiting,
        `log, `flushing, `dataBusy
    {
      Valid() && Exact() && !flushing && (awaiting <==> dataBusy && !closed)
    }

    /** start(): the ready frame, then whatever the opening snapshot held. */
    constructor (workspace: string, log: Log, c: Cursor, ready: nat, slowConsumerMs: int, now: int)
      requires ValidLog(log) && AuditSnapshot(log, workspace, false, c, true).Ok?
      requires ready <= STREAM_BYTES
      ensures AtRest() && !closed && !dataBusy && !accessBusy
      ensures initial == c.after && after == c.after && Sent() == [] && this.log == log
      ensures queue == [ReadyFrame(ready)] && this.workspace == workspace && this.generation == log.generation
      ensures batch == AuditSnapshot(log, workspace, false, c, true).value && offset == 0 && !flushing && !awaiting
      ensures this.slowConsumerMs == slowConsumerMs && lastProgress == lastHeartbeat == now
    {
      SnapshotIsNext(log, workspace, false, c);
      this.workspace, this.generation, this.slowConsumerMs := workspace, log.generation, slowConsumerMs;
      after, initial := c.after, c.after;
      batch, offset := AuditSnapshot(log, workspace, false, c, true).value, 0;
      closed, dataBusy, accessBusy, flushing, awaiting := false, false, false, false, false;
      lastProgress, lastHeartbeat := now, now;
      queue, queued := [ReadyFrame(ready)], ready;
      this.log := log;
      sent, received, plan := 0, 0, AuditSnapshot(log, workspace, false, c, true).value;
      waiting := Total(AuditSnapshot(log, workspace, false, c, true).value);
    }

    /**
     * For every schedule: the Audit frames enqueued so far are exactly the events of the log in
     * (initial cursor, current cursor], in order.
     */
    lemma SentIsInterval()
      requires Valid() && Exact()
      ensures initial <= after <= log.head
      ensures Sent() == Between(log.events, initial, after)
    {
      hide ValidLog, Newer, Between, Total, Sizes;
      SentPart(log, initial, plan, sent);
    }

    /** The next event of the plan, or a frame that is not an Audit frame. */
    ghost predicate Planned(c: Chunk)
      reads `plan, `sent
    {
      c.AuditFrame? ==> sent < |plan| && c.event == plan[sent]
    }

    /** The consumer has read a prefix of them, which is such an interval too. */
    lemma ReceivedIsInterval()
      requires Valid() && Exact()
      ensures Received() <= Sent() && Received() <= Newer(log.events, initial)
      ensures Received() == Between(log.events, initial, Last(initial, Received()))
    {
      hide ValidLog, Newer, Between, Total, Sizes, EventsIn;
      SentPart(log, initial, plan, received);
    }

    method Accept(c: Chunk, taken: bool)
      requires Sound(sent + Audits(c)) && Queued() && Planned(c) && !closed && Size(c) <= Desired() && !awaiting
      modifies `sent, `received, `queue, `queued
      ensures Valid() && sent == old(sent) + Audits(c)
      ensures old(queued) <= queued <= old(queued) + Size(c)
      ensures queue == if taken && old(queue) == [] then [] else old(queue) + [c]
    {
      hide EventsIn, QueueHolds, Sizes, Total, RestOf;
      QueueGrows(queue, plan, received, sent, c);
      SizesSnoc(queue, c);
      sent := sent + Audits(c);
      if taken && queue == [] {
        received := received + Audits(c);
      } else {
        queue, queued := queue + [c], queued + Size(c);
      }
    }

    /** controller.enqueue: a waiting reader takes the chunk at once, otherwise it is queued; then pull is called. */
    method Enqueue(c: Chunk, taken: bool, now: int)
      requires Sound(sent + Audits(c)) && Queued() && Planned(c) && !closed && Size(c) <= Desired() && !awaiting
      modifies `after, `batch, `offset, `flushing, `queue, `queued, `waiting, `sent, `received, `lastProgress
      ensures Valid() && flushing == old(flushing) && old(sent) <= sent && (old(batch == []) ==> batch == [])
      ensures old(flushing || Stalled()) ==> unchanged(`after, `batch, `offset) && sent == old(sent) + Audits(c)
      ensures old(flushing || Stalled()) ==> queue == if taken && old(queue) == [] then [] else old(queue) + [c]
      ensures !taken ==> Appended(old(queue) + [c], queue)
      ensures lastProgress == if sent == old(sent) + Audits(c) then old(lastProgress) else now
      ensures queued + waiting <= old(queued + waiting) + Size(c)
      decreases if flushing then 2 else 6
    {
      hide ViewSound, QueueHolds, Sizes, EventsIn, Appended;
      Accept(c, taken);
      assert old(Stalled()) ==> Stalled();
      Pull([], now);
    }

    /** The stream asks for more. */
    method Pull(takes: seq<bool>, now: int)
      requires Valid()
      modifies `after, `batch, `offset, `flushing, `queue, `queued, `waiting, `sent, `received, `lastProgress
      ensures Valid() && flushing == old(flushing) && old(sent) <= sent && (old(batch == []) ==> batch == [])
      ensures lastProgress == if sent == old(sent) then old(lastProgress) else now
      ensures old(flushing || closed || Stalled()) ==> unchanged(`after, `batch, `offset, `queue, `queued, `waiting, `sent, `received)
      ensures Appended(old(queue), queue)
      ensures queued + waiting <= old(queued + waiting)
      decreases if flushing then 1 else 5
    {
      if !closed { Flush(takes, now); }
    }

    /** The cursor moves onto the next pending frame. */
    method Advance(now: int)
      requires Valid() && !closed && flushing && offset < |batch|
      modifies `after, `offset, `waiting, `lastProgress
      ensures Sound(sent + 1) && Queued() && Planned(AuditFrame(old(batch[offset]))) && offset == old(offset) + 1
      ensures waiting == old(waiting) - |batch[old(offset)].frame| && after == batch[old(offset)].position && lastProgress == now
    {
      var event := batch[offset];
      assert batch[offset..][0] == event && batch[offset..][1..] == batch[offset + 1..];
      after, lastProgress := event.position, now;
      offset, waiting := offset + 1, waiting - |event.frame|;
    }

    /** One pending frame that fits: the cursor is on it before it is enqueued, and the pull in between changes nothing. */
    method SendNext(taken: bool, now: int)
      requires Valid() && !closed && flushing && offset < |batch| && |batch[offset].frame| <= Desired()
      modifies `after, `batch, `offset, `flushing, `queue, `queued, `waiting, `sent, `received, `lastProgress
      ensures Valid() && flushing && batch == old(batch) && offset == old(offset) + 1
      ensures after == old(batch[offset].position) && sent == old(sent) + 1 && lastProgress == now
      ensures queue == if taken && old(queue) == [] then [] else old(queue) + [AuditFrame(old(batch[offset]))]
      ensures queued + waiting <= old(queued + waiting)
      decreases 3, 0
    {
      var event := batch[offset];
      Advance(now);
      Enqueue(AuditFrame(event), taken, now);
    }

    method SendFitting(takes: seq<bool>, now: int)
      requires Valid() && !closed && flushing
      modifies `after, `batch, `offset, `flushing, `queue, `queued, `waiting, `sent, `received, `lastProgress
      ensures Valid() && flushing && old(sent) <= sent && batch == old(batch) && old(offset) <= offset
      ensures offset == |batch| || Stalled()
      ensures lastProgress == if sent == old(sent) then old(lastProgress) else now
      ensures old(offset == |batch| || Stalled()) ==> unchanged(`after, `batch, `offset, `queue, `queued, `waiting, `sent, `received)
      ensures Appended(old(queue), queue)
      ensures queued + waiting <= old(queued + waiting)
      decreases 3, 1
    {
      var n := 0;
      while offset < |batch| && |batch[offset].frame| <= Desired()
        invariant Valid() && flushing && old(sent) <= sent && batch == old(batch) && old(offset) <= offset <= |batch|
        invariant queued + waiting <= old(queued + waiting)
        invariant old(offset == |batch| || Stalled()) ==> unchanged(`after, `batch, `offset, `queue, `queued, `waiting, `sent, `received)
        invariant Appended(old(queue), queue)
        invariant lastProgress == if sent == old(sent) then old(lastProgress) else now
        decreases |batch| - offset
      {
        SendNext(n < |takes| && takes[n], now);
        n := n + 1;
      }
    }

    /** Send pending frames while they fit; a flush inside a flush does nothing. */
    method Flush(takes: seq<bool>, now: int)
      requires Valid() && !closed
      modifies `after, `batch, `offset, `flushing, `queue, `queued, `waiting, `sent, `received, `lastProgress
      ensures Valid() && flushing == old(flushing) && old(sent) <= sent && (old(batch == []) ==> batch == [])
      ensures old(flushing || Stalled()) ==> unchanged(`after, `batch, `offset, `queue, `queued, `waiting, `sent, `received)
      ensures lastProgress == if sent == old(sent) then old(lastProgress) else now
      ensures !old(flushing) ==> Stalled()
      ensures Appended(old(queue), queue)
      ensures queued + waiting <= old(queued + waiting)
      decreases if flushing then 0 else 4
    {
      hide *;
      EmptyIsSent();
      AppendedNothing(queue);
      if !flushing {
        flushing := true;
        SendFitting(takes, now);
        EndFlush();
      }
    }

    lemma EmptyIsSent()
      requires Valid() && !closed
      ensures batch == [] ==> Stalled()
      ensures Stalled() && offset == |batch| ==> batch == [] && offset == 0
    {
    }

    /** A batch that went out whole makes room for the next one. */
    method EndFlush()
      requires Valid() && flushing && !closed && (offset == |batch| || Stalled())
      modifies `batch, `offset, `flushing
      ensures Valid() && !flushing && Stalled()
      ensures if old(offset == |batch|) then batch == [] && offset == 0 else batch == old(batch) && offset == old(offset)
    {
      if offset == |batch| { batch, offset := [], 0; }
      flushing := false;
    }

    /** The consumer takes the oldest chunk, and the stream pulls. */
    method Read(takes: seq<bool>, now: int) returns (c: Chunk)
      requires Valid() && !flushing && queue != []
      modifies `after, `batch, `offset, `flushing, `queue, `queued, `waiting, `sent, `received, `lastProgress
      ensures Valid() && !flushing && c == old(queue[0])
      ensures c.AuditFrame? ==> old(received) < |plan| && c.event == plan[old(received)]
      ensures old(sent) <= sent
      ensures Appended(old(queue[1..]), queue)
      ensures old(closed) ==> queue == old(queue[1..]) && Sent() == old(Sent()) && received == old(received) + Audits(c)
    {
      hide *;
      c := Take();
      Pull(takes, now);
    }

    method Take() returns (c: Chunk)
      requires Valid() && queue != []
      modifies `queue, `queued, `received
      ensures Valid() && c == old(queue[0]) && queue == old(queue[1..]) && received == old(received) + Audits(c)
      ensures c.AuditFrame? ==> old(received) < |plan| && c.event == plan[old(received)]
    {
      hide EventsIn, QueueHolds, Total, RestOf;
      QueueShrinks(queue, plan, received, sent);
      c := queue[0];
      queue, queued, received := queue[1..], queued - Size(c), received + Audits(c);
    }

    // ---------------------------------------------------------------- ticks

    /** The synchronous part of a data tick. It goes on to fetch only when the whole buffer is free. */
    method DataTick(now: int, takes: seq<bool>, errorBytes: nat) returns (c: Option<Cursor>)
      requires AtRest()
      modifies `after, `batch, `offset, `flushing, `queue, `queued, `waiting, `sent, `received, `lastProgress, `closed, `awaiting, `dataBusy
      ensures AtRest() && old(sent) <= sent
      ensures c.Some? ==> awaiting && dataBusy && c.value == Cursor(after, Some(generation), None)
      ensures old(closed || dataBusy) ==> c.None? && unchanged(`after, `batch, `offset, `queue, `queued, `waiting, `sent, `received, `lastProgress, `closed, `awaiting, `dataBusy)
      ensures old(!closed && !dataBusy) ==> (c.Some? <==> dataBusy)
      ensures old(!closed && !dataBusy) && now - old(lastProgress) >= slowConsumerMs ==>
        closed && c.None? && ErrorLast(old(queue), old(Stalled()), old(Desired()), Some(SlowConsumer), errorBytes)
      ensures old(!closed && !dataBusy) && now - old(lastProgress) < slowConsumerMs ==>
        !closed && Stalled() && (c.Some? <==> batch == [] && Desired() == STREAM_BYTES)
    {
      hide *;
      Rests();
      c := None;
      if closed || dataBusy { return; }
      if now - lastProgress >= slowConsumerMs { Finish(Some(SlowConsumer), errorBytes, now); RestsAgain(); return; }
      Flush(takes, now);
      AtMostFree();
      if batch != [] || Desired() < STREAM_BYTES { RestsAgain(); return; }
      dataBusy := true;
      StartAwaiting();
      RestsAgain();
      return Some(Cursor(after, Some(generation), None));
    }

    lemma Rests()
      requires AtRest()
      ensures Valid() && Exact() && !flushing && (awaiting <==> dataBusy && !closed)
    {
    }

    lemma RestsAgain()
      requires Valid() && Exact() && !flushing && (awaiting <==> dataBusy && !closed)
      ensures AtRest()
    {
    }

    lemma AtMostFree()
      ensures Desired() <= STREAM_BYTES
    {
    }

    /**
     * The rest of the data tick, with the log as the query saw it, if the query got through. A fetched batch leaves
     * whole: nothing else can have filled the buffer in the meantime.
     */
    method DataTickResume(started: int, now: int, reached: bool, current: Log, denied: bool, takes: seq<bool>, errorBytes: nat)
      requires AtRest() && dataBusy
      requires !closed ==> ValidLog(current) && (current.generation == generation ==> Extends(log, current))
      modifies `after, `batch, `offset, `flushing, `queue, `queued, `waiting, `sent, `received, `lastProgress, `lastHeartbeat,
        `log, `plan, `closed, `awaiting, `dataBusy
      ensures AtRest() && !dataBusy
      ensures old(closed) ==> unchanged(`after, `batch, `offset, `queue, `queued, `waiting, `sent, `received, `lastProgress, `lastHeartbeat, `log, `plan, `closed)
      ensures !old(closed) ==>
        var snapshot := Fetched(reached, current, workspace, denied, Cursor(old(after), Some(generation), None), true);
        && closed == snapshot.Err?
        && (snapshot.Ok? ==> log == current && batch == [] && Sent() == old(Sent()) + snapshot.value)
        && (snapshot.Err? ==> Sent() == old(Sent()) && log == old(log))
      ensures closed <==>
        || old(closed) || !reached || denied || current.gated
        || Foreign(current, workspace, Cursor(old(after), Some(generation), None)) || NextTooLarge(current, old(after))
      ensures closed && !old(closed) ==>
        var error := if !reached then EventsUnavailable else if denied then Denied
                     else if current.gated || Foreign(current, workspace, Cursor(old(after), Some(generation), None)) then CursorExpired
                     else EventTooLarge;
        ErrorLast(old(queue), true, old(Desired()), Some(error), errorBytes)
    {
      hide *;
      Rests();
      if closed { dataBusy := false; RestsAgain(); return; }
      var snapshot := Fetched(reached, current, workspace, denied, Cursor(after, Some(generation), None), true);
      NextBatch(reached, current, denied);
      FetchFailsIff(reached, current, workspace, denied, Cursor(after, Some(generation), None), true);
      Apply(snapshot, current, started, now, takes, errorBytes);
    }

    lemma NextBatch(reached: bool, current: Log, denied: bool)
      requires Valid() && Exact() && awaiting && ValidLog(current) && (current.generation == generation ==> Extends(log, current))
      ensures var snapshot := Fetched(reached, current, workspace, denied, Cursor(after, Some(generation), None), true);
        snapshot.Ok? ==>
          && current.generation == generation && initial <= current.head
          && Sent() + snapshot.value <= Newer(current.events, initial) && Total(snapshot.value) <= STREAM_BYTES
    {
      hide Newer, Between, Total, Sizes, Fitting, Prefix, Index;
      if AuditSnapshot(current, workspace, denied, Cursor(after, Some(generation), None), true).Ok? {
        SnapshotContinues(log, current, workspace, denied, initial, Sent());
      }
    }

    method Apply(snapshot: Result<seq<Event>, StreamError>, current: Log, started: int, now: int, takes: seq<bool>, errorBytes: nat)
      requires Valid() && Exact() && !flushing && dataBusy && awaiting
      requires snapshot.Ok? ==> ValidLog(current) && current.generation == generation && initial <= current.head
                                && Sent() + snapshot.value <= Newer(current.events, initial) && Total(snapshot.value) <= STREAM_BYTES
      modifies `after, `batch, `offset, `flushing, `queue, `queued, `waiting, `sent, `received, `lastProgress, `lastHeartbeat,
        `log, `plan, `closed, `awaiting, `dataBusy
      ensures AtRest() && !dataBusy && closed == snapshot.Err?
      ensures snapshot.Ok? ==> log == current && batch == [] && Sent() == old(Sent()) + snapshot.value
      ensures snapshot.Err? ==> Sent() == old(Sent()) && log == old(log)
      ensures snapshot.Err? ==> ErrorLast(old(queue), true, old(Desired()), Some(snapshot.error), errorBytes)
    {
      hide *;
      dataBusy := false;
      EmptyWhileAwaiting();
      if snapshot.Err? {
        Finish(Some(snapshot.error), errorBytes, now);
      } else {
        TakeBatch(current, snapshot.value, started, now, takes);
      }
      RestsAgain();
    }

    method TakeBatch(current: Log, fetched: seq<Event>, started: int, now: int, takes: seq<bool>)
      requires Valid() && Exact() && !flushing && awaiting && ValidLog(current) && current.generation == generation
      requires initial <= current.head && Sent() + fetched <= Newer(current.events, initial) && Total(fetched) <= STREAM_BYTES
      modifies `after, `batch, `offset, `flushing, `queue, `queued, `waiting, `sent, `received, `lastProgress, `lastHeartbeat,
        `log, `plan, `awaiting
      ensures Valid() && Exact() && !flushing && !awaiting && log == current && batch == [] && Sent() == old(Sent()) + fetched
    {
      hide *;
      Adopt(current, fetched);
      Deliver(started, now, takes);
    }

    /** A batch that is within the bound and meets an empty buffer leaves whole; then a heartbeat may be due. */
    method Deliver(started: int, now: int, takes: seq<bool>)
      requires Valid() && !flushing && !closed && !awaiting && queued == 0
      modifies `after, `batch, `offset, `flushing, `queue, `queued, `waiting, `sent, `received, `lastProgress, `lastHeartbeat
      ensures Valid() && !flushing && batch == [] && Sent() == plan
      ensures started - old(lastHeartbeat) >= HEARTBEAT_MS ==> lastHeartbeat == started || Desired() < HEARTBEAT_BYTES
      ensures lastHeartbeat == old(lastHeartbeat)
        || (lastHeartbeat == started && started - old(lastHeartbeat) >= HEARTBEAT_MS && queue != [] && queue[|queue| - 1] == HeartbeatFrame)
    {
      hide ViewSound, Sizes, Total, RestOf;
      MemoryBounded();
      Flush(takes, now);
      AllLeft();
      if batch == [] && started - lastHeartbeat >= HEARTBEAT_MS && HEARTBEAT_BYTES <= Desired() {
        Heartbeat(started, now);
      }
    }

    method Heartbeat(started: int, now: int)
      requires Valid() && !flushing && !closed && !awaiting && batch == [] && HEARTBEAT_BYTES <= Desired()
      modifies `after, `batch, `offset, `flushing, `queue, `queued, `waiting, `sent, `received, `lastProgress, `lastHeartbeat
      ensures Valid() && !flushing && batch == [] && Sent() == plan
      ensures queue == old(queue) + [HeartbeatFrame] && lastProgress == lastHeartbeat == started
    {
      Enqueue(HeartbeatFrame, false, now);
      lastProgress, lastHeartbeat := started, started;
      AllSent();
    }

    lemma EmptyWhileAwaiting()
      requires Valid() && awaiting
      ensures batch == [] && !closed && queued == 0 && Stalled()
    {
    }

    /** However slow the consumer, neither the queue nor the pending batch grows beyond the bound. */
    lemma MemoryBounded()
      requires Valid()
      ensures queued == Sizes(queue) <= STREAM_BYTES
      ensures waiting == Total(RestOf(batch, offset)) <= STREAM_BYTES
      ensures closed ==> waiting == 0
    {
    }

    lemma AllSent()
      requires Valid() && !closed && batch == []
      ensures Sent() == plan
    {
      assert batch[offset..] == [];
    }

    /** Whatever is pending fits beside what is queued, so a flush cannot have stopped before the end. */
    lemma AllLeft()
      requires Valid() && !closed && queued + waiting <= STREAM_BYTES
      requires Stalled()
      ensures batch == [] && Sent() == plan
    {
      if batch != [] { PendingFits(batch, offset); }
    }

    /** A successful snapshot becomes the pending batch. */
    method Adopt(current: Log, fetched: seq<Event>)
      requires Valid() && awaiting && ValidLog(current) && current.generation == generation && initial <= current.head
      requires Sent() + fetched <= Newer(current.events, initial) && Total(fetched) <= STREAM_BYTES
      modifies `awaiting, `log, `batch, `waiting, `plan
      ensures Valid() && Exact() && !awaiting && !closed && queued == 0 && log == current && offset == 0
      ensures plan == old(Sent()) + fetched && sent == old(sent) && batch == fetched && waiting == Total(fetched)
    {
      hide ValidLog, Newer, Sizes, EventsIn, QueueHolds;
      QueueReplanned(queue, plan, received, sent, fetched);
      awaiting, log := false, current;
      batch, waiting, plan := fetched, Total(fetched), Sent() + fetched;
      assert fetched[0..] == fetched && plan[sent..] == fetched;
    }

    /** The synchronous part of an access tick: it asks about the cursor as it is now. */
    method AccessTick() returns (c: Option<Cursor>)
      modifies `accessBusy
      ensures c == if closed || old(accessBusy) then None else Some(Cursor(after, Some(generation), None))
      ensures accessBusy == (old(accessBusy) || c.Some?)
    {
      if closed || accessBusy { return None; }
      accessBusy := true;
      return Some(Cursor(after, Some(generation), None));
    }

    /** An access recheck that fails ends the stream; any other changes nothing. A fetch under way stays under way. */
    method AccessTickResume(c: Cursor, reached: bool, current: Log, denied: bool, now: int, errorBytes: nat)
      requires AtRest() && accessBusy
      modifies `after, `batch, `offset, `flushing, `queue, `queued, `waiting, `sent, `received, `lastProgress, `closed, `awaiting, `accessBusy
      ensures AtRest() && !accessBusy && old(sent) <= sent
      ensures closed <==> old(closed) || !reached || denied || current.gated || Foreign(current, workspace, c)
      ensures closed && !old(closed) ==>
        var error := if !reached then EventsUnavailable else if denied then Denied else CursorExpired;
        ErrorLast(old(queue), old(Stalled()), old(Desired()), Some(error), errorBytes)
      ensures closed == old(closed) ==> unchanged(`after, `batch, `offset, `queue, `queued, `waiting, `sent, `received, `lastProgress, `closed, `awaiting)
      ensures old(Stalled()) ==> after == old(after) && Sent() == old(Sent())
    {
      hide *;
      Rests();
      FetchFailsIff(reached, current, workspace, denied, c, false);
      accessBusy := false;
      if !closed {
        var snapshot := Fetched(reached, current, workspace, denied, c, false);
        if snapshot.Err? { Finish(Some(snapshot.error), errorBytes, now); }
      }
      RestsAgain();
    }

    /**
     * Close, after an error frame if there is room for it. Pending frames that were not sent by then never are,
     * except that enqueuing the error frame pulls once more.
     */
    method Finish(error: Option<StreamError>, errorBytes: nat, now: int)
      requires Valid() && !flushing
      modifies `after, `batch, `offset, `flushing, `queue, `queued, `waiting, `sent, `received, `lastProgress, `closed, `awaiting
      ensures Valid() && !flushing && closed && !awaiting && old(sent) <= sent
      ensures old(closed) ==> unchanged(`after, `batch, `offset, `queue, `queued, `waiting, `sent, `received, `lastProgress)
      ensures old(Stalled()) ==> after == old(after) && Sent() == old(Sent())
      ensures !old(closed) ==> ErrorLast(old(queue), old(Stalled()), old(Desired()), error, errorBytes)
    {
      hide *;
      NotAwaitingClosed();
      if !closed {
        SendError(error, errorBytes, now);
        Cleanup();
      }
    }

    lemma NotAwaitingClosed()
      requires Valid()
      ensures closed ==> !awaiting
    {
    }

    /** The queue of a stream that ended: what was there, the error frame if it fits, and at most Audit frames after it. */
    ghost predicate ErrorLast(before: seq<Chunk>, stalled: bool, desired: int, error: Option<StreamError>, errorBytes: nat)
      reads `queue
    {
      var fits := error.Some? && errorBytes <= desired;
      var full := before + (if fits then [ErrorFrame(error.value, errorBytes)] else []);
      Appended(full, queue) && (stalled || !fits ==> queue == full)
    }

    method SendError(error: Option<StreamError>, errorBytes: nat, now: int)
      requires Valid() && !flushing && !closed
      modifies `after, `batch, `offset, `flushing, `queue, `queued, `waiting, `sent, `received, `lastProgress, `awaiting
      ensures Valid() && !flushing && old(sent) <= sent
      ensures old(Stalled()) ==> after == old(after) && Sent() == old(Sent())
      ensures ErrorLast(old(queue), old(Stalled()), old(Desired()), error, errorBytes)
    {
      hide ViewSound, QueueHolds, Sizes, EventsIn, Total, RestOf;
      StopAwaiting();
      if error.Some? && errorBytes <= Desired() { Enqueue(ErrorFrame(error.value, errorBytes), false, now); }
    }

    ghost method StartAwaiting()
      requires Valid() && !closed && batch == [] && Desired() >= STREAM_BYTES
      modifies `awaiting
      ensures Valid() && awaiting
    {
      awaiting := true;
    }

    ghost method StopAwaiting()
      requires Valid()
      modifies `awaiting
      ensures Valid() && !awaiting
    {
      awaiting := false;
    }

    /** Nothing pending survives. */
    method Cleanup()
      requires Valid()
      modifies `closed, `awaiting, `batch, `waiting
      ensures Valid() && closed && batch == [] && !awaiting
    {
      if closed { return; }
      closed, awaiting := true, false;
      batch, waiting := [], 0;
    }

    // ---------------------------------------------------------------- every schedule

    /** One turn; a resumption that nobody is waiting for, or a read of an empty queue, does not happen. */
    method Perform(t: Turn)
      requires AtRest() && LogArrives(generation, log, t.action)
      modifies this
      ensures AtRest() && initial == old(initial) && old(Sent()) <= Sent()
      ensures log == old(log) || log == LogAfter(generation, old(log), t.action)
      ensures old(closed) ==> closed && Sent() == old(Sent())
    {
      hide *;
      Rests();
      match t.action
      case Pulling(takes) => Pull(takes, t.now); SentGrows(); RestsAgain();
      case Reading(takes) =>
        if queue != [] { var c := Read(takes, t.now); SentGrows(); RestsAgain(); }
      case DataTicking(takes) => var c := DataTick(t.now, takes, t.errorBytes); Rests(); SentGrows();
      case DataArriving(_, _, _, _, _) => Arrive(t);
      case AccessTicking => var c := AccessTick(); RestsAgain();
      case AccessArriving(asked, reached, current, denied) =>
        if accessBusy { AccessTickResume(asked, reached, current, denied, t.now, t.errorBytes); Rests(); SentGrows(); }
      case Aborting => Finish(None, t.errorBytes, t.now); SentGrows(); RestsAgain();
      case Cancelling => Cleanup(); SentGrows(); RestsAgain();
    }

    method Arrive(t: Turn)
      requires AtRest() && t.action.DataArriving? && LogArrives(generation, log, t.action)
      modifies this
      ensures AtRest() && initial == old(initial) && old(Sent()) <= Sent()
      ensures log == old(log) || log == LogAfter(generation, old(log), t.action)
      ensures old(closed) ==> closed && Sent() == old(Sent())
    {
      hide QueueHolds, ViewSound, ValidLog, Extends, AuditSnapshot, Fetched, Newer, Between;
      if dataBusy {
        var DataArriving(started, reached, current, denied, takes) := t.action;
        DataTickResume(started, t.now, reached, current, denied, takes, t.errorBytes);
      }
    }

    /** What was sent stays sent, whether the plan is the same or a fetched batch was adopted. */
    twostate lemma SentGrows()
      requires Valid() && ((old(plan) == plan && old(sent) <= sent) || old(Sent()) <= Sent())
      ensures old(Sent()) <= Sent()
    {
    }

    /**
     * For every schedule of pulls, reads, data ticks, access rechecks, failures and aborts, in whatever order fetches
     * and rechecks overlap: the Audit frames enqueued are exactly the events in (initial cursor, current cursor], what
     * the consumer has read is a prefix of them, and nothing that was enqueued is ever taken back.
     */
    method Run(turns: seq<Turn>)
      requires AtRest() && LogsGrow(generation, log, turns)
      modifies this
      ensures AtRest() && initial == old(initial) && Extends(old(log), log)
      ensures Sent() == Between(log.events, initial, after) && initial <= after <= log.head
      ensures old(Sent()) <= Sent() && Received() <= Sent()
      ensures old(closed) ==> closed && Sent() == old(Sent())
    {
      hide QueueHolds, ViewSound, ValidLog, Newer, Between, Extends, AtRest;
      var n := 0;
      ghost var last := log;
      ExtendsItself(log);
      while n < |turns|
        invariant 0 <= n <= |turns| && AtRest() && LogsGrow(generation, last, turns[n..])
        invariant initial == old(initial) && Extends(old(log), log) && Extends(log, last)
        invariant old(Sent()) <= Sent() && (old(closed) ==> closed && Sent() == old(Sent()))
      {
        NextLog(generation, log, last, turns[n..]);
        assert turns[n..][1..] == turns[n + 1..] && turns[n..][0] == turns[n];
        ExtendsOn(old(log), log, LogAfter(generation, log, turns[n].action));
        Perform(turns[n]);
        last := LogAfter(generation, last, turns[n].action);
        n := n + 1;
      }
      Concludes();
    }

    lemma Concludes()
      requires AtRest()
      ensures initial <= after <= log.head && Sent() == Between(log.events, initial, after) && Received() <= Sent()
    {
      SentIsInterval();
      ReceivedIsInterval();
    }
  }
}

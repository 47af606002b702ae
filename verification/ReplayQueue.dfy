/** Conservation of the offline replay queues over whole ledger histories
    (crates/network/src/replication.rs:67-149). */
module ReplayQueue {
  import opened Bytes
  import opened Clock
  import opened Events
  import opened Ledger

  datatype Operation =
    | RecordOp(event: ClipboardEvent, peers: seq<DeviceId>, expiresAt: int)
    | ReceiveOp(remote: ClipboardEvent, receivedAt: Millis)
    | PendingOp(peer: DeviceId, now: int)
    | AcknowledgeOp(acker: DeviceId, id: Uuid)
    | TimestampOp(tick: Millis)

  function Step(state: State, op: Operation): State {
    match op
    case RecordOp(event, peers, expiresAt) =>
      if event.origin == state.local then RecordLocal(state, event, peers, expiresAt) else state
    case ReceiveOp(event, now) => Ledger.Receive(state, event, now)
    case PendingOp(peer, now) => PendingFor(state, peer, now)
    case AcknowledgeOp(peer, id) => Acknowledge(state, peer, id)
    case TimestampOp(now) => NextTimestamp(state, now)
  }

  function Run(state: State, history: seq<Operation>): State
    decreases |history|
  {
    if history == [] then state else Run(Step(state, history[0]), history[1..])
  }

  // ---------- the reference: what a peer is owed, read off the history ----------

  /** An operation that takes `item` out of `peer`'s queue: its acknowledgement, or a listing after
      its expiry. */
  predicate Discharges(op: Operation, peer: DeviceId, item: PendingEvent) {
    match op
    case PendingOp(p, now) => p == peer && item.expiresAt < now
    case AcknowledgeOp(p, id) => p == peer && item.event.id == id
    case _ => false
  }

  ghost predicate Owed(peer: DeviceId, item: PendingEvent, later: seq<Operation>) {
    forall i :: 0 <= i < |later| ==> !Discharges(later[i], peer, item)
  }

  function Copies(item: PendingEvent, local: DeviceId, peer: DeviceId, peers: seq<DeviceId>): seq<PendingEvent>
    decreases |peers|
  {
    if peers == [] then []
    else (if peers[0] == peer && peer != local then [item] else []) + Copies(item, local, peer, peers[1..])
  }

  ghost function Keep(queue: seq<PendingEvent>, peer: DeviceId, later: seq<Operation>): seq<PendingEvent> {
    if queue == [] then []
    else (if Owed(peer, queue[0], later) then [queue[0]] else []) + Keep(queue[1..], peer, later)
  }

  /** What one operation adds to `peer`'s queue. */
  function Added(op: Operation, local: DeviceId, peer: DeviceId): seq<PendingEvent> {
    match op
    case RecordOp(event, peers, expiresAt) =>
      if event.origin == local then Copies(PendingEvent(event, expiresAt), local, peer, peers) else []
    case _ => []
  }

  /** The copies ever recorded for `peer`, in recording order, that nothing later discharged. */
  ghost function StillOwed(history: seq<Operation>, local: DeviceId, peer: DeviceId): seq<PendingEvent>
    decreases |history|
  {
    if history == [] then []
    else Keep(Added(history[0], local, peer), peer, history[1..]) + StillOwed(history[1..], local, peer)
  }

  // ---------- proof ----------

  lemma {:induction false} EnqueueAddsCopies(
      pending: Queues, local: DeviceId, peers: seq<DeviceId>, item: PendingEvent, peer: DeviceId)
    ensures Queue(Enqueue(pending, local, peers, item), peer)
         == Queue(pending, peer) + Copies(item, local, peer, peers)
    decreases |peers|
  {
    if peers != [] {
      EnqueueAddsCopies(EnqueueOne(pending, local, peers[0], item), local, peers[1..], item, peer);
    }
  }

  /** Filtering a queue by one operation, then by the rest of the history, is filtering it by both. */
  function Surviving(queue: seq<PendingEvent>, op: Operation, peer: DeviceId): seq<PendingEvent> {
    if queue == [] then []
    else (if Discharges(op, peer, queue[0]) then [] else [queue[0]]) + Surviving(queue[1..], op, peer)
  }

  lemma {:induction false} KeepConcat(a: seq<PendingEvent>, b: seq<PendingEvent>, peer: DeviceId, later: seq<Operation>)
    ensures Keep(a + b, peer, later) == Keep(a, peer, later) + Keep(b, peer, later)
  {
    if a == [] {
      assert a + b == b;
    } else {
      var first := if Owed(peer, a[0], later) then [a[0]] else [];
      assert (a + b)[1..] == a[1..] + b;
      KeepConcat(a[1..], b, peer, later);
      assert Keep(a + b, peer, later) == first + (Keep(a[1..], peer, later) + Keep(b, peer, later));
    }
  }

  lemma OwedSplits(peer: DeviceId, item: PendingEvent, history: seq<Operation>)
    requires history != []
    ensures Owed(peer, item, history) <==> !Discharges(history[0], peer, item) && Owed(peer, item, history[1..])
  {
    if !Discharges(history[0], peer, item) && Owed(peer, item, history[1..]) {
      forall i | 0 <= i < |history| ensures !Discharges(history[i], peer, item) {
        if i > 0 {
          assert history[i] == history[1..][i - 1];
        }
      }
    }
  }

  lemma {:induction false} KeepAfterSurviving(queue: seq<PendingEvent>, peer: DeviceId, history: seq<Operation>)
    requires history != []
    ensures Keep(Surviving(queue, history[0], peer), peer, history[1..]) == Keep(queue, peer, history)
  {
    if queue != [] {
      KeepAfterSurviving(queue[1..], peer, history);
      OwedSplits(peer, queue[0], history);
      var rest := Surviving(queue[1..], history[0], peer);
      KeepConcat(if Discharges(history[0], peer, queue[0]) then [] else [queue[0]], rest, peer, history[1..]);
    }
  }

  lemma SurvivingIsFilter(queue: seq<PendingEvent>, op: Operation, peer: DeviceId)
    ensures op.PendingOp? && op.peer == peer ==> Surviving(queue, op, peer) == Unexpired(queue, op.now)
    ensures op.AcknowledgeOp? && op.acker == peer ==> Surviving(queue, op, peer) == Unacknowledged(queue, op.id)
    ensures !(op.PendingOp? && op.peer == peer) && !(op.AcknowledgeOp? && op.acker == peer)
            ==> Surviving(queue, op, peer) == queue
  {
  }

  lemma StepOnQueue(state: State, op: Operation, peer: DeviceId)
    ensures Queue(Step(state, op).pending, peer)
         == Surviving(Queue(state.pending, peer), op, peer) + Added(op, state.local, peer)
    ensures Step(state, op).local == state.local
  {
    SurvivingIsFilter(Queue(state.pending, peer), op, peer);
    if op.RecordOp? {
      EnqueueAddsCopies(state.pending, state.local, op.peers, PendingEvent(op.event, op.expiresAt), peer);
    }
  }

  lemma {:induction false} RunOnQueue(state: State, history: seq<Operation>, peer: DeviceId)
    ensures Queue(Run(state, history).pending, peer)
         == Keep(Queue(state.pending, peer), peer, history) + StillOwed(history, state.local, peer)
    decreases |history|
  {
    if history == [] {
      KeepAll(Queue(state.pending, peer), peer);
    } else {
      var next := Step(state, history[0]);
      StepOnQueue(state, history[0], peer);
      RunOnQueue(next, history[1..], peer);
      KeepThroughStep(Queue(state.pending, peer), history, state.local, peer);
    }
  }

  /** What is kept of a stepped queue, together with what the rest of the history adds. */
  lemma KeepThroughStep(queue: seq<PendingEvent>, history: seq<Operation>, local: DeviceId, peer: DeviceId)
    requires history != []
    ensures Keep(Surviving(queue, history[0], peer) + Added(history[0], local, peer), peer, history[1..])
              + StillOwed(history[1..], local, peer)
         == Keep(queue, peer, history) + StillOwed(history, local, peer)
  {
    KeepConcat(Surviving(queue, history[0], peer), Added(history[0], local, peer), peer, history[1..]);
    KeepAfterSurviving(queue, peer, history);
    ConcatAssociates(Keep(queue, peer, history), Keep(Added(history[0], local, peer), peer, history[1..]),
                     StillOwed(history[1..], local, peer));
  }

  lemma ConcatAssociates(a: seq<PendingEvent>, b: seq<PendingEvent>, c: seq<PendingEvent>)
    ensures (a + b) + c == a + (b + c)
  {
  }

  lemma KeepAll(queue: seq<PendingEvent>, peer: DeviceId)
    ensures Keep(queue, peer, []) == queue
  {
  }

  /** In every history of a ledger, a peer's queue is exactly the copies recorded for it, in recording
      order, less those it acknowledged afterwards and those that had expired when listed. */
  lemma QueueConservation(local: DeviceId, physical: Millis, capacity: nat, history: seq<Operation>, peer: DeviceId)
    ensures Queue(Run(NewState(local, physical, capacity), history).pending, peer)
         == StillOwed(history, local, peer)
  {
    RunOnQueue(NewState(local, physical, capacity), history, peer);
  }

  /** Nothing is queued for the device itself. */
  lemma {:induction false} NothingOwedToSelf(history: seq<Operation>, local: DeviceId)
    ensures StillOwed(history, local, local) == []
    decreases |history|
  {
    if history != [] {
      NothingOwedToSelf(history[1..], local);
      var op := history[0];
      if op.RecordOp? {
        NoCopiesToSelf(PendingEvent(op.event, op.expiresAt), local, op.peers);
      }
    }
  }

  lemma NoCopiesToSelf(item: PendingEvent, local: DeviceId, peers: seq<DeviceId>)
    ensures Copies(item, local, local, peers) == []
    decreases |peers|
  {
  }
}

/** The bounded replication ledger (crates/network/src/replication.rs) as state transformers, one
    for each operation. `Replication` carries them out in place. */
module Ledger {
  import opened Bytes
  import opened Clock
  import opened Events

  datatype ApplyDecision = Apply | Duplicate | Superseded

  datatype ReplicationError = ForeignLocalOrigin

  datatype PendingEvent = PendingEvent(event: ClipboardEvent, expiresAt: int)

  type Queues = map<DeviceId, seq<PendingEvent>>

  datatype State = State(
    local: DeviceId,
    clock: HybridTimestamp,
    seen: set<Uuid>,
    order: seq<Uuid>,
    current: Option<Stamp>,
    pending: Queues,
    capacity: nat)

  const SEEN_CAPACITY: nat := 20_000

  function NewState(local: DeviceId, physical: Millis, capacity: nat): State {
    State(local, Clock.New(physical), {}, [], None, map[], capacity)
  }

  // ---------- the seen window ----------

  ghost predicate Distinct(order: seq<Uuid>) {
    forall i, j :: 0 <= i < j < |order| ==> order[i] != order[j]
  }

  function Elements(order: seq<Uuid>): set<Uuid> {
    set id | id in order
  }

  /** `seen` is exactly the duplicate-free contents of a window no longer than the capacity. */
  ghost predicate Windowed(state: State) {
    Distinct(state.order) && state.seen == Elements(state.order) && |state.order| <= state.capacity
  }

  /** The newest `capacity` identities. */
  function Newest(order: seq<Uuid>, capacity: nat): seq<Uuid> {
    if |order| <= capacity then order else order[|order| - capacity..]
  }

  function MarkSeen(state: State, id: Uuid): State {
    if id in state.seen then state
    else
      var order := Newest(state.order + [id], state.capacity);
      state.(order := order, seen := Elements(order))
  }

  lemma MarkSeenKeepsWindow(state: State, id: Uuid)
    requires Windowed(state)
    ensures Windowed(MarkSeen(state, id))
    ensures MarkSeen(state, id).seen <= state.seen + {id}
  {
  }

  // ---------- replay queues ----------

  function Queue(pending: Queues, peer: DeviceId): seq<PendingEvent> {
    if peer in pending then pending[peer] else []
  }

  function EnqueueOne(pending: Queues, local: DeviceId, peer: DeviceId, item: PendingEvent): Queues {
    if peer == local then pending else pending[peer := Queue(pending, peer) + [item]]
  }

  function Enqueue(pending: Queues, local: DeviceId, peers: seq<DeviceId>, item: PendingEvent): Queues
    decreases |peers|
  {
    if peers == [] then pending
    else Enqueue(EnqueueOne(pending, local, peers[0], item), local, peers[1..], item)
  }

  function Unexpired(queue: seq<PendingEvent>, now: int): seq<PendingEvent> {
    if queue == [] then []
    else (if queue[0].expiresAt >= now then [queue[0]] else []) + Unexpired(queue[1..], now)
  }

  function Unacknowledged(queue: seq<PendingEvent>, id: Uuid): seq<PendingEvent> {
    if queue == [] then []
    else (if queue[0].event.id != id then [queue[0]] else []) + Unacknowledged(queue[1..], id)
  }

  function EventsOf(queue: seq<PendingEvent>): (events: seq<ClipboardEvent>)
    ensures |events| == |queue|
    ensures forall i :: 0 <= i < |queue| ==> events[i] == queue[i].event
  {
    if queue == [] then [] else [queue[0].event] + EventsOf(queue[1..])
  }

  // ---------- operations ----------

  function RecordLocal(state: State, event: ClipboardEvent, peers: seq<DeviceId>, expiresAt: int): State
    requires event.origin == state.local
  {
    var clocked := state.(clock := Clock.Receive(state.clock, event.timestamp, event.timestamp.physical));
    MarkSeen(clocked, event.id).(
      current := Some(StampOf(event)),
      pending := Enqueue(state.pending, state.local, peers, PendingEvent(event, expiresAt)))
  }

  function Preview(state: State, event: ClipboardEvent): ApplyDecision {
    if event.id in state.seen then Duplicate
    else if state.current.Some? && NotAfter(StampOf(event), state.current.value) then Superseded
    else Apply
  }

  function Receive(state: State, event: ClipboardEvent, now: Millis): State {
    var clocked := state.(clock := Clock.Receive(state.clock, event.timestamp, now));
    match Preview(state, event)
    case Duplicate => clocked
    case Superseded => MarkSeen(clocked, event.id)
    case Apply => MarkSeen(clocked, event.id).(current := Some(StampOf(event)))
  }

  function PendingFor(state: State, peer: DeviceId, now: int): State {
    state.(pending := state.pending[peer := Unexpired(Queue(state.pending, peer), now)])
  }

  function Acknowledge(state: State, peer: DeviceId, id: Uuid): State {
    if peer !in state.pending then state
    else state.(pending := state.pending[peer := Unacknowledged(state.pending[peer], id)])
  }

  function NextTimestamp(state: State, now: Millis): State {
    state.(clock := Clock.Tick(state.clock, now))
  }

  lemma OperationsKeepWindow(state: State, event: ClipboardEvent, now: Millis, peers: seq<DeviceId>, expiresAt: int)
    requires Windowed(state)
    ensures Windowed(Receive(state, event, now))
    ensures event.origin == state.local ==> Windowed(RecordLocal(state, event, peers, expiresAt))
  {
    var received := state.(clock := Clock.Receive(state.clock, event.timestamp, now));
    MarkSeenKeepsWindow(received, event.id);
    var recorded := state.(clock := Clock.Receive(state.clock, event.timestamp, event.timestamp.physical));
    MarkSeenKeepsWindow(recorded, event.id);
  }

  lemma UnacknowledgedLength(queue: seq<PendingEvent>, id: Uuid)
    ensures |Unacknowledged(queue, id)| <= |queue|
    ensures |Unacknowledged(queue, id)| != |queue| <==> exists i :: 0 <= i < |queue| && queue[i].event.id == id
  {
    if queue != [] {
      UnacknowledgedLength(queue[1..], id);
      if |Unacknowledged(queue[1..], id)| != |queue[1..]| {
        var i :| 0 <= i < |queue[1..]| && queue[1..][i].event.id == id;
        assert queue[i + 1].event.id == id;
      }
      if i :| 0 <= i < |queue| && queue[i].event.id == id {
        if i > 0 {
          assert queue[1..][i - 1].event.id == id;
        }
      }
    }
  }
}

/** Any number of devices exchanging clipboard events: users copy, devices poll, share files, deliver,
    list and acknowledge in any order; deliveries are unordered, repeated, late or lost. */
module Cluster {
  import opened Bytes
  import opened LossyText
  import opened Clock
  import opened ClipboardValue
  import opened ClipboardCodec
  import opened Events
  import opened HistoryStore
  import opened Winner
  import Ledger
  import D = Device

  /** A device together with what has happened there: the events it handled (recorded itself, or
      answered with an acknowledgeable outcome), those it applied, the history entries its user removed or
      pruned, the physical copies made and the events its polls created. */
  datatype Node = Node(
    device: D.Device,
    handled: set<Uuid>,
    applied: set<Uuid>,
    discarded: set<Uuid>,
    copies: nat,
    captures: nat)

  /** The devices, every event created, the identities drawn, for each event what its origin had
      handled when it was created, the clock operations performed and the largest clock reading. */
  datatype World = World(
    nodes: map<DeviceId, Node>,
    events: EventLog,
    drawn: set<Uuid>,
    past: map<Uuid, set<Uuid>>,
    clockOps: nat,
    latest: Millis)

  /** How an event reaches a device: as offered, with its fetched blob, or with its finished transfer. */
  datatype Delivery = Offered | WithBlob(bytes: seq<byte>) | WithFiles(transfer: D.Published)

  datatype Action =
    | Copy(at: DeviceId, value: Option<Value>)
    | Poll(at: DeviceId, capture: D.Capture)
    | ShareFiles(at: DeviceId, capture: D.Capture, paths: seq<Path>, transferId: TransferId)
    | Deliver(at: DeviceId, id: Uuid, delivery: Delivery, now: Millis, faults: D.Faults)
    | ListPending(at: DeviceId, peer: DeviceId, time: int)
    | Acknowledge(at: DeviceId, peer: DeviceId, id: Uuid)
    | Pin(at: DeviceId, id: Uuid, pinnedAt: Option<int>)
    | Remove(at: DeviceId, id: Uuid)
    | Prune(at: DeviceId, retention: Retention)

  function DeliverTo(build: D.Build, device: D.Device, event: ClipboardEvent, delivery: Delivery, now: Millis,
                     faults: D.Faults)
    : (D.Device, Result<D.SyncOutcome, D.SyncError>)
  {
    match delivery
    case Offered => D.Receive(build, device, event, now, faults)
    case WithBlob(bytes) => D.ReceiveBlob(build, device, event, bytes, now, faults)
    case WithFiles(transfer) => D.ReceiveFiles(build, device, event, transfer, now, faults)
  }

  /** Delete history entries of a node. */
  function Discard(node: Node, ids: set<Uuid>): Node {
    node.(device := node.device.(history := node.device.history - ids),
          discarded := node.discarded + (ids * node.device.history.Keys))
  }

  /** New identities are unused (`Uuid::new_v4`), and only events that exist are delivered. */
  predicate Enabled(world: World, action: Action) {
    && action.at in world.nodes
    && (action.Poll? || action.ShareFiles? ==> action.capture.id !in world.drawn)
    && (action.Deliver? ==> action.id in world.events)
  }

  function Moved(before: D.Device, after: D.Device): nat {
    if before.ledger.clock == after.ledger.clock then 0 else 1
  }

  /** Book one local operation that drew identity `id` at reading `now` and may have created an event. */
  function Book(world: World, at: DeviceId, device: D.Device, created: Option<ClipboardEvent>, id: Uuid, now: Millis,
                polled: nat): World
    requires at in world.nodes
  {
    var node := world.nodes[at];
    var booked := world.(drawn := world.drawn + {id}, latest := Max(world.latest, now));
    match created
    case None =>
      booked.(nodes := world.nodes[at := node.(device := device)],
              clockOps := world.clockOps + Moved(node.device, device))
    case Some(event) =>
      booked.(nodes := world.nodes[at := node.(device := device, handled := node.handled + {event.id},
                                               captures := node.captures + polled)],
              events := world.events[event.id := event],
              past := world.past[event.id := node.handled],
              clockOps := world.clockOps + 2)
  }

  function PollCreates(result: Result<Option<ClipboardEvent>, D.SyncError>): Option<ClipboardEvent> {
    if result.Ok? then result.value else None
  }

  function ShareCreates(result: Result<ClipboardEvent, D.SyncError>): Option<ClipboardEvent> {
    if result.Ok? then Some(result.value) else None
  }

  function Step(build: D.Build, world: World, action: Action): World
    requires Enabled(world, action)
  {
    var node := world.nodes[action.at];
    match action
    case Copy(at, value) =>
      var copied := node.(device := node.device.(clipboard := value),
                          copies := node.copies + if value.Some? then 1 else 0);
      world.(nodes := world.nodes[at := copied])
    case Poll(at, capture) =>
      var (device, result) := D.PollLocal(build, node.device, capture);
      Book(world, at, device, PollCreates(result), capture.id, capture.now, 1)
    case ShareFiles(at, capture, paths, transferId) =>
      var (device, result) := D.RecordFiles(build, node.device, capture, paths, transferId);
      Book(world, at, device, ShareCreates(result), capture.id, capture.now, 0)
    case Deliver(at, id, delivery, now, faults) =>
      var (device, result) := DeliverTo(build, node.device, world.events[id], delivery, now, faults);
      var received := node.(
        device := device,
        handled := if result.Ok? && D.ShouldAcknowledge(result.value) then node.handled + {id} else node.handled,
        applied := if result == Ok(D.Applied) then node.applied + {id} else node.applied);
      world.(nodes := world.nodes[at := received],
             clockOps := world.clockOps + Moved(node.device, device),
             latest := Max(world.latest, now))
    case ListPending(at, peer, time) =>
      var device := node.device.(ledger := Ledger.PendingFor(node.device.ledger, peer, time));
      world.(nodes := world.nodes[at := node.(device := device)])
    case Acknowledge(at, peer, id) =>
      var device := node.device.(ledger := Ledger.Acknowledge(node.device.ledger, peer, id));
      world.(nodes := world.nodes[at := node.(device := device)])
    case Pin(at, id, pinnedAt) =>
      var device := node.device.(history := PinSet(node.device.history, id, pinnedAt));
      world.(nodes := world.nodes[at := node.(device := device)])
    case Remove(at, id) => world.(nodes := world.nodes[at := Discard(node, {id})])
    case Prune(at, retention) =>
      world.(nodes := world.nodes[at := Discard(node, PrunedIds(node.device.history, retention))])
  }

  /** The acting device afterwards; an action changes no other. */
  function Acted(build: D.Build, world: World, action: Action): D.Device
    requires Enabled(world, action)
  {
    var device := world.nodes[action.at].device;
    match action
    case Copy(_, value) => device.(clipboard := value)
    case Poll(_, capture) => D.PollLocal(build, device, capture).0
    case ShareFiles(_, capture, paths, transferId) => D.RecordFiles(build, device, capture, paths, transferId).0
    case Deliver(_, id, delivery, now, faults) => DeliverTo(build, device, world.events[id], delivery, now, faults).0
    case ListPending(_, peer, time) => device.(ledger := Ledger.PendingFor(device.ledger, peer, time))
    case Acknowledge(_, peer, id) => device.(ledger := Ledger.Acknowledge(device.ledger, peer, id))
    case Pin(_, id, pinnedAt) => device.(history := PinSet(device.history, id, pinnedAt))
    case Remove(_, id) => device.(history := device.history - {id})
    case Prune(_, retention) => device.(history := device.history - PrunedIds(device.history, retention))
  }

  lemma StepActs(build: D.Build, world: World, action: Action)
    requires Enabled(world, action)
    ensures var after := Step(build, world, action).nodes;
            && after.Keys == world.nodes.Keys
            && after[action.at].device == Acted(build, world, action)
            && (forall d :: d in world.nodes && d != action.at ==> after[d] == world.nodes[d])
  {
  }

  ghost predicate Possible(build: D.Build, world: World, actions: seq<Action>)
    decreases |actions|
  {
    actions == [] || (Enabled(world, actions[0]) && Possible(build, Step(build, world, actions[0]), actions[1..]))
  }

  function Run(build: D.Build, world: World, actions: seq<Action>): World
    requires Possible(build, world, actions)
    decreases |actions|
  {
    if actions == [] then world else Run(build, Step(build, world, actions[0]), actions[1..])
  }

  /** Fresh devices with any seen capacity, any clock readings, any initial clipboard and any history from
      before, whose identities are not drawn again; initial content counts as one copy. */
  ghost predicate Initial(world: World) {
    && (forall d :: d in world.nodes ==>
          var node := world.nodes[d];
          var physical := node.device.ledger.clock.physical;
          && node.device == D.New(d, physical, node.device.ledger.capacity, node.device.clipboard)
                             .(history := node.device.history, blobs := node.device.blobs)
          && node.handled == {} && node.applied == {} && node.captures == 0
          && node.copies == (if node.device.clipboard.Some? then 1 else 0)
          && physical <= world.latest)
    && (forall d, id :: d in world.nodes && id in world.nodes[d].device.history ==> id in world.drawn)
    && world.events == map[] && world.past == map[] && world.clockOps == 0
  }

  // ---------- what one call does to the ledger ----------

  predicate Recorded(before: D.Device, after: D.Device, event: ClipboardEvent, capture: D.Capture) {
    && event.id == capture.id && event.origin == before.ledger.local
    && event.timestamp == Tick(before.ledger.clock, capture.now)
    && after.ledger
       == Ledger.RecordLocal(Ledger.NextTimestamp(before.ledger, capture.now), event, capture.peers,
                             capture.expiresAt)
  }

  predicate NotRecorded(before: D.Device, after: D.Device, capture: D.Capture) {
    after.ledger == before.ledger || after.ledger == Ledger.NextTimestamp(before.ledger, capture.now)
  }

  lemma PollEffect(build: D.Build, device: D.Device, capture: D.Capture)
    ensures var (after, result) := D.PollLocal(build, device, capture);
            match PollCreates(result)
            case None => NotRecorded(device, after, capture)
            case Some(event) => Recorded(device, after, event, capture)
  {
  }

  lemma ShareEffect(build: D.Build, device: D.Device, capture: D.Capture, paths: seq<Path>, transferId: TransferId)
    ensures var (after, result) := D.RecordFiles(build, device, capture, paths, transferId);
            match ShareCreates(result)
            case None => NotRecorded(device, after, capture)
            case Some(event) => Recorded(device, after, event, capture)
  {
  }

  /** What handling `event` did to the ledger, and what the outcome says about it. */
  predicate Handled(device: D.Device, event: ClipboardEvent, now: Millis, after: D.Device,
                    result: Result<D.SyncOutcome, D.SyncError>) {
    var preview := Ledger.Preview(device.ledger, event);
    && (result.Ok? && D.ShouldAcknowledge(result.value) ==> after.ledger == Ledger.Receive(device.ledger, event, now))
    && (result == Ok(D.Applied) ==> preview.Apply?)
    && (after.ledger == device.ledger
        || (after.ledger == Ledger.Receive(device.ledger, event, now) && (preview.Apply? ==> result == Ok(D.Applied))))
  }

  lemma PersistKeepsLedger(build: D.Build, device: D.Device, event: ClipboardEvent, bytes: seq<byte>,
                           decoded: Option<Value>, application: Option<string>, sensitive: bool, faults: D.Faults)
    ensures D.Persist(build, device, event, bytes, decoded, application, sensitive, faults).0.ledger == device.ledger
  {
  }

  lemma ApplyEffect(build: D.Build, device: D.Device, event: ClipboardEvent, value: Value, bytes: seq<byte>,
                    now: Millis, faults: D.Faults)
    requires build.debugAssertions
    ensures var (after, result) := D.ApplyReady(build, device, event, value, bytes, now, faults);
            Handled(device, event, now, after, result)
  {
    var committed := device.(ledger := Ledger.Receive(device.ledger, event, now));
    PersistKeepsLedger(build, committed, event, bytes, Some(value), None, false, faults);
    var written := D.Overwrite(device, value, faults.write).0;
    PersistKeepsLedger(build, written, event, bytes, Some(value), None, false, faults);
  }

  lemma ApplyBytesEffect(build: D.Build, device: D.Device, event: ClipboardEvent, bytes: seq<byte>, now: Millis,
                         faults: D.Faults)
    requires build.debugAssertions
    ensures var (after, result) := D.ApplyBytes(build, device, event, bytes, now, faults);
            Handled(device, event, now, after, result)
  {
    var decoded := DecodeValue(build.png, event.format, bytes);
    if decoded.Ok? {
      ApplyEffect(build, device, event, decoded.value, bytes, now, faults);
    }
  }

  lemma DeliverEffect(build: D.Build, device: D.Device, event: ClipboardEvent, delivery: Delivery, now: Millis,
                      faults: D.Faults)
    requires build.debugAssertions
    ensures var (after, result) := DeliverTo(build, device, event, delivery, now, faults);
            Handled(device, event, now, after, result)
  {
    match delivery {
      case Offered =>
        if event.content.Inline? {
          ApplyBytesEffect(build, device, event, event.content.bytes, now, faults);
        }
      case WithBlob(bytes) =>
        ApplyBytesEffect(build, device, event, bytes, now, faults);
      case WithFiles(transfer) =>
        var value := Files([transfer.destination]);
        ApplyEffect(build, device, event, value, PathRecords(value.paths), now, faults);
    }
  }

  // ---------- the invariant ----------

  ghost predicate Bounded(timestamp: HybridTimestamp, clockOps: nat, latest: nat) {
    timestamp.logical <= clockOps && timestamp.physical <= latest
  }

  ghost predicate NodeSound(events: EventLog, clockOps: nat, latest: nat, node: Node) {
    var ledger := node.device.ledger;
    && Ledger.Windowed(ledger)
    && Tracks(events, node.handled, ledger)
    && Bounded(ledger.clock, clockOps, latest)
    && node.applied <= node.handled
  }

  ghost predicate EventsSound(world: World) {
    && Keyed(world.events)
    && world.past.Keys == world.events.Keys && world.events.Keys <= world.drawn
    && (forall id :: id in world.events ==> Bounded(world.events[id].timestamp, world.clockOps, world.latest))
    && (forall id, earlier :: id in world.past && earlier in world.past[id] ==>
          earlier in world.events && Less(world.events[earlier].timestamp, world.events[id].timestamp))
  }

  ghost predicate Sound(world: World) {
    && EventsSound(world)
    && forall d :: d in world.nodes ==>
         && world.nodes[d].device.ledger.local == d
         && NodeSound(world.events, world.clockOps, world.latest, world.nodes[d])
  }

  lemma InitialSound(world: World)
    requires Initial(world)
    ensures Sound(world)
  {
  }

  lemma NodeGrows(events: EventLog, larger: EventLog, ops: nat, moreOps: nat, latest: nat, later: nat, node: Node)
    requires NodeSound(events, ops, latest, node)
    requires Extends(events, larger) && Keyed(larger) && ops <= moreOps && latest <= later
    ensures NodeSound(larger, moreOps, later, node)
  {
    TracksExtends(events, larger, node.handled, node.device.ledger);
  }

  lemma OthersStaySound(world: World, after: World, at: DeviceId)
    requires Sound(world) && at in world.nodes
    requires after.nodes.Keys == world.nodes.Keys
    requires forall d :: d in world.nodes && d != at ==> after.nodes[d] == world.nodes[d]
    requires Extends(world.events, after.events) && world.clockOps <= after.clockOps && world.latest <= after.latest
    requires EventsSound(after)
    requires after.nodes[at].device.ledger.local == at
    requires NodeSound(after.events, after.clockOps, after.latest, after.nodes[at])
    ensures Sound(after)
  {
    forall d | d in after.nodes ensures NodeSound(after.events, after.clockOps, after.latest, after.nodes[d]) {
      if d != at {
        NodeGrows(world.events, after.events, world.clockOps, after.clockOps, world.latest, after.latest,
                  world.nodes[d]);
      }
    }
  }

  /** A capture that recorded nothing moved the clock at most once. */
  lemma NotRecordedSound(events: EventLog, ops: nat, latest: nat, node: Node, device: D.Device, capture: D.Capture)
    requires NodeSound(events, ops, latest, node) && NotRecorded(node.device, device, capture)
    ensures NodeSound(events, ops + Moved(node.device, device), Max(latest, capture.now), node.(device := device))
  {
    var ledger := node.device.ledger;
    TickTracks(events, node.handled, ledger, capture.now);
    OperationsStayBounded(ledger.clock, ledger.clock, capture.now, ops, Max(latest, capture.now));
  }

  lemma RecordedSound(events: EventLog, ops: nat, latest: nat, node: Node, device: D.Device, event: ClipboardEvent,
                      capture: D.Capture, captures: nat)
    requires NodeSound(events, ops, latest, node) && Recorded(node.device, device, event, capture)
    requires event.id !in events && ops + 2 <= MAX_LOGICAL
    ensures NodeSound(events[event.id := event], ops + 2, Max(latest, capture.now),
                      node.(device := device, handled := node.handled + {event.id}, captures := captures))
    ensures Bounded(event.timestamp, ops + 2, Max(latest, capture.now))
    ensures forall id :: id in node.handled ==> id in events && Less(events[id].timestamp, event.timestamp)
  {
    var ledger := node.device.ledger;
    var later := Max(latest, capture.now);
    var ticked := Ledger.NextTimestamp(ledger, capture.now);
    RecordTracks(events, node.handled, ledger, event, capture.now, capture.peers, capture.expiresAt);
    OperationsStayBounded(ledger.clock, ledger.clock, capture.now, ops, later);
    OperationsStayBounded(ticked.clock, event.timestamp, event.timestamp.physical, ops + 1, later);
    Ledger.OperationsKeepWindow(ticked, event, capture.now, capture.peers, capture.expiresAt);
  }

  lemma BookNothingSound(world: World, at: DeviceId, device: D.Device, capture: D.Capture, polled: nat)
    requires Sound(world) && at in world.nodes
    requires NotRecorded(world.nodes[at].device, device, capture)
    ensures Sound(Book(world, at, device, None, capture.id, capture.now, polled))
  {
    var after := Book(world, at, device, None, capture.id, capture.now, polled);
    NotRecordedSound(world.events, world.clockOps, world.latest, world.nodes[at], device, capture);
    OthersStaySound(world, after, at);
  }

  /** A new event comes after everything its origin had handled. */
  lemma NewEventSound(world: World, after: World, event: ClipboardEvent, handled: set<Uuid>)
    requires EventsSound(world) && event.id !in world.drawn
    requires forall id :: id in handled ==> id in world.events && Less(world.events[id].timestamp, event.timestamp)
    requires after.events == world.events[event.id := event] && after.past == world.past[event.id := handled]
    requires after.drawn == world.drawn + {event.id}
    requires world.clockOps <= after.clockOps && world.latest <= after.latest
    requires Bounded(event.timestamp, after.clockOps, after.latest)
    ensures EventsSound(after) && Extends(world.events, after.events)
  {
    forall id, earlier | id in after.past && earlier in after.past[id]
      ensures earlier in after.events && Less(after.events[earlier].timestamp, after.events[id].timestamp)
    {
      if id != event.id {
        assert id in world.past && earlier in world.past[id];
      }
    }
  }

  lemma BookEventSound(world: World, at: DeviceId, device: D.Device, event: ClipboardEvent, capture: D.Capture,
                       polled: nat)
    requires Sound(world) && at in world.nodes && capture.id !in world.drawn
    requires Recorded(world.nodes[at].device, device, event, capture)
    requires world.clockOps + 2 <= MAX_LOGICAL
    ensures Sound(Book(world, at, device, Some(event), capture.id, capture.now, polled))
  {
    var node := world.nodes[at];
    var after := Book(world, at, device, Some(event), capture.id, capture.now, polled);
    assert event.id == capture.id && event.id !in world.events;
    RecordedSound(world.events, world.clockOps, world.latest, node, device, event, capture, node.captures + polled);
    NewEventSound(world, after, event, node.handled);
    OthersStaySound(world, after, at);
  }

  lemma BookKeepsSound(world: World, at: DeviceId, device: D.Device, created: Option<ClipboardEvent>,
                       capture: D.Capture, polled: nat)
    requires Sound(world) && at in world.nodes && capture.id !in world.drawn
    requires match created
             case None => NotRecorded(world.nodes[at].device, device, capture)
             case Some(event) => Recorded(world.nodes[at].device, device, event, capture)
    requires Book(world, at, device, created, capture.id, capture.now, polled).clockOps <= MAX_LOGICAL
    ensures Sound(Book(world, at, device, created, capture.id, capture.now, polled))
  {
    match created {
      case None => BookNothingSound(world, at, device, capture, polled);
      case Some(event) => BookEventSound(world, at, device, event, capture, polled);
    }
  }

  lemma DeliveredSound(events: EventLog, ops: nat, latest: nat, node: Node, device: D.Device, event: ClipboardEvent,
                       now: Millis, handled: set<Uuid>, applied: set<Uuid>)
    requires NodeSound(events, ops, latest, node)
    requires event.id in events && events[event.id] == event && Bounded(event.timestamp, ops, latest)
    requires || (device.ledger == node.device.ledger && handled == node.handled)
             || (device.ledger == Ledger.Receive(node.device.ledger, event, now)
                 && (handled == node.handled + {event.id}
                     || (handled == node.handled && !Ledger.Preview(node.device.ledger, event).Apply?)))
    requires applied <= handled
    ensures NodeSound(events, ops + Moved(node.device, device), Max(latest, now),
                      node.(device := device, handled := handled, applied := applied))
  {
    var ledger := node.device.ledger;
    ReceiveTracks(events, node.handled, ledger, event, now);
    Ledger.OperationsKeepWindow(ledger, event, now, [], 0);
    OperationsStayBounded(ledger.clock, event.timestamp, now, ops, Max(latest, now));
  }

  /** One node changed and nothing was created. */
  lemma OneNodeSound(world: World, at: DeviceId, node: Node, clockOps: nat, latest: Millis)
    requires Sound(world) && at in world.nodes && world.clockOps <= clockOps && world.latest <= latest
    requires node.device.ledger.local == at && NodeSound(world.events, clockOps, latest, node)
    ensures Sound(world.(nodes := world.nodes[at := node], clockOps := clockOps, latest := latest))
  {
    OthersStaySound(world, world.(nodes := world.nodes[at := node], clockOps := clockOps, latest := latest), at);
  }

  lemma DeliverKeepsSound(build: D.Build, world: World, action: Action)
    requires build.debugAssertions
    requires Sound(world) && Enabled(world, action) && action.Deliver?
    ensures Sound(Step(build, world, action))
  {
    var node, event := world.nodes[action.at], world.events[action.id];
    var after := Step(build, world, action);
    var received := after.nodes[action.at];
    DeliverEffect(build, node.device, event, action.delivery, action.now, action.faults);
    DeliveredSound(world.events, world.clockOps, world.latest, node, received.device, event, action.now,
                   received.handled, received.applied);
    OneNodeSound(world, action.at, received, after.clockOps, after.latest);
  }

  /** Clock, window and winner depend on nothing but their own fields. */
  lemma SameViewSound(events: EventLog, clockOps: nat, latest: nat, node: Node, changed: Node)
    requires NodeSound(events, clockOps, latest, node)
    requires changed.device.ledger == node.device.ledger.(pending := changed.device.ledger.pending)
    requires changed.handled == node.handled && changed.applied == node.applied
    ensures NodeSound(events, clockOps, latest, changed)
  {
  }

  /** Copying, listing, acknowledging and tending the history leave clock, window and winner alone. */
  lemma QuietKeepsSound(build: D.Build, world: World, action: Action)
    requires Sound(world) && Enabled(world, action)
    requires !action.Poll? && !action.ShareFiles? && !action.Deliver?
    ensures Sound(Step(build, world, action))
  {
    var node, after := world.nodes[action.at], Step(build, world, action);
    var changed := after.nodes[action.at];
    SameViewSound(world.events, world.clockOps, world.latest, node, changed);
    OneNodeSound(world, action.at, changed, world.clockOps, world.latest);
  }

  lemma StepKeepsSound(build: D.Build, world: World, action: Action)
    requires build.debugAssertions
    requires Sound(world) && Enabled(world, action)
    requires Step(build, world, action).clockOps <= MAX_LOGICAL
    ensures Sound(Step(build, world, action))
  {
    if action.Poll? {
      PollKeepsSound(build, world, action);
    } else if action.ShareFiles? {
      ShareKeepsSound(build, world, action);
    } else if action.Deliver? {
      DeliverKeepsSound(build, world, action);
    } else {
      QuietKeepsSound(build, world, action);
    }
  }

  lemma PollKeepsSound(build: D.Build, world: World, action: Action)
    requires Sound(world) && Enabled(world, action) && action.Poll?
    requires Step(build, world, action).clockOps <= MAX_LOGICAL
    ensures Sound(Step(build, world, action))
  {
    var before := world.nodes[action.at].device;
    PollEffect(build, before, action.capture);
    var (device, result) := D.PollLocal(build, before, action.capture);
    BookKeepsSound(world, action.at, device, PollCreates(result), action.capture, 1);
  }

  lemma ShareKeepsSound(build: D.Build, world: World, action: Action)
    requires Sound(world) && Enabled(world, action) && action.ShareFiles?
    requires Step(build, world, action).clockOps <= MAX_LOGICAL
    ensures Sound(Step(build, world, action))
  {
    var before := world.nodes[action.at].device;
    ShareEffect(build, before, action.capture, action.paths, action.transferId);
    var (device, result) := D.RecordFiles(build, before, action.capture, action.paths, action.transferId);
    BookKeepsSound(world, action.at, device, ShareCreates(result), action.capture, 0);
  }

  lemma StepMonotone(build: D.Build, world: World, action: Action)
    requires Enabled(world, action)
    ensures world.clockOps <= Step(build, world, action).clockOps
    ensures Step(build, world, action).nodes.Keys == world.nodes.Keys
  {
  }

  lemma {:induction false} RunMonotone(build: D.Build, world: World, actions: seq<Action>)
    requires Possible(build, world, actions)
    ensures world.clockOps <= Run(build, world, actions).clockOps
    ensures Run(build, world, actions).nodes.Keys == world.nodes.Keys
    decreases |actions|
  {
    if actions != [] {
      StepMonotone(build, world, actions[0]);
      RunMonotone(build, Step(build, world, actions[0]), actions[1..]);
    }
  }

  lemma {:induction false} RunSound(build: D.Build, world: World, actions: seq<Action>)
    requires build.debugAssertions
    requires Sound(world) && Possible(build, world, actions)
    requires Run(build, world, actions).clockOps <= MAX_LOGICAL
    ensures Sound(Run(build, world, actions))
    decreases |actions|
  {
    if actions != [] {
      var next := Step(build, world, actions[0]);
      RunMonotone(build, next, actions[1..]);
      StepKeepsSound(build, world, actions[0]);
      RunSound(build, next, actions[1..]);
    }
  }
}

/** What an acknowledgement is worth: durability of handled events, and the commit of applied ones. */
module Commit {
  import opened Bytes
  import opened LossyText
  import opened Clock
  import opened ClipboardValue
  import opened ClipboardCodec
  import opened Events
  import opened HistoryStore
  import opened Cluster
  import opened Orderly
  import Ledger
  import D = Device

  // ---------- what a delivery brings ----------

  /** The value and the bytes that a delivery hands to the conflict decision, if it gets that far. */
  function Resolve(build: D.Build, event: ClipboardEvent, delivery: Delivery): Option<(Value, seq<byte>)> {
    match delivery
    case Offered => if event.content.Inline? then Decoded(build, event.format, event.content.bytes) else None
    case WithBlob(bytes) =>
      if event.content.Blob? && |bytes| == event.content.size && bytes == event.content.hash
      then Decoded(build, event.format, bytes) else None
    case WithFiles(transfer) =>
      if event.format == FilesFormat && event.origin == transfer.origin && event.content == Transfer(transfer.id)
         && Valid(Files([transfer.destination]))
      then Some((Files([transfer.destination]), PathRecords([transfer.destination]))) else None
  }

  function Decoded(build: D.Build, format: Format, bytes: seq<byte>): Option<(Value, seq<byte>)> {
    match DecodeValue(build.png, format, bytes)
    case Err(_) => None
    case Ok(value) => Some((value, bytes))
  }

  lemma DeliverIsReady(build: D.Build, device: D.Device, event: ClipboardEvent, delivery: Delivery, now: Millis,
                       faults: D.Faults)
    ensures var (after, result) := DeliverTo(build, device, event, delivery, now, faults);
            match Resolve(build, event, delivery)
            case Some((value, bytes)) =>
              (after, result) == D.ApplyReady(build, device, event, value, bytes, now, faults)
            case None => after == device && !(result.Ok? && D.ShouldAcknowledge(result.value))
  {
  }

  // ---------- when storing works ----------

  /** The guard of a stored row: the history accepts it, and the blob store its blob, if it has one. */
  predicate StorageWorks(format: Format, faults: D.Faults) {
    !faults.history && (format.TextFormat? || !faults.blob)
  }

  lemma ResolvedIsValid(build: D.Build, event: ClipboardEvent, delivery: Delivery)
    requires Resolve(build, event, delivery).Some?
    ensures Valid(Resolve(build, event, delivery).value.0)
  {
    var (value, bytes) := Resolve(build, event, delivery).value;
    DecodedIsValid(build.png, event.format, bytes);
  }

  lemma ResolvedIsStored(build: D.Build, device: D.Device, event: ClipboardEvent, delivery: Delivery, faults: D.Faults)
    requires Resolve(build, event, delivery).Some?
    ensures var (value, bytes) := Resolve(build, event, delivery).value;
            var (after, result) := D.Persist(build, device, event, bytes, Some(value), None, false, faults);
            && (result.Ok? <==> StorageWorks(event.format, faults))
            && after.ledger == device.ledger
            && after.history.Keys == (if result.Ok? then device.history.Keys + {event.id} else device.history.Keys)
  {
    ResolvedIsValid(build, event, delivery);
  }

  /** A delivery of a superseded event whose insertion fails. */
  predicate SupersedeFails(build: D.Build, device: D.Device, event: ClipboardEvent, delivery: Delivery,
                           faults: D.Faults)
  {
    && Resolve(build, event, delivery).Some? && Ledger.Preview(device.ledger, event).Superseded?
    && !StorageWorks(event.format, faults)
  }

  /** A delivery that stores its event: a new one that wins and can be written, or one that loses. */
  predicate DeliveryStores(build: D.Build, device: D.Device, event: ClipboardEvent, delivery: Delivery,
                           faults: D.Faults)
  {
    && Resolve(build, event, delivery).Some? && StorageWorks(event.format, faults)
    && match Ledger.Preview(device.ledger, event)
       case Duplicate => false
       case Superseded => true
       case Apply => !faults.write
  }

  /** What a delivery does to history and window. */
  predicate Effected(device: D.Device, event: ClipboardEvent, now: Millis, after: D.Device,
                     result: Result<D.SyncOutcome, D.SyncError>, stores: bool, supersedeFails: bool) {
    && after.history.Keys == (if stores then device.history.Keys + {event.id} else device.history.Keys)
    && (after.ledger == device.ledger
        || (after.ledger == Ledger.Receive(device.ledger, event, now)
            && (Ledger.Preview(device.ledger, event).Duplicate? || stores || supersedeFails)))
    && (result.Ok? && D.ShouldAcknowledge(result.value) ==> Ledger.Preview(device.ledger, event).Duplicate? || stores)
  }

  /** It is fixed by these guards. */
  predicate Outcome(build: D.Build, device: D.Device, event: ClipboardEvent, delivery: Delivery, now: Millis,
                    faults: D.Faults) {
    var (after, result) := DeliverTo(build, device, event, delivery, now, faults);
    Effected(device, event, now, after, result, DeliveryStores(build, device, event, delivery, faults),
             SupersedeFails(build, device, event, delivery, faults))
  }

  lemma ReadyEffected(build: D.Build, device: D.Device, event: ClipboardEvent, delivery: Delivery, now: Millis,
                      faults: D.Faults)
    requires Resolve(build, event, delivery).Some?
    ensures var (value, bytes) := Resolve(build, event, delivery).value;
            var (after, result) := D.ApplyReady(build, device, event, value, bytes, now, faults);
            Effected(device, event, now, after, result, DeliveryStores(build, device, event, delivery, faults),
                     SupersedeFails(build, device, event, delivery, faults))
  {
    var (value, bytes) := Resolve(build, event, delivery).value;
    ResolvedIsValid(build, event, delivery);
    var committed := device.(ledger := Ledger.Receive(device.ledger, event, now));
    ResolvedIsStored(build, committed, event, delivery, faults);
    ResolvedIsStored(build, D.Overwrite(device, value, faults.write).0, event, delivery, faults);
  }

  lemma DeliveryOutcome(build: D.Build, device: D.Device, event: ClipboardEvent, delivery: Delivery, now: Millis,
                        faults: D.Faults)
    ensures Outcome(build, device, event, delivery, now, faults)
  {
    DeliverIsReady(build, device, event, delivery, now, faults);
    if Resolve(build, event, delivery).Some? {
      ReadyEffected(build, device, event, delivery, now, faults);
    }
  }

  // ---------- the two exceptions, for one event ----------

  /** A superseded event is marked seen before it is stored. On redelivery it is acknowledged as a duplicate
      all the same, and it is in history exactly if storing worked. */
  lemma FailedSupersedeIsLost(build: D.Build, device: D.Device, event: ClipboardEvent, delivery: Delivery, now: Millis,
                              later: Millis, first: D.Faults, second: D.Faults)
    requires Ledger.Preview(device.ledger, event).Superseded? && device.ledger.capacity > 0
    requires event.id !in device.history && Resolve(build, event, delivery).Some?
    ensures var (once, answer) := DeliverTo(build, device, event, delivery, now, first);
            var (twice, again) := DeliverTo(build, once, event, delivery, later, second);
            && again == Ok(D.Duplicate) && D.ShouldAcknowledge(D.Duplicate)
            && (answer.Ok? <==> StorageWorks(event.format, first))
            && (event.id in twice.history <==> StorageWorks(event.format, first))
  {
    var committed := device.(ledger := Ledger.Receive(device.ledger, event, now));
    ResolvedIsStored(build, committed, event, delivery, first);
    DeliverIsReady(build, device, event, delivery, now, first);
    var once := DeliverTo(build, device, event, delivery, now, first).0;
    DeliverIsReady(build, once, event, delivery, later, second);
    MarkedIsSeen(device.ledger, event, now);
  }

  lemma MarkedIsSeen(ledger: Ledger.State, event: ClipboardEvent, now: Millis)
    requires !Ledger.Preview(ledger, event).Duplicate? && ledger.capacity > 0
    ensures event.id in Ledger.Receive(ledger, event, now).seen
  {
    var clocked := ledger.(clock := Clock.Receive(ledger.clock, event.timestamp, now));
    var newest := Ledger.Newest(clocked.order + [event.id], clocked.capacity);
    assert newest[|newest| - 1] == event.id;
    assert event.id in Ledger.MarkSeen(clocked, event.id).seen;
  }

  /** The commit of an applied event sits inside a debug assertion: where assertions are compiled out,
      and only there, an applied event is applied again on redelivery. */
  lemma AppliedAgainUnlessCommitted(build: D.Build, device: D.Device, event: ClipboardEvent, value: Value,
                                    bytes: seq<byte>, now: Millis, later: Millis, faults: D.Faults)
    requires D.ApplyReady(build, device, event, value, bytes, now, faults).1 == Ok(D.Applied)
    ensures var once := D.ApplyReady(build, device, event, value, bytes, now, faults).0;
            D.ApplyReady(build, once, event, value, bytes, later, faults).1 == Ok(D.Applied) <==> !build.debugAssertions
  {
    var written := D.Overwrite(device, value, faults.write).0;
    PersistKeepsLedger(build, written, event, bytes, Some(value), None, false, faults);
    var once := D.ApplyReady(build, device, event, value, bytes, now, faults).0;
    if build.debugAssertions {
      assert once.ledger == Ledger.Receive(device.ledger, event, now);
      assert once.ledger.current == Some(StampOf(event));
    }
  }

  // ---------- whole runs ----------

  /** Entries in history, and those its user deleted. */
  function Stored(node: Node): set<Uuid> {
    node.device.history.Keys + node.discarded
  }

  /** Whether the insertion of `id` as a superseded event on `d` is lost after this action: it just failed
      with nothing stored before, or it was lost and this action does not store it. */
  function LostNow(build: D.Build, world: World, action: Action, d: DeviceId, id: Uuid, lost: bool): bool
    requires Enabled(world, action) && d in world.nodes
  {
    if !action.Deliver? || action.at != d || action.id != id then lost
    else
      var device, event := world.nodes[d].device, world.events[id];
      if SupersedeFails(build, device, event, action.delivery, action.faults) then id !in Stored(world.nodes[d])
      else lost && !DeliveryStores(build, device, event, action.delivery, action.faults)
  }

  function Lost(build: D.Build, world: World, actions: seq<Action>, d: DeviceId, id: Uuid, lost: bool): bool
    requires Possible(build, world, actions) && d in world.nodes
    decreases |actions|
  {
    if actions == [] then lost
    else
      NodesStay(build, world, actions[0]);
      Lost(build, Step(build, world, actions[0]), actions[1..], d, id, LostNow(build, world, actions[0], d, id, lost))
  }

  lemma NodesStay(build: D.Build, world: World, action: Action)
    requires Enabled(world, action)
    ensures Step(build, world, action).nodes.Keys == world.nodes.Keys
  {
  }

  ghost predicate Accounted(world: World, d: DeviceId, id: Uuid, lost: bool)
    requires d in world.nodes
  {
    var node := world.nodes[d];
    && (lost ==> id !in Stored(node) && id in world.events)
    && ((id in node.device.ledger.seen || id in node.handled) && id !in Stored(node) ==> lost)
  }

  lemma ReceivedIds(ledger: Ledger.State, event: ClipboardEvent, now: Millis)
    requires Ledger.Windowed(ledger)
    ensures Ledger.Receive(ledger, event, now).seen <= ledger.seen + {event.id}
    ensures Ledger.Preview(ledger, event).Duplicate? ==> Ledger.Receive(ledger, event, now).seen == ledger.seen
  {
    var clocked := ledger.(clock := Clock.Receive(ledger.clock, event.timestamp, now));
    Ledger.MarkSeenKeepsWindow(clocked, event.id);
  }

  lemma DeliverAccounted(build: D.Build, world: World, action: Action, d: DeviceId, id: Uuid, lost: bool)
    requires InOrder(world) && Enabled(world, action) && action.Deliver? && action.at == d && d in world.nodes
    requires Accounted(world, d, id, lost)
    ensures var after := Step(build, world, action);
            d in after.nodes && Accounted(after, d, id, LostNow(build, world, action, d, id, lost))
  {
    var device, event := world.nodes[d].device, world.events[action.id];
    DeliveryOutcome(build, device, event, action.delivery, action.now, action.faults);
    ReceivedIds(device.ledger, event, action.now);
  }

  lemma CaptureHistory(build: D.Build, device: D.Device, capture: D.Capture)
    ensures var (after, result) := D.PollLocal(build, device, capture);
            && device.history.Keys <= after.history.Keys <= device.history.Keys + {capture.id}
            && (PollCreates(result).Some? ==> capture.id in after.history)
  {
  }

  lemma CaptureStored(build: D.Build, device: D.Device, capture: D.Capture)
    requires Ledger.Windowed(device.ledger)
    ensures var (after, result) := D.PollLocal(build, device, capture);
            && device.history.Keys <= after.history.Keys <= device.history.Keys + {capture.id}
            && (PollCreates(result).Some? ==> capture.id in after.history)
            && after.ledger.seen <= device.ledger.seen + (if PollCreates(result).Some? then {capture.id} else {})
  {
    CaptureHistory(build, device, capture);
    PollEffect(build, device, capture);
    var (after, result) := D.PollLocal(build, device, capture);
    SeenAfter(device, after, PollCreates(result), capture);
  }

  lemma ShareStored(build: D.Build, device: D.Device, capture: D.Capture, paths: seq<Path>, transferId: TransferId)
    requires Ledger.Windowed(device.ledger)
    ensures var (after, result) := D.RecordFiles(build, device, capture, paths, transferId);
            && device.history.Keys <= after.history.Keys <= device.history.Keys + {capture.id}
            && (ShareCreates(result).Some? ==> capture.id in after.history)
            && after.ledger.seen <= device.ledger.seen + (if ShareCreates(result).Some? then {capture.id} else {})
  {
    ShareEffect(build, device, capture, paths, transferId);
    var (after, result) := D.RecordFiles(build, device, capture, paths, transferId);
    SeenAfter(device, after, ShareCreates(result), capture);
  }

  lemma SeenAfter(device: D.Device, after: D.Device, created: Option<ClipboardEvent>, capture: D.Capture)
    requires Ledger.Windowed(device.ledger)
    requires match created
             case None => NotRecorded(device, after, capture)
             case Some(event) => Recorded(device, after, event, capture)
    ensures after.ledger.seen <= device.ledger.seen + (if created.Some? then {capture.id} else {})
  {
    RecordedIds(Ledger.NextTimestamp(device.ledger, capture.now), capture);
  }

  lemma RecordedIds(ledger: Ledger.State, capture: D.Capture)
    requires Ledger.Windowed(ledger)
    ensures forall event: ClipboardEvent :: event.origin == ledger.local && event.id == capture.id ==>
              Ledger.RecordLocal(ledger, event, capture.peers, capture.expiresAt).seen <= ledger.seen + {capture.id}
  {
    forall event: ClipboardEvent | event.origin == ledger.local && event.id == capture.id
      ensures Ledger.RecordLocal(ledger, event, capture.peers, capture.expiresAt).seen <= ledger.seen + {capture.id}
    {
      var clocked := ledger.(clock := Clock.Receive(ledger.clock, event.timestamp, event.timestamp.physical));
      Ledger.MarkSeenKeepsWindow(clocked, event.id);
    }
  }

  /** Storing and booking one local event, or only part of that. */
  lemma BookAccounted(world: World, at: DeviceId, after: D.Device, created: Option<ClipboardEvent>, capture: D.Capture,
                      polled: nat, d: DeviceId, id: Uuid, lost: bool)
    requires at in world.nodes && d in world.nodes && Accounted(world, d, id, lost) && capture.id !in world.events
    requires created.Some? ==> created.value.id == capture.id && capture.id in after.history
    requires var device := world.nodes[at].device;
             && device.history.Keys <= after.history.Keys <= device.history.Keys + {capture.id}
             && after.ledger.seen <= device.ledger.seen + (if created.Some? then {capture.id} else {})
    ensures var booked := Book(world, at, after, created, capture.id, capture.now, polled);
            d in booked.nodes && Accounted(booked, d, id, lost)
  {
  }

  lemma PollAccounted(build: D.Build, world: World, action: Action, d: DeviceId, id: Uuid, lost: bool)
    requires InOrder(world) && Enabled(world, action) && action.Poll? && d in world.nodes
    requires Accounted(world, d, id, lost)
    ensures var after := Step(build, world, action);
            d in after.nodes && Accounted(after, d, id, lost)
  {
    var device, capture := world.nodes[action.at].device, action.capture;
    PollEffect(build, device, capture);
    CaptureStored(build, device, capture);
    var (after, result) := D.PollLocal(build, device, capture);
    BookAccounted(world, action.at, after, PollCreates(result), capture, 1, d, id, lost);
  }

  lemma ShareAccounted(build: D.Build, world: World, action: Action, d: DeviceId, id: Uuid, lost: bool)
    requires InOrder(world) && Enabled(world, action) && action.ShareFiles? && d in world.nodes
    requires Accounted(world, d, id, lost)
    ensures var after := Step(build, world, action);
            d in after.nodes && Accounted(after, d, id, lost)
  {
    var device, capture := world.nodes[action.at].device, action.capture;
    ShareEffect(build, device, capture, action.paths, action.transferId);
    ShareStored(build, device, capture, action.paths, action.transferId);
    var (after, result) := D.RecordFiles(build, device, capture, action.paths, action.transferId);
    BookAccounted(world, action.at, after, ShareCreates(result), capture, 0, d, id, lost);
  }

  /** The other actions, and deliveries elsewhere. */
  lemma QuietAccounted(build: D.Build, world: World, action: Action, d: DeviceId, id: Uuid, lost: bool)
    requires Enabled(world, action) && d in world.nodes && Accounted(world, d, id, lost)
    requires !action.Poll? && !action.ShareFiles? && (action.Deliver? ==> action.at != d)
    ensures var after := Step(build, world, action);
            d in after.nodes && Accounted(after, d, id, LostNow(build, world, action, d, id, lost))
  {
  }

  lemma StepAccounted(build: D.Build, world: World, action: Action, d: DeviceId, id: Uuid, lost: bool)
    requires InOrder(world) && Enabled(world, action) && d in world.nodes && Accounted(world, d, id, lost)
    ensures var after := Step(build, world, action);
            d in after.nodes && Accounted(after, d, id, LostNow(build, world, action, d, id, lost))
  {
    if action.Poll? {
      PollAccounted(build, world, action, d, id, lost);
    } else if action.ShareFiles? {
      ShareAccounted(build, world, action, d, id, lost);
    } else if action.Deliver? && action.at == d {
      DeliverAccounted(build, world, action, d, id, lost);
    } else {
      QuietAccounted(build, world, action, d, id, lost);
    }
  }

  lemma {:induction false} RunAccounted(build: D.Build, world: World, actions: seq<Action>, d: DeviceId, id: Uuid,
                                        lost: bool)
    requires InOrder(world) && Possible(build, world, actions) && d in world.nodes && Accounted(world, d, id, lost)
    ensures var end := Run(build, world, actions);
            d in end.nodes && Accounted(end, d, id, Lost(build, world, actions, d, id, lost))
    decreases |actions|
  {
    if actions != [] {
      StepAccounted(build, world, actions[0], d, id, lost);
      StepOrderly(build, world, actions[0]);
      RunAccounted(build, Step(build, world, actions[0]), actions[1..], d, id,
                   LostNow(build, world, actions[0], d, id, lost));
    }
  }

  /** In every run of every build, with any faults: an event that a device recorded or acknowledged is
      missing, neither in its history nor deleted by its user, exactly when its insertion as a superseded
      event failed and no delivery has stored it since. */
  lemma MissingIffLost(build: D.Build, start: World, actions: seq<Action>, d: DeviceId, id: Uuid)
    requires Initial(start) && Possible(build, start, actions) && d in start.nodes
    ensures var end := Run(build, start, actions);
            && d in end.nodes
            && (id in end.nodes[d].handled ==>
                  (id !in Stored(end.nodes[d]) <==> Lost(build, start, actions, d, id, false)))
  {
    InitialOrderly(start);
    RunAccounted(build, start, actions, d, id, false);
  }

  /** No storage fault at a delivery to `d`. */
  predicate HealthyAt(action: Action, d: DeviceId) {
    action.Deliver? && action.at == d ==> !action.faults.blob && !action.faults.history
  }

  lemma {:induction false} HealthyLosesNothing(build: D.Build, world: World, actions: seq<Action>, d: DeviceId,
                                               id: Uuid)
    requires Possible(build, world, actions) && d in world.nodes
    requires forall a :: a in actions ==> HealthyAt(a, d)
    ensures !Lost(build, world, actions, d, id, false)
    decreases |actions|
  {
    if actions != [] {
      NodesStay(build, world, actions[0]);
      assert HealthyAt(actions[0], d);
      HealthyLosesNothing(build, Step(build, world, actions[0]), actions[1..], d, id);
    }
  }

  /** So while storage works on a device, whatever happens on the others, every event it recorded or
      answered with an acknowledgement is in its history until its user deletes it. */
  lemma AcknowledgedIsDurable(build: D.Build, start: World, actions: seq<Action>, d: DeviceId)
    requires Initial(start) && Possible(build, start, actions) && d in start.nodes
    requires forall a :: a in actions ==> HealthyAt(a, d)
    ensures var end := Run(build, start, actions);
            d in end.nodes && end.nodes[d].handled <= Stored(end.nodes[d])
  {
    RunMonotone(build, start, actions);
    var end := Run(build, start, actions);
    forall id | id in end.nodes[d].handled ensures id in Stored(end.nodes[d]) {
      HealthyLosesNothing(build, start, actions, d, id);
      MissingIffLost(build, start, actions, d, id);
    }
  }
}

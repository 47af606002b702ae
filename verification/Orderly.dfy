/** What every build keeps in every run, however long: exact seen windows, and counters and times bounded by
    what happened. */
module Orderly {
  import opened Bytes
  import opened Clock
  import opened ClipboardValue
  import opened Events
  import opened Winner
  import opened Cluster
  import Ledger
  import D = Device

  ghost predicate NodeOrderly(clockOps: nat, latest: nat, d: DeviceId, node: Node) {
    var ledger := node.device.ledger;
    ledger.local == d && Ledger.Windowed(ledger) && Bounded(ledger.clock, clockOps, latest)
  }

  ghost predicate InOrder(world: World) {
    && Keyed(world.events) && world.events.Keys <= world.drawn
    && (forall id :: id in world.events ==> Bounded(world.events[id].timestamp, world.clockOps, world.latest))
    && (forall d :: d in world.nodes ==> NodeOrderly(world.clockOps, world.latest, d, world.nodes[d]))
  }

  lemma InitialOrderly(world: World)
    requires Initial(world)
    ensures InOrder(world)
  {
  }

  /** Whatever the build, a delivery leaves the ledger alone or receives the event. */
  lemma DeliveredLedger(build: D.Build, device: D.Device, event: ClipboardEvent, delivery: Delivery, now: Millis,
                        faults: D.Faults)
    ensures var after := DeliverTo(build, device, event, delivery, now, faults).0;
            after.ledger == device.ledger || after.ledger == Ledger.Receive(device.ledger, event, now)
  {
    forall value, bytes {
      ReadyLedger(build, device, event, value, bytes, now, faults);
    }
  }

  lemma ReadyLedger(build: D.Build, device: D.Device, event: ClipboardEvent, value: Value, bytes: seq<byte>,
                    now: Millis, faults: D.Faults)
    ensures var after := D.ApplyReady(build, device, event, value, bytes, now, faults).0;
            after.ledger == device.ledger || after.ledger == Ledger.Receive(device.ledger, event, now)
  {
    var committed := device.(ledger := Ledger.Receive(device.ledger, event, now));
    PersistKeepsLedger(build, committed, event, bytes, Some(value), None, false, faults);
    PersistKeepsLedger(build, D.Overwrite(device, value, faults.write).0, event, bytes, Some(value), None, false,
                       faults);
  }

  lemma ReceivedOrderly(clockOps: nat, latest: nat, d: DeviceId, node: Node, changed: Node, event: ClipboardEvent,
                        now: Millis)
    requires NodeOrderly(clockOps, latest, d, node) && Bounded(event.timestamp, clockOps, latest)
    requires changed.device.ledger == node.device.ledger
             || changed.device.ledger == Ledger.Receive(node.device.ledger, event, now)
    ensures NodeOrderly(clockOps + Moved(node.device, changed.device), Max(latest, now), d, changed)
  {
    var ledger := node.device.ledger;
    Ledger.OperationsKeepWindow(ledger, event, now, [], 0);
    OperationsStayBounded(ledger.clock, event.timestamp, now, clockOps, Max(latest, now));
  }

  lemma TickedOrderly(clockOps: nat, latest: nat, d: DeviceId, node: Node, device: D.Device, capture: D.Capture)
    requires NodeOrderly(clockOps, latest, d, node) && NotRecorded(node.device, device, capture)
    ensures NodeOrderly(clockOps + Moved(node.device, device), Max(latest, capture.now), d, node.(device := device))
  {
    var ledger := node.device.ledger;
    OperationsStayBounded(ledger.clock, ledger.clock, capture.now, clockOps, Max(latest, capture.now));
  }

  lemma RecordedOrderly(clockOps: nat, latest: nat, d: DeviceId, node: Node, changed: Node, event: ClipboardEvent,
                        capture: D.Capture)
    requires NodeOrderly(clockOps, latest, d, node) && Recorded(node.device, changed.device, event, capture)
    ensures NodeOrderly(clockOps + 2, Max(latest, capture.now), d, changed)
    ensures Bounded(event.timestamp, clockOps + 2, Max(latest, capture.now))
  {
    var ledger, later := node.device.ledger, Max(latest, capture.now);
    var ticked := Ledger.NextTimestamp(ledger, capture.now);
    OperationsStayBounded(ledger.clock, ledger.clock, capture.now, clockOps, later);
    OperationsStayBounded(ticked.clock, event.timestamp, event.timestamp.physical, clockOps + 1, later);
    Ledger.OperationsKeepWindow(ticked, event, capture.now, capture.peers, capture.expiresAt);
  }

  lemma BookOrderly(world: World, at: DeviceId, device: D.Device, created: Option<ClipboardEvent>, capture: D.Capture,
                    polled: nat)
    requires InOrder(world) && at in world.nodes
    requires match created
             case None => NotRecorded(world.nodes[at].device, device, capture)
             case Some(event) => Recorded(world.nodes[at].device, device, event, capture)
    ensures InOrder(Book(world, at, device, created, capture.id, capture.now, polled))
  {
    var node, after := world.nodes[at], Book(world, at, device, created, capture.id, capture.now, polled);
    match created {
      case None => TickedOrderly(world.clockOps, world.latest, at, node, device, capture);
      case Some(event) =>
        RecordedOrderly(world.clockOps, world.latest, at, node, after.nodes[at], event, capture);
    }
  }

  lemma DeliverOrderly(build: D.Build, world: World, action: Action)
    requires InOrder(world) && Enabled(world, action) && action.Deliver?
    ensures InOrder(Step(build, world, action))
  {
    var node, event := world.nodes[action.at], world.events[action.id];
    var changed := Step(build, world, action).nodes[action.at];
    DeliveredLedger(build, node.device, event, action.delivery, action.now, action.faults);
    ReceivedOrderly(world.clockOps, world.latest, action.at, node, changed, event, action.now);
  }

  lemma PollOrderly(build: D.Build, world: World, action: Action)
    requires InOrder(world) && Enabled(world, action) && action.Poll?
    ensures InOrder(Step(build, world, action))
  {
    var device, capture := world.nodes[action.at].device, action.capture;
    PollEffect(build, device, capture);
    var (after, result) := D.PollLocal(build, device, capture);
    BookOrderly(world, action.at, after, PollCreates(result), capture, 1);
  }

  lemma ShareOrderly(build: D.Build, world: World, action: Action)
    requires InOrder(world) && Enabled(world, action) && action.ShareFiles?
    ensures InOrder(Step(build, world, action))
  {
    var device, capture := world.nodes[action.at].device, action.capture;
    ShareEffect(build, device, capture, action.paths, action.transferId);
    var (after, result) := D.RecordFiles(build, device, capture, action.paths, action.transferId);
    BookOrderly(world, action.at, after, ShareCreates(result), capture, 0);
  }

  lemma StepOrderly(build: D.Build, world: World, action: Action)
    requires InOrder(world) && Enabled(world, action)
    ensures InOrder(Step(build, world, action))
  {
    match action {
      case Poll(_, _) => PollOrderly(build, world, action);
      case ShareFiles(_, _, _, _) => ShareOrderly(build, world, action);
      case Deliver(_, _, _, _, _) => DeliverOrderly(build, world, action);
      case _ => QuietOrderly(build, world, action);
    }
  }

  lemma QuietOrderly(build: D.Build, world: World, action: Action)
    requires InOrder(world) && Enabled(world, action) && !action.Poll? && !action.ShareFiles? && !action.Deliver?
    ensures InOrder(Step(build, world, action))
  {
    var before, after := world.nodes[action.at], Step(build, world, action).nodes[action.at];
    assert after.device.ledger == before.device.ledger.(pending := after.device.ledger.pending);
  }

  lemma {:induction false} RunOrderly(build: D.Build, world: World, actions: seq<Action>)
    requires InOrder(world) && Possible(build, world, actions)
    ensures InOrder(Run(build, world, actions))
    decreases |actions|
  {
    if actions != [] {
      StepOrderly(build, world, actions[0]);
      RunOrderly(build, Step(build, world, actions[0]), actions[1..]);
    }
  }

  // ---------- nothing saturates within the bound ----------

  /** The world after the first `count` actions. */
  function Along(build: D.Build, world: World, actions: seq<Action>, count: nat): World
    requires Possible(build, world, actions) && count <= |actions|
    decreases count
  {
    if count == 0 then world else Along(build, Step(build, world, actions[0]), actions[1..], count - 1)
  }

  lemma {:induction false} AlongOrderly(build: D.Build, world: World, actions: seq<Action>, count: nat)
    requires InOrder(world) && Possible(build, world, actions) && count <= |actions|
    ensures InOrder(Along(build, world, actions, count))
    decreases count
  {
    if count > 0 {
      StepOrderly(build, world, actions[0]);
      AlongOrderly(build, Step(build, world, actions[0]), actions[1..], count - 1);
    }
  }

  lemma {:induction false} AlongMonotone(build: D.Build, world: World, actions: seq<Action>, count: nat)
    requires Possible(build, world, actions) && count <= |actions|
    ensures Along(build, world, actions, count).clockOps <= Run(build, world, actions).clockOps
    decreases count
  {
    if count == 0 {
      RunMonotone(build, world, actions);
    } else {
      AlongMonotone(build, Step(build, world, actions[0]), actions[1..], count - 1);
    }
  }

  /** Every counter is below its maximum: the next `saturating_add` on it adds one. */
  ghost predicate Unsaturated(world: World) {
    && (forall d :: d in world.nodes ==> Bump(world.nodes[d].device.ledger.clock.logical)
                                         == world.nodes[d].device.ledger.clock.logical + 1)
    && (forall id :: id in world.events ==>
         Bump(world.events[id].timestamp.logical) == world.events[id].timestamp.logical + 1)
  }

  /** In an unsaturated world every tick and every receipt that could come next moves strictly forward. */
  lemma UnsaturatedAdvances(world: World, d: DeviceId, id: Uuid, now: Millis)
    requires Unsaturated(world) && d in world.nodes
    ensures var clock := world.nodes[d].device.ledger.clock;
            && Less(clock, Tick(clock, now))
            && (id in world.events ==>
                  var remote := world.events[id].timestamp;
                  Less(clock, Receive(clock, remote, now)) && Less(remote, Receive(clock, remote, now)))
  {
    var clock := world.nodes[d].device.ledger.clock;
    TickAdvances(clock, now);
    if id in world.events {
      ReceiveAdvances(clock, world.events[id].timestamp, now);
    }
  }
}

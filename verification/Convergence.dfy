/** Whole-run theorems about the replicated clipboard: convergence, causality, at-most-once
    application and the absence of echoes. */
module Convergence {
  import opened Bytes
  import opened LossyText
  import opened Clock
  import opened ClipboardValue
  import opened Events
  import opened Winner
  import opened Cluster
  import opened Orderly
  import Ledger
  import D = Device

  /** A world reached from fresh devices by a possible run, with at most 2^32 - 1 clock operations. */
  ghost predicate Reached(build: D.Build, start: World, actions: seq<Action>) {
    && build.debugAssertions
    && Initial(start) && Possible(build, start, actions)
    && Run(build, start, actions).clockOps <= MAX_LOGICAL
  }

  /** Every device's `current` is the greatest event it handled, and nothing when it handled none. */
  lemma CurrentIsMaximum(build: D.Build, start: World, actions: seq<Action>, d: DeviceId)
    requires Reached(build, start, actions) && d in start.nodes
    ensures var end := Run(build, start, actions);
            && d in end.nodes
            && (forall id :: id in end.nodes[d].handled ==> id in end.events)
            && match end.nodes[d].device.ledger.current
               case None => end.nodes[d].handled == {}
               case Some(winner) => IsMaximum(end.events, end.nodes[d].handled, winner)
  {
    InitialSound(start);
    RunSound(build, start, actions);
    RunMonotone(build, start, actions);
  }

  /** Devices that handled the same events agree on the winner, however differently they got there. */
  lemma Converges(build: D.Build, start: World, actions: seq<Action>, a: DeviceId, b: DeviceId)
    requires Reached(build, start, actions) && a in start.nodes && b in start.nodes
    ensures var end := Run(build, start, actions);
            && a in end.nodes && b in end.nodes
            && (end.nodes[a].handled == end.nodes[b].handled ==>
                  end.nodes[a].device.ledger.current == end.nodes[b].device.ledger.current)
  {
    CurrentIsMaximum(build, start, actions, a);
    CurrentIsMaximum(build, start, actions, b);
    var end := Run(build, start, actions);
    var x, y := end.nodes[a].device.ledger.current, end.nodes[b].device.ledger.current;
    if end.nodes[a].handled == end.nodes[b].handled && x.Some? && y.Some? {
      MaximumUnique(end.events, end.nodes[a].handled, x.value, y.value);
    }
  }

  /** The seen window is exactly its duplicate-free order, never longer than its capacity: in every build,
      in every run, however long, and for every capacity. */
  lemma WindowExact(build: D.Build, start: World, actions: seq<Action>, d: DeviceId)
    requires Initial(start) && Possible(build, start, actions) && d in start.nodes
    ensures var end := Run(build, start, actions);
            d in end.nodes && Ledger.Windowed(end.nodes[d].device.ledger)
  {
    InitialOrderly(start);
    RunOrderly(build, start, actions);
    RunMonotone(build, start, actions);
  }

  // ---------- causality ----------

  /** Each event's origin had handled the one before it when it created it. */
  ghost predicate CausalChain(world: World, chain: seq<Uuid>) {
    && |chain| > 0
    && (forall i :: 0 <= i < |chain| ==> chain[i] in world.past)
    && forall i :: 0 < i < |chain| ==> chain[i - 1] in world.past[chain[i]]
  }

  lemma {:induction false} ChainIncreases(world: World, chain: seq<Uuid>)
    requires Sound(world) && CausalChain(world, chain) && |chain| > 1
    ensures chain[0] in world.events && chain[|chain| - 1] in world.events
    ensures Less(world.events[chain[0]].timestamp, world.events[chain[|chain| - 1]].timestamp)
  {
    var last := |chain| - 1;
    assert chain[last - 1] in world.past[chain[last]];
    if last > 1 {
      ChainIncreases(world, chain[..last]);
    }
  }

  /** Timestamps respect causality through any chain of devices. */
  lemma CausalityRespected(build: D.Build, start: World, actions: seq<Action>, chain: seq<Uuid>)
    requires Reached(build, start, actions)
    requires CausalChain(Run(build, start, actions), chain) && |chain| > 1
    ensures var end := Run(build, start, actions);
            && chain[0] in end.events && chain[|chain| - 1] in end.events
            && Less(end.events[chain[0]].timestamp, end.events[chain[|chain| - 1]].timestamp)
  {
    InitialSound(start);
    RunSound(build, start, actions);
    ChainIncreases(Run(build, start, actions), chain);
  }

  /** In every build and every run no logical counter exceeds the number of clock operations in the whole
      system, and no physical time exceeds the largest clock reading. */
  lemma CountersBounded(build: D.Build, start: World, actions: seq<Action>)
    requires Initial(start) && Possible(build, start, actions)
    ensures var end := Run(build, start, actions);
            && (forall d :: d in end.nodes ==> Bounded(end.nodes[d].device.ledger.clock, end.clockOps, end.latest))
            && (forall id :: id in end.events ==> Bounded(end.events[id].timestamp, end.clockOps, end.latest))
  {
    InitialOrderly(start);
    RunOrderly(build, start, actions);
  }

  /** So in a run of fewer than 2^32 - 1 clock operations no counter saturates at any point: each
      `saturating_add` adds one, and every operation moves strictly forward. */
  lemma NothingSaturates(build: D.Build, start: World, actions: seq<Action>, count: nat)
    requires Initial(start) && Possible(build, start, actions) && count <= |actions|
    requires Run(build, start, actions).clockOps < MAX_LOGICAL
    ensures Unsaturated(Along(build, start, actions, count))
    ensures forall d, now: Millis :: d in Along(build, start, actions, count).nodes ==>
              var clock := Along(build, start, actions, count).nodes[d].device.ledger.clock;
              Less(clock, Tick(clock, now))
  {
    InitialOrderly(start);
    AlongOrderly(build, start, actions, count);
    AlongMonotone(build, start, actions, count);
    var world := Along(build, start, actions, count);
    forall d, now: Millis | d in world.nodes
      ensures var clock := world.nodes[d].device.ledger.clock; Less(clock, Tick(clock, now))
    {
      UnsaturatedAdvances(world, d, 0, now);
    }
  }

  // ---------- applied at most once ----------

  /** 1 when this action delivers `id` to `d` and the answer is `Applied`. */
  function AppliedNow(build: D.Build, world: World, action: Action, d: DeviceId, id: Uuid): nat
    requires Enabled(world, action)
  {
    if action.Deliver? && action.at == d && action.id == id
       && DeliverTo(build, world.nodes[d].device, world.events[id], action.delivery, action.now, action.faults).1
            == Ok(D.Applied)
    then 1 else 0
  }

  function TimesApplied(build: D.Build, world: World, actions: seq<Action>, d: DeviceId, id: Uuid): nat
    requires Possible(build, world, actions)
    decreases |actions|
  {
    if actions == [] then 0
    else AppliedNow(build, world, actions[0], d, id)
         + TimesApplied(build, Step(build, world, actions[0]), actions[1..], d, id)
  }

  lemma ApplyNeedsNewer(build: D.Build, world: World, action: Action)
    requires build.debugAssertions
    requires Sound(world) && Enabled(world, action) && action.Deliver?
    requires AppliedNow(build, world, action, action.at, action.id) == 1
    ensures action.id !in world.nodes[action.at].applied
  {
    var node, event := world.nodes[action.at], world.events[action.id];
    DeliverEffect(build, node.device, event, action.delivery, action.now, action.faults);
  }

  lemma AppliedIsRemembered(build: D.Build, world: World, action: Action, d: DeviceId, id: Uuid)
    requires Enabled(world, action) && d in world.nodes
    ensures d in Step(build, world, action).nodes
    ensures id in Step(build, world, action).nodes[d].applied
            <==> id in world.nodes[d].applied || AppliedNow(build, world, action, d, id) == 1
  {
  }

  lemma {:induction false} AppliedOnceFrom(build: D.Build, world: World, actions: seq<Action>, d: DeviceId, id: Uuid)
    requires build.debugAssertions
    requires Sound(world) && Possible(build, world, actions) && d in world.nodes
    requires Run(build, world, actions).clockOps <= MAX_LOGICAL
    ensures TimesApplied(build, world, actions, d, id) <= if id in world.nodes[d].applied then 0 else 1
    decreases |actions|
  {
    if actions != [] {
      var action, next := actions[0], Step(build, world, actions[0]);
      RunMonotone(build, next, actions[1..]);
      StepKeepsSound(build, world, action);
      AppliedIsRemembered(build, world, action, d, id);
      if AppliedNow(build, world, action, d, id) == 1 {
        ApplyNeedsNewer(build, world, action);
      }
      AppliedOnceFrom(build, next, actions[1..], d, id);
    }
  }

  /** However often an event is redelivered, and even after it left the seen window, a device applies
      it at most once. */
  lemma AppliedAtMostOnce(build: D.Build, start: World, actions: seq<Action>, d: DeviceId, id: Uuid)
    requires Reached(build, start, actions) && d in start.nodes
    ensures TimesApplied(build, start, actions, d, id) <= 1
  {
    InitialSound(start);
    AppliedOnceFrom(build, start, actions, d, id);
  }

  // ---------- no echo ----------

  /** A clipboard change that a poll would report. */
  predicate Unobserved(device: D.Device) {
    device.clipboard.Some? && DigestOf(device.clipboard.value).Some?
    && device.lastDigest != DigestOf(device.clipboard.value)
  }

  predicate NoEcho(node: Node) {
    node.captures + (if Unobserved(node.device) then 1 else 0) <= node.copies
  }

  /** A poll that creates an event uses up an unobserved change; no poll makes one. */
  lemma PollEdge(build: D.Build, device: D.Device, capture: D.Capture)
    ensures var (after, result) := D.PollLocal(build, device, capture);
            && (Unobserved(after) ==> Unobserved(device))
            && (PollCreates(result).Some? ==> Unobserved(device) && !Unobserved(after))
  {
  }

  lemma ShareEdge(build: D.Build, device: D.Device, capture: D.Capture, paths: seq<Path>, transferId: TransferId)
    ensures Unobserved(D.RecordFiles(build, device, capture, paths, transferId).0) == Unobserved(device)
  {
  }

  lemma PersistEdge(build: D.Build, device: D.Device, event: ClipboardEvent, bytes: seq<byte>, decoded: Option<Value>,
                    faults: D.Faults)
    ensures var after := D.Persist(build, device, event, bytes, decoded, None, false, faults).0;
            && after.clipboard == device.clipboard && after.lastDigest == device.lastDigest
            && after.ledger == device.ledger
  {
  }

  lemma ReadyEdge(build: D.Build, device: D.Device, event: ClipboardEvent, value: Value, bytes: seq<byte>, now: Millis,
                  faults: D.Faults)
    ensures Unobserved(D.ApplyReady(build, device, event, value, bytes, now, faults).0) ==> Unobserved(device)
  {
    var committed := device.(ledger := Ledger.Receive(device.ledger, event, now));
    PersistEdge(build, committed, event, bytes, Some(value), faults);
    PersistEdge(build, D.Overwrite(device, value, faults.write).0, event, bytes, Some(value), faults);
  }

  lemma DeliverEdge(build: D.Build, device: D.Device, event: ClipboardEvent, delivery: Delivery, now: Millis,
                    faults: D.Faults)
    ensures Unobserved(DeliverTo(build, device, event, delivery, now, faults).0) ==> Unobserved(device)
  {
    forall value, bytes {
      ReadyEdge(build, device, event, value, bytes, now, faults);
    }
  }

  lemma StepKeepsNoEcho(build: D.Build, world: World, action: Action, d: DeviceId)
    requires Enabled(world, action) && d in world.nodes && NoEcho(world.nodes[d])
    ensures d in Step(build, world, action).nodes && NoEcho(Step(build, world, action).nodes[d])
  {
    if action.at == d {
      ActedKeepsNoEcho(build, world, action);
    }
  }

  lemma ActedKeepsNoEcho(build: D.Build, world: World, action: Action)
    requires Enabled(world, action) && NoEcho(world.nodes[action.at])
    ensures NoEcho(Step(build, world, action).nodes[action.at])
  {
    var device := world.nodes[action.at].device;
    match action {
      case Poll(_, capture) => PollEdge(build, device, capture);
      case ShareFiles(_, capture, paths, transferId) => ShareEdge(build, device, capture, paths, transferId);
      case Deliver(_, id, delivery, now, faults) =>
        DeliverEdge(build, device, world.events[id], delivery, now, faults);
      case _ =>
    }
  }

  lemma {:induction false} NoEchoFrom(build: D.Build, world: World, actions: seq<Action>, d: DeviceId)
    requires Possible(build, world, actions) && d in world.nodes && NoEcho(world.nodes[d])
    ensures d in Run(build, world, actions).nodes && NoEcho(Run(build, world, actions).nodes[d])
    decreases |actions|
  {
    if actions != [] {
      StepKeepsNoEcho(build, world, actions[0], d);
      NoEchoFrom(build, Step(build, world, actions[0]), actions[1..], d);
    }
  }

  /** A device never creates more events by polling than copies were made there, whatever it receives
      and whatever fails: remote applications start no new events. */
  lemma RemoteApplicationsNeverEcho(build: D.Build, start: World, actions: seq<Action>, d: DeviceId)
    requires Initial(start) && Possible(build, start, actions) && d in start.nodes
    ensures d in Run(build, start, actions).nodes && NoEcho(Run(build, start, actions).nodes[d])
  {
    NoEchoFrom(build, start, actions, d);
  }
}

/** Quiescent agreement: once devices have handled the same events and polled their clipboards, the
    clipboards hold the same value. */
module Agreement {
  import opened Bytes
  import opened Clock
  import opened ClipboardValue
  import opened ClipboardCodec
  import opened Events
  import opened Winner
  import opened Cluster
  import opened Convergence
  import Ledger
  import D = Device

  /** The bytes an event stands for. */
  function Payload(event: ClipboardEvent): seq<byte> {
    match event.content
    case Inline(bytes) => bytes
    case Blob(hash, _) => hash
    case Transfer(_) => []
  }

  function Resolved(build: D.Build, event: ClipboardEvent): Result<Value, CodecError> {
    DecodeValue(build.png, event.format, Payload(event))
  }

  function ResolvedDigest(build: D.Build, event: ClipboardEvent): Option<Digest> {
    match Resolved(build, event)
    case Ok(value) => DigestOf(value)
    case Err(_) => None
  }

  /** No file operation, no privacy exclusion, no failure and no image over the decoding limit. */
  predicate Clean(build: D.Build, world: World, action: Action)
    requires Enabled(world, action)
  {
    var device := world.nodes[action.at].device;
    match action
    case Poll(_, capture) =>
      && capture.disposition.Normal? && D.PollLocal(build, device, capture).1.Ok?
      && (device.clipboard.Some? ==> !Oversized(device.clipboard.value))
    case ShareFiles(_, _, _, _) => false
    case Deliver(_, id, delivery, now, faults) =>
      !delivery.WithFiles? && DeliverTo(build, device, world.events[id], delivery, now, faults).1.Ok?
    case _ => true
  }

  ghost predicate CleanRun(build: D.Build, world: World, actions: seq<Action>)
    requires Possible(build, world, actions)
    decreases |actions|
  {
    actions == [] || (Clean(build, world, actions[0]) && CleanRun(build, Step(build, world, actions[0]), actions[1..]))
  }

  /** The remembered digest is that of the winning event's content. */
  ghost predicate Mirrors(build: D.Build, events: EventLog, device: D.Device) {
    device.ledger.current.Some? ==>
      var id := device.ledger.current.value.id;
      id in events && device.lastDigest.Some? && device.lastDigest == ResolvedDigest(build, events[id])
  }

  lemma PollMirrors(build: D.Build, events: EventLog, device: D.Device, capture: D.Capture)
    requires Lossless(build.png) && Mirrors(build, events, device) && capture.id !in events
    requires capture.disposition.Normal? && D.PollLocal(build, device, capture).1.Ok?
    requires device.clipboard.Some? ==> !Oversized(device.clipboard.value)
    ensures var (after, result) := D.PollLocal(build, device, capture);
            match PollCreates(result)
            case None => Mirrors(build, events, after)
            case Some(event) => event.id == capture.id && Mirrors(build, events[event.id := event], after)
  {
    PollEffect(build, device, capture);
    var (after, result) := D.PollLocal(build, device, capture);
    match PollCreates(result) {
      case None =>
        NothingCreated(build, device, capture);
      case Some(event) =>
        var value := device.clipboard.value;
        var encoded := EncodeValue(build.png, value).value;
        DecodeInvertsEncode(build.png, value, encoded);
        assert event.format == encoded.format && Payload(event) == encoded.bytes;
        assert Resolved(build, event) == Ok(value);
        assert after.lastDigest == DigestOf(value);
    }
  }

  lemma NothingCreated(build: D.Build, device: D.Device, capture: D.Capture)
    requires capture.disposition.Normal? && D.PollLocal(build, device, capture).1 == Ok(None)
    ensures D.PollLocal(build, device, capture).0 == device
  {
  }

  lemma BytesMirror(build: D.Build, events: EventLog, device: D.Device, event: ClipboardEvent, now: Millis,
                    faults: D.Faults)
    requires build.debugAssertions && Mirrors(build, events, device)
    requires event.id in events && events[event.id] == event
    ensures var (after, result) := D.ApplyBytes(build, device, event, Payload(event), now, faults);
            result.Ok? ==> Mirrors(build, events, after)
  {
    DecodedIsValid(build.png, event.format, Payload(event));
    if Resolved(build, event).Ok? {
      var value := Resolved(build, event).value;
      var committed := device.(ledger := Ledger.Receive(device.ledger, event, now));
      var written := D.Overwrite(device, value, faults.write).0;
      PersistEdge(build, committed, event, Payload(event), Some(value), faults);
      PersistEdge(build, written, event, Payload(event), Some(value), faults);
    }
  }

  lemma DeliverMirrors(build: D.Build, events: EventLog, device: D.Device, event: ClipboardEvent, delivery: Delivery,
                       now: Millis, faults: D.Faults)
    requires build.debugAssertions && Mirrors(build, events, device)
    requires event.id in events && events[event.id] == event && !delivery.WithFiles?
    requires DeliverTo(build, device, event, delivery, now, faults).1.Ok?
    ensures Mirrors(build, events, DeliverTo(build, device, event, delivery, now, faults).0)
  {
    BytesMirror(build, events, device, event, now, faults);
    if delivery.WithBlob? && event.content.Blob? {
      assert delivery.bytes == Payload(event);
    }
  }

  lemma MirrorsExtends(build: D.Build, events: EventLog, larger: EventLog, device: D.Device)
    requires Mirrors(build, events, device) && Extends(events, larger)
    ensures Mirrors(build, larger, device)
  {
  }

  lemma PollStepMirrors(build: D.Build, world: World, action: Action, d: DeviceId)
    requires Lossless(build.png) && action.Poll?
    requires Sound(world) && Enabled(world, action) && Clean(build, world, action)
    requires d in world.nodes && Mirrors(build, world.events, world.nodes[d].device)
    ensures var after := Step(build, world, action);
            d in after.nodes && Mirrors(build, after.events, after.nodes[d].device)
  {
    var device, capture := world.nodes[action.at].device, action.capture;
    assert capture.id !in world.events;
    PollEffect(build, device, capture);
    if action.at == d {
      PollMirrorsHere(build, world, action);
    } else {
      MirrorsExtends(build, world.events, Step(build, world, action).events, world.nodes[d].device);
    }
  }

  lemma PollMirrorsHere(build: D.Build, world: World, action: Action)
    requires Lossless(build.png) && action.Poll?
    requires Enabled(world, action) && Clean(build, world, action) && action.capture.id !in world.events
    requires Mirrors(build, world.events, world.nodes[action.at].device)
    ensures var after := Step(build, world, action);
            Mirrors(build, after.events, after.nodes[action.at].device)
  {
    PollMirrors(build, world.events, world.nodes[action.at].device, action.capture);
  }

  lemma DeliverStepMirrors(build: D.Build, world: World, action: Action, d: DeviceId)
    requires build.debugAssertions && action.Deliver?
    requires Sound(world) && Enabled(world, action) && Clean(build, world, action)
    requires d in world.nodes && Mirrors(build, world.events, world.nodes[d].device)
    ensures var after := Step(build, world, action);
            d in after.nodes && Mirrors(build, after.events, after.nodes[d].device)
  {
    var device, event := world.nodes[d].device, world.events[action.id];
    if action.at == d {
      DeliverMirrors(build, world.events, device, event, action.delivery, action.now, action.faults);
    }
  }

  lemma StepMirrors(build: D.Build, world: World, action: Action, d: DeviceId)
    requires build.debugAssertions && Lossless(build.png)
    requires Sound(world) && Enabled(world, action) && Clean(build, world, action)
    requires d in world.nodes && Mirrors(build, world.events, world.nodes[d].device)
    ensures var after := Step(build, world, action);
            d in after.nodes && Mirrors(build, after.events, after.nodes[d].device)
  {
    match action {
      case Poll(_, _) => PollStepMirrors(build, world, action, d);
      case Deliver(_, _, _, _, _) => DeliverStepMirrors(build, world, action, d);
      case _ => QuietStepMirrors(build, world, action, d);
    }
  }

  lemma QuietStepMirrors(build: D.Build, world: World, action: Action, d: DeviceId)
    requires Enabled(world, action) && !action.Poll? && !action.ShareFiles? && !action.Deliver?
    requires d in world.nodes && Mirrors(build, world.events, world.nodes[d].device)
    ensures var after := Step(build, world, action);
            after.nodes.Keys == world.nodes.Keys && Mirrors(build, after.events, after.nodes[d].device)
  {
    var before, after := world.nodes[d].device, Step(build, world, action).nodes[d].device;
    assert after.lastDigest == before.lastDigest && after.ledger.current == before.ledger.current;
  }

  lemma {:induction false} RunMirrors(build: D.Build, world: World, actions: seq<Action>, d: DeviceId)
    requires build.debugAssertions && Lossless(build.png)
    requires Sound(world) && Possible(build, world, actions) && CleanRun(build, world, actions)
    requires Run(build, world, actions).clockOps <= MAX_LOGICAL
    requires d in world.nodes && Mirrors(build, world.events, world.nodes[d].device)
    ensures var end := Run(build, world, actions);
            d in end.nodes && Mirrors(build, end.events, end.nodes[d].device)
    decreases |actions|
  {
    if actions != [] {
      var next := Step(build, world, actions[0]);
      RunMonotone(build, next, actions[1..]);
      StepKeepsSound(build, world, actions[0]);
      StepMirrors(build, world, actions[0], d);
      RunMirrors(build, next, actions[1..], d);
    }
  }

  /** The clipboard holds content whose digest is the remembered one: no change is waiting to be polled. */
  predicate Settled(device: D.Device) {
    device.clipboard.Some? && DigestOf(device.clipboard.value).Some? && !Unobserved(device)
  }

  /** A poll that succeeds on a clipboard with content settles it, and only a further copy unsettles it. */
  lemma PollSettles(build: D.Build, device: D.Device, capture: D.Capture)
    ensures var (after, result) := D.PollLocal(build, device, capture);
            result.Ok? && device.clipboard.Some? ==> Settled(after) && after.clipboard == device.clipboard
  {
  }

  lemma StaysSettled(build: D.Build, world: World, action: Action, d: DeviceId)
    requires Enabled(world, action) && d in world.nodes && Settled(world.nodes[d].device)
    requires !(action.Copy? && action.at == d)
    ensures d in Step(build, world, action).nodes && Settled(Step(build, world, action).nodes[d].device)
  {
    StepActs(build, world, action);
    if action.at == d {
      ActedSettled(build, world, action);
    }
  }

  lemma ActedSettled(build: D.Build, world: World, action: Action)
    requires Enabled(world, action) && !action.Copy? && Settled(world.nodes[action.at].device)
    ensures Settled(Acted(build, world, action))
  {
    var device := world.nodes[action.at].device;
    match action {
      case Poll(_, capture) => PollEdge(build, device, capture);
      case ShareFiles(_, capture, paths, transferId) => ShareEdge(build, device, capture, paths, transferId);
      case Deliver(_, id, delivery, now, faults) =>
        DeliverEdge(build, device, world.events[id], delivery, now, faults);
        DeliverKeepsContent(build, device, world.events[id], delivery, now, faults);
      case _ =>
    }
  }

  lemma DeliverKeepsContent(build: D.Build, device: D.Device, event: ClipboardEvent, delivery: Delivery, now: Millis,
                            faults: D.Faults)
    requires device.clipboard.Some? && DigestOf(device.clipboard.value).Some?
    ensures var after := DeliverTo(build, device, event, delivery, now, faults).0;
            after.clipboard.Some? && DigestOf(after.clipboard.value).Some?
  {
    forall value, bytes {
      ReadyKeepsContent(build, device, event, value, bytes, now, faults);
    }
  }

  lemma ReadyKeepsContent(build: D.Build, device: D.Device, event: ClipboardEvent, value: Value, bytes: seq<byte>,
                          now: Millis, faults: D.Faults)
    requires device.clipboard.Some? && DigestOf(device.clipboard.value).Some?
    ensures var after := D.ApplyReady(build, device, event, value, bytes, now, faults).0;
            after.clipboard.Some? && DigestOf(after.clipboard.value).Some?
  {
    var committed := device.(ledger := Ledger.Receive(device.ledger, event, now));
    PersistEdge(build, committed, event, bytes, Some(value), faults);
    PersistEdge(build, D.Overwrite(device, value, faults.write).0, event, bytes, Some(value), faults);
  }

  /** A settled device that handled anything shows the content of its winning event. */
  lemma ShowsTheWinner(build: D.Build, start: World, actions: seq<Action>, d: DeviceId)
    requires Reached(build, start, actions) && CleanRun(build, start, actions) && Lossless(build.png)
    requires d in start.nodes
    ensures var end := Run(build, start, actions);
            d in end.nodes
    ensures var end := Run(build, start, actions);
            var device := end.nodes[d].device;
            Settled(device) && device.ledger.current.Some? ==>
              && device.ledger.current.value.id in end.events
              && Resolved(build, end.events[device.ledger.current.value.id]) == Ok(device.clipboard.value)
  {
    InitialSound(start);
    RunMirrors(build, start, actions, d);
    var end := Run(build, start, actions);
    var device := end.nodes[d].device;
    if Settled(device) && device.ledger.current.Some? {
      var event := end.events[device.ledger.current.value.id];
      DecodedIsValid(build.png, event.format, Payload(event));
      DigestIdentifies(device.clipboard.value, Resolved(build, event).value);
    }
  }

  /** Two settled devices that handled the same events, at least one, hold the same clipboard value. */
  lemma ClipboardsAgree(build: D.Build, start: World, actions: seq<Action>, a: DeviceId, b: DeviceId)
    requires Reached(build, start, actions) && CleanRun(build, start, actions) && Lossless(build.png)
    requires a in start.nodes && b in start.nodes
    ensures var end := Run(build, start, actions);
            a in end.nodes && b in end.nodes
    ensures var end := Run(build, start, actions);
            var x, y := end.nodes[a], end.nodes[b];
            x.handled == y.handled && x.handled != {} && Settled(x.device) && Settled(y.device)
            ==> x.device.clipboard == y.device.clipboard
  {
    ShowsTheWinner(build, start, actions, a);
    ShowsTheWinner(build, start, actions, b);
    Converges(build, start, actions, a, b);
    CurrentIsMaximum(build, start, actions, a);
  }
}

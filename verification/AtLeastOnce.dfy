/** End to end: an event recorded for a peer stays queued until the peer has it, or until it expires. */
module AtLeastOnce {
  import opened Bytes
  import opened LossyText
  import opened Clock
  import opened Events
  import opened Cluster
  import opened Orderly
  import opened Commit
  import ReplayQueue
  import Ledger
  import D = Device

  function QueueFor(world: World, a: DeviceId, peer: DeviceId): seq<Ledger.PendingEvent>
    requires a in world.nodes
  {
    Ledger.Queue(world.nodes[a].device.ledger.pending, peer)
  }

  function Ids(queue: seq<Ledger.PendingEvent>): set<Uuid> {
    set i | 0 <= i < |queue| :: queue[i].event.id
  }

  /** Acknowledgements come from peers that handled the event. */
  predicate Honest(world: World, action: Action) {
    action.Acknowledge? ==> action.peer in world.nodes && action.id in world.nodes[action.peer].handled
  }

  ghost predicate HonestRun(build: D.Build, world: World, actions: seq<Action>)
    requires Possible(build, world, actions)
    decreases |actions|
  {
    actions == [] || (Honest(world, actions[0]) && HonestRun(build, Step(build, world, actions[0]), actions[1..]))
  }

  /** The event that this action records on `a` for `peer`, if it does. */
  function SentNow(build: D.Build, world: World, action: Action, a: DeviceId, peer: DeviceId): set<Uuid>
    requires Enabled(world, action)
  {
    if action.at != a || peer == a then {}
    else
      var device := world.nodes[a].device;
      match action
      case Poll(_, capture) =>
        if PollCreates(D.PollLocal(build, device, capture).1).Some? && peer in capture.peers then {capture.id} else {}
      case ShareFiles(_, capture, paths, transferId) =>
        if ShareCreates(D.RecordFiles(build, device, capture, paths, transferId).1).Some? && peer in capture.peers
        then {capture.id} else {}
      case _ => {}
  }

  /** The events that this action finds expired in `a`'s queue for `peer`. */
  function ExpiredNow(world: World, action: Action, a: DeviceId, peer: DeviceId): set<Uuid>
    requires Enabled(world, action)
  {
    if action.ListPending? && action.at == a && action.peer == peer then
      var queue := QueueFor(world, a, peer);
      set i | 0 <= i < |queue| && queue[i].expiresAt < action.time :: queue[i].event.id
    else {}
  }

  function Sent(build: D.Build, world: World, actions: seq<Action>, a: DeviceId, peer: DeviceId): set<Uuid>
    requires Possible(build, world, actions)
    decreases |actions|
  {
    if actions == [] then {}
    else SentNow(build, world, actions[0], a, peer) + Sent(build, Step(build, world, actions[0]), actions[1..], a, peer)
  }

  function Expired(build: D.Build, world: World, actions: seq<Action>, a: DeviceId, peer: DeviceId): set<Uuid>
    requires Possible(build, world, actions)
    decreases |actions|
  {
    if actions == [] then {}
    else ExpiredNow(world, actions[0], a, peer) + Expired(build, Step(build, world, actions[0]), actions[1..], a, peer)
  }

  // ---------- what each operation does to one queue ----------

  lemma {:induction false} UnexpiredIds(queue: seq<Ledger.PendingEvent>, now: int)
    ensures forall i :: 0 <= i < |queue| && queue[i].expiresAt >= now ==> queue[i] in Ledger.Unexpired(queue, now)
  {
    if queue != [] {
      UnexpiredIds(queue[1..], now);
      forall i | 0 <= i < |queue| && queue[i].expiresAt >= now ensures queue[i] in Ledger.Unexpired(queue, now) {
        if i > 0 {
          assert queue[i] == queue[1..][i - 1];
        }
      }
    }
  }

  lemma {:induction false} UnacknowledgedIds(queue: seq<Ledger.PendingEvent>, id: Uuid)
    ensures forall i :: 0 <= i < |queue| && queue[i].event.id != id ==> queue[i] in Ledger.Unacknowledged(queue, id)
  {
    if queue != [] {
      UnacknowledgedIds(queue[1..], id);
      forall i | 0 <= i < |queue| && queue[i].event.id != id ensures queue[i] in Ledger.Unacknowledged(queue, id) {
        if i > 0 {
          assert queue[i] == queue[1..][i - 1];
        }
      }
    }
  }

  lemma InIds(queue: seq<Ledger.PendingEvent>, item: Ledger.PendingEvent)
    requires item in queue
    ensures item.event.id in Ids(queue)
  {
    var i :| 0 <= i < |queue| && queue[i] == item;
  }

  lemma {:induction false} CopyIsIn(item: Ledger.PendingEvent, local: DeviceId, peer: DeviceId, peers: seq<DeviceId>)
    requires peer in peers && peer != local
    ensures item in ReplayQueue.Copies(item, local, peer, peers)
    decreases |peers|
  {
    if peers[0] != peer {
      CopyIsIn(item, local, peer, peers[1..]);
    }
  }

  lemma RecordedIsQueued(before: D.Device, after: D.Device, event: ClipboardEvent, capture: D.Capture, peer: DeviceId)
    requires Recorded(before, after, event, capture)
    ensures Ids(Ledger.Queue(before.ledger.pending, peer)) <= Ids(Ledger.Queue(after.ledger.pending, peer))
    ensures peer in capture.peers && peer != before.ledger.local ==>
              event.id in Ids(Ledger.Queue(after.ledger.pending, peer))
  {
    var item := Ledger.PendingEvent(event, capture.expiresAt);
    var earlier, later := Ledger.Queue(before.ledger.pending, peer), Ledger.Queue(after.ledger.pending, peer);
    ReplayQueue.EnqueueAddsCopies(before.ledger.pending, before.ledger.local, capture.peers, item, peer);
    assert later == earlier + ReplayQueue.Copies(item, before.ledger.local, peer, capture.peers);
    forall id | id in Ids(earlier) ensures id in Ids(later) {
      var i :| 0 <= i < |earlier| && earlier[i].event.id == id;
      InIds(later, earlier[i]);
    }
    if peer in capture.peers && peer != before.ledger.local {
      CopyIsIn(item, before.ledger.local, peer, capture.peers);
      InIds(later, item);
    }
  }

  // ---------- whole runs ----------

  /** Nothing leaves `a`'s queue for `peer` in one action except what the peer handled or what expired. */
  ghost predicate Owing(world: World, after: World, a: DeviceId, peer: DeviceId, sent: set<Uuid>, expired: set<Uuid>)
    requires a in world.nodes && a in after.nodes && peer in after.nodes
  {
    Ids(QueueFor(world, a, peer)) + sent <= Ids(QueueFor(after, a, peer)) + expired + after.nodes[peer].handled
  }

  lemma ListOwes(build: D.Build, world: World, action: Action, a: DeviceId, peer: DeviceId)
    requires Enabled(world, action) && action.ListPending? && a in world.nodes && peer in world.nodes
    ensures Owing(world, Step(build, world, action), a, peer, {}, ExpiredNow(world, action, a, peer))
  {
    var queue, after := QueueFor(world, a, peer), Step(build, world, action);
    UnexpiredIds(queue, action.time);
    forall id | id in Ids(queue) ensures id in Ids(QueueFor(after, a, peer)) + ExpiredNow(world, action, a, peer) {
      var i :| 0 <= i < |queue| && queue[i].event.id == id;
      if action.at == a && action.peer == peer && queue[i].expiresAt >= action.time {
        InIds(QueueFor(after, a, peer), queue[i]);
      }
    }
  }

  lemma AcknowledgeOwes(build: D.Build, world: World, action: Action, a: DeviceId, peer: DeviceId)
    requires Enabled(world, action) && action.Acknowledge? && Honest(world, action) && a in world.nodes
    requires peer in world.nodes
    ensures Owing(world, Step(build, world, action), a, peer, {}, {})
  {
    var queue, after := QueueFor(world, a, peer), Step(build, world, action);
    UnacknowledgedIds(queue, action.id);
    forall id | id in Ids(queue) ensures id in Ids(QueueFor(after, a, peer)) + after.nodes[peer].handled {
      var i :| 0 <= i < |queue| && queue[i].event.id == id;
      if action.at == a && action.peer == peer && id != action.id {
        InIds(QueueFor(after, a, peer), queue[i]);
      }
    }
  }

  lemma DeliverOwes(build: D.Build, world: World, action: Action, a: DeviceId, peer: DeviceId)
    requires Enabled(world, action) && action.Deliver? && a in world.nodes && peer in world.nodes
    ensures Owing(world, Step(build, world, action), a, peer, {}, {})
  {
    DeliveredLedger(build, world.nodes[action.at].device, world.events[action.id], action.delivery, action.now,
                    action.faults);
  }

  lemma PollOwes(build: D.Build, world: World, action: Action, a: DeviceId, peer: DeviceId)
    requires InOrder(world) && Enabled(world, action) && action.Poll? && a in world.nodes && peer in world.nodes
    ensures Owing(world, Step(build, world, action), a, peer, SentNow(build, world, action, a, peer), {})
  {
    var device, capture := world.nodes[action.at].device, action.capture;
    PollEffect(build, device, capture);
    var (after, result) := D.PollLocal(build, device, capture);
    if PollCreates(result).Some? {
      RecordedIsQueued(device, after, result.value.value, capture, peer);
    }
  }

  lemma ShareOwes(build: D.Build, world: World, action: Action, a: DeviceId, peer: DeviceId)
    requires InOrder(world) && Enabled(world, action) && action.ShareFiles? && a in world.nodes && peer in world.nodes
    ensures Owing(world, Step(build, world, action), a, peer, SentNow(build, world, action, a, peer), {})
  {
    var device, capture := world.nodes[action.at].device, action.capture;
    ShareEffect(build, device, capture, action.paths, action.transferId);
    var (after, result) := D.RecordFiles(build, device, capture, action.paths, action.transferId);
    if ShareCreates(result).Some? {
      RecordedIsQueued(device, after, result.value, capture, peer);
    }
  }

  predicate Quiet(action: Action) {
    action.Copy? || action.Pin? || action.Remove? || action.Prune?
  }

  lemma QuietOwes(build: D.Build, world: World, action: Action, a: DeviceId, peer: DeviceId)
    requires Enabled(world, action) && Quiet(action) && a in world.nodes && peer in world.nodes
    ensures Owing(world, Step(build, world, action), a, peer, {}, {})
  {
  }

  lemma HandledGrows(build: D.Build, world: World, action: Action, peer: DeviceId)
    requires Enabled(world, action) && peer in world.nodes
    ensures var after := Step(build, world, action);
            && after.nodes.Keys == world.nodes.Keys && world.nodes[peer].handled <= after.nodes[peer].handled
  {
    match action {
      case Poll(_, _) =>
      case ShareFiles(_, _, _, _) =>
      case Deliver(_, _, _, _, _) =>
      case _ => assert Step(build, world, action).nodes[action.at].handled == world.nodes[action.at].handled;
    }
  }

  lemma StepOwes(build: D.Build, world: World, action: Action, a: DeviceId, peer: DeviceId)
    requires InOrder(world) && Enabled(world, action) && Honest(world, action) && a in world.nodes
    requires peer in world.nodes
    ensures var after := Step(build, world, action);
            && a in after.nodes && peer in after.nodes && world.nodes[peer].handled <= after.nodes[peer].handled
            && Owing(world, after, a, peer, SentNow(build, world, action, a, peer), ExpiredNow(world, action, a, peer))
  {
    HandledGrows(build, world, action, peer);
    match action {
      case Poll(_, _) => PollOwes(build, world, action, a, peer);
      case ShareFiles(_, _, _, _) => ShareOwes(build, world, action, a, peer);
      case Deliver(_, _, _, _, _) => DeliverOwes(build, world, action, a, peer);
      case ListPending(_, _, _) => ListOwes(build, world, action, a, peer);
      case Acknowledge(_, _, _) => AcknowledgeOwes(build, world, action, a, peer);
      case _ => QuietOwes(build, world, action, a, peer);
    }
  }

  lemma {:induction false} RunOwes(build: D.Build, world: World, actions: seq<Action>, a: DeviceId, peer: DeviceId)
    requires InOrder(world) && Possible(build, world, actions) && HonestRun(build, world, actions)
    requires a in world.nodes && peer in world.nodes
    ensures var end := Run(build, world, actions);
            && a in end.nodes && peer in end.nodes && world.nodes[peer].handled <= end.nodes[peer].handled
            && Owing(world, end, a, peer, Sent(build, world, actions, a, peer), Expired(build, world, actions, a, peer))
    decreases |actions|
  {
    if actions != [] {
      StepOwes(build, world, actions[0], a, peer);
      StepOrderly(build, world, actions[0]);
      RunOwes(build, Step(build, world, actions[0]), actions[1..], a, peer);
    }
  }

  predicate AllHealthyAt(actions: seq<Action>, d: DeviceId) {
    forall action :: action in actions ==> HealthyAt(action, d)
  }

  /** In every run in which peers acknowledge only what they handled, each event recorded for a peer is still
      queued for it, or had expired when it was listed, or was handled by the peer; and then, while storage
      works there, it is in the peer's history until its user deletes it. */
  lemma DeliveredOrOwed(build: D.Build, start: World, actions: seq<Action>, a: DeviceId, peer: DeviceId, id: Uuid)
    requires Initial(start) && Possible(build, start, actions) && HonestRun(build, start, actions)
    requires a in start.nodes && peer in start.nodes && id in Sent(build, start, actions, a, peer)
    ensures var end := Run(build, start, actions);
            && a in end.nodes && peer in end.nodes
            && (|| id in Ids(QueueFor(end, a, peer))
                || id in Expired(build, start, actions, a, peer)
                || (id in end.nodes[peer].handled
                    && (AllHealthyAt(actions, peer) ==> id in Stored(end.nodes[peer]))))
  {
    InitialOrderly(start);
    RunOwes(build, start, actions, a, peer);
    if AllHealthyAt(actions, peer) {
      AcknowledgedIsDurable(build, start, actions, peer);
    }
  }
}

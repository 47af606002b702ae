/** What becomes of the whole-run theorems where debug assertions are compiled out: the commit of an applied
    event is skipped (crates/sync/src/lib.rs:313), and each of them fails in a run of six actions without any
    failure, duplicate or loss. So a build keeps them in all runs exactly if it executes the commit. */
module Uncommitted {
  import opened Bytes
  import opened Clock
  import opened ClipboardValue
  import opened ClipboardCodec
  import opened Events
  import opened Winner
  import opened Cluster
  import opened Convergence
  import opened Agreement
  import Ledger
  import D = Device

  // ---------- single actions on text, without faults ----------

  type Short = text: Bytes.Text | 0 < |text| <= D.MAX_INLINE witness [97]

  const NO_FAULTS: D.Faults := D.Faults(false, false, false, false)

  function CopyOf(at: DeviceId, text: Short): Action {
    Copy(at, Some(Text(text)))
  }

  function PollOf(at: DeviceId, id: Uuid, now: Millis, peer: DeviceId): Action {
    Poll(at, D.Capture(now, [peer], 0, D.Normal, None, id, NO_FAULTS))
  }

  function DeliveryOf(at: DeviceId, id: Uuid, now: Millis): Action {
    Deliver(at, id, Offered, now, NO_FAULTS)
  }

  function EventOf(ledger: Ledger.State, id: Uuid, now: Millis, text: Short): ClipboardEvent {
    ClipboardEvent(id, ledger.local, Tick(ledger.clock, now), TextFormat, Inline(text))
  }

  predicate Shows(device: D.Device, text: Short) {
    device.clipboard == Some(Text(text))
  }

  predicate Remembers(device: D.Device, text: Short) {
    device.lastDigest == DigestOf(Text(text))
  }

  /** Only the node at `at` changed. */
  predicate OnlyAt(world: World, after: World, at: DeviceId) {
    at in world.nodes && at in after.nodes && after.nodes == world.nodes[at := after.nodes[at]]
  }

  lemma CopyStep(build: D.Build, world: World, at: DeviceId, text: Short)
    requires at in world.nodes
    ensures Enabled(world, CopyOf(at, text)) && Clean(build, world, CopyOf(at, text))
    ensures var after := Step(build, world, CopyOf(at, text));
            && OnlyAt(world, after, at) && Shows(after.nodes[at].device, text)
            && after == world.(nodes := after.nodes)
            && after.nodes[at].handled == world.nodes[at].handled
            && after.nodes[at].device == world.nodes[at].device.(clipboard := Some(Text(text)))
  {
  }

  /** A poll records the copied text. */
  lemma PollStep(build: D.Build, world: World, at: DeviceId, text: Short, id: Uuid, now: Millis, peer: DeviceId)
    requires at in world.nodes && id !in world.drawn
    requires Shows(world.nodes[at].device, text) && !Remembers(world.nodes[at].device, text)
    ensures Enabled(world, PollOf(at, id, now, peer)) && Clean(build, world, PollOf(at, id, now, peer))
    ensures var after := Step(build, world, PollOf(at, id, now, peer));
            var ledger := world.nodes[at].device.ledger;
            var event := EventOf(ledger, id, now, text);
            && OnlyAt(world, after, at)
            && after.events == world.events[id := event] && after.past == world.past[id := world.nodes[at].handled]
            && after.drawn == world.drawn + {id} && after.clockOps == world.clockOps + 2
            && after.nodes[at].handled == world.nodes[at].handled + {id}
            && Shows(after.nodes[at].device, text) && Remembers(after.nodes[at].device, text)
            && after.nodes[at].device.ledger == Ledger.RecordLocal(Ledger.NextTimestamp(ledger, now), event, [peer], 0)
  {
  }

  /** A delivery that is applied without being committed. */
  lemma DeliverStep(build: D.Build, world: World, at: DeviceId, text: Short, id: Uuid, now: Millis)
    requires !build.debugAssertions
    requires at in world.nodes && id in world.events
    requires Ledger.Preview(world.nodes[at].device.ledger, world.events[id]).Apply?
    requires world.events[id].format == TextFormat && world.events[id].content == Inline(text)
    ensures Enabled(world, DeliveryOf(at, id, now)) && Clean(build, world, DeliveryOf(at, id, now))
    ensures var after := Step(build, world, DeliveryOf(at, id, now));
            && OnlyAt(world, after, at)
            && after.events == world.events && after.past == world.past && after.drawn == world.drawn
            && after.clockOps == world.clockOps
            && after.nodes[at].handled == world.nodes[at].handled + {id}
            && Shows(after.nodes[at].device, text) && Remembers(after.nodes[at].device, text)
            && after.nodes[at].device.ledger == world.nodes[at].device.ledger
    ensures AppliedNow(build, world, DeliveryOf(at, id, now), at, id) == 1
  {
  }

  // ---------- putting runs together ----------

  /** A clean run leads here. */
  ghost predicate Leads(build: D.Build, start: World, actions: seq<Action>, world: World) {
    Possible(build, start, actions) && CleanRun(build, start, actions) && Run(build, start, actions) == world
  }

  lemma {:induction false} LeadsOn(build: D.Build, start: World, actions: seq<Action>, world: World, action: Action,
                                   d: DeviceId, id: Uuid)
    requires Leads(build, start, actions, world) && Enabled(world, action) && Clean(build, world, action)
    ensures Leads(build, start, actions + [action], Step(build, world, action))
    ensures TimesApplied(build, start, actions + [action], d, id)
         == TimesApplied(build, start, actions, d, id) + AppliedNow(build, world, action, d, id)
    decreases |actions|
  {
    if actions == [] {
      assert actions + [action] == [action] && [action][1..] == [];
    } else {
      assert (actions + [action])[1..] == actions[1..] + [action];
      LeadsOn(build, Step(build, start, actions[0]), actions[1..], world, action, d, id);
    }
  }

  function FreshNode(d: DeviceId): Node {
    Node(D.New(d, 0, 10, None), {}, {}, {}, 0, 0)
  }

  /** Two devices that have done nothing yet. */
  function Pair(): World {
    World(map[1 := FreshNode(1), 2 := FreshNode(2)], map[], {}, map[], 0, 0)
  }

  const A: Short := [97]
  const B: Short := [98]

  lemma TextsDiffer()
    ensures DigestOf(Text(A)).Some? && DigestOf(Text(B)).Some?
    ensures Text(A) != Text(B) && DigestOf(Text(A)) != DigestOf(Text(B))
  {
    DigestIdentifies(Text(A), Text(B));
  }

  // ---------- the newer event arrives first ----------

  /** Device 1 copies and polls twice; device 2 receives the newer event, then the older one. */
  function NewerFirst(): seq<Action> {
    [CopyOf(1, A)] + [PollOf(1, 1, 1, 2)] + [CopyOf(1, B)] + [PollOf(1, 2, 2, 2)]
    + [DeliveryOf(2, 2, 2)] + [DeliveryOf(2, 1, 2)]
  }

  /** Both devices handled the same two events and are settled, but device 2 shows the older one and has no
      winner. */
  predicate Apart(world: World) {
    && world.nodes.Keys == {1, 2} && world.clockOps == 4
    && world.nodes[1].handled == {1, 2} == world.nodes[2].handled
    && Shows(world.nodes[1].device, B) && Remembers(world.nodes[1].device, B)
    && Shows(world.nodes[2].device, A) && Remembers(world.nodes[2].device, A)
    && world.nodes[1].device.ledger.current.Some? && world.nodes[2].device.ledger.current.None?
  }

  /** After the first two actions. */
  predicate OneRecorded(world: World) {
    && world.nodes.Keys == {1, 2} && world.clockOps == 2 && world.drawn == {1}
    && world.nodes[2] == FreshNode(2) && world.nodes[1].handled == {1}
    && Shows(world.nodes[1].device, A) && Remembers(world.nodes[1].device, A)
    && world.nodes[1].device.ledger.local == 1
    && world.events.Keys == {1} && world.events[1].id == 1
    && world.events[1].content == Inline(A) && world.events[1].format == TextFormat
  }

  /** After the first four actions. */
  predicate BothRecorded(world: World) {
    && world.nodes.Keys == {1, 2} && world.clockOps == 4
    && world.nodes[2] == FreshNode(2) && world.nodes[1].handled == {1, 2}
    && Shows(world.nodes[1].device, B) && Remembers(world.nodes[1].device, B)
    && world.nodes[1].device.ledger.current.Some?
    && world.events.Keys == {1, 2}
    && world.events[1].content == Inline(A) && world.events[1].format == TextFormat && world.events[1].id == 1
    && world.events[2].content == Inline(B) && world.events[2].format == TextFormat && world.events[2].id == 2
  }

  lemma RecordsOne(build: D.Build, now: Millis) returns (world: World)
    requires now > 0
    ensures Leads(build, Pair(), [CopyOf(1, A)] + [PollOf(1, 1, now, 2)], world) && OneRecorded(world)
    ensures TimesApplied(build, Pair(), [CopyOf(1, A)] + [PollOf(1, 1, now, 2)], 2, 1) == 0
    ensures world.events[1].timestamp == New(now) && world.past == map[1 := {}]
    ensures world.events[1].origin == 1
  {
    TextsDiffer();
    var start := Pair();
    CopyStep(build, start, 1, A);
    LeadsOn(build, start, [], start, CopyOf(1, A), 2, 1);
    var copied := Step(build, start, CopyOf(1, A));
    assert [] + [CopyOf(1, A)] == [CopyOf(1, A)];
    PollStep(build, copied, 1, A, 1, now, 2);
    LeadsOn(build, start, [CopyOf(1, A)], copied, PollOf(1, 1, now, 2), 2, 1);
    world := Step(build, copied, PollOf(1, 1, now, 2));
  }

  lemma RecordsSecond(build: D.Build, one: World) returns (copied: World, world: World)
    requires OneRecorded(one)
    ensures Enabled(one, CopyOf(1, B)) && Clean(build, one, CopyOf(1, B)) && copied == Step(build, one, CopyOf(1, B))
    ensures Enabled(copied, PollOf(1, 2, 2, 2)) && Clean(build, copied, PollOf(1, 2, 2, 2))
    ensures world == Step(build, copied, PollOf(1, 2, 2, 2)) && BothRecorded(world)
  {
    TextsDiffer();
    CopyStep(build, one, 1, B);
    copied := Step(build, one, CopyOf(1, B));
    PollStep(build, copied, 1, B, 2, 2, 2);
    world := Step(build, copied, PollOf(1, 2, 2, 2));
  }

  lemma RecordsBoth(build: D.Build) returns (world: World)
    ensures Leads(build, Pair(), [CopyOf(1, A)] + [PollOf(1, 1, 1, 2)] + [CopyOf(1, B)] + [PollOf(1, 2, 2, 2)], world)
    ensures BothRecorded(world)
  {
    var recording := [CopyOf(1, A)] + [PollOf(1, 1, 1, 2)];
    var one := RecordsOne(build, 1);
    var copied;
    copied, world := RecordsSecond(build, one);
    LeadsOn(build, Pair(), recording, one, CopyOf(1, B), 2, 1);
    LeadsOn(build, Pair(), recording + [CopyOf(1, B)], copied, PollOf(1, 2, 2, 2), 2, 1);
  }

  /** After the first five actions. */
  predicate NewerTaken(world: World) {
    && world.nodes.Keys == {1, 2} && world.clockOps == 4
    && world.nodes[1].handled == {1, 2} && world.nodes[2].handled == {2}
    && world.nodes[2].device.ledger == Ledger.NewState(2, 0, 10)
    && Shows(world.nodes[1].device, B) && Remembers(world.nodes[1].device, B)
    && world.nodes[1].device.ledger.current.Some?
    && 1 in world.events && world.events[1].content == Inline(A) && world.events[1].format == TextFormat
  }

  lemma TakesNewer(build: D.Build, recorded: World) returns (newer: World)
    requires !build.debugAssertions && BothRecorded(recorded)
    ensures Enabled(recorded, DeliveryOf(2, 2, 2)) && Clean(build, recorded, DeliveryOf(2, 2, 2))
    ensures newer == Step(build, recorded, DeliveryOf(2, 2, 2)) && NewerTaken(newer)
  {
    DeliverStep(build, recorded, 2, B, 2, 2);
    newer := Step(build, recorded, DeliveryOf(2, 2, 2));
  }

  lemma TakesOlder(build: D.Build, newer: World) returns (world: World)
    requires !build.debugAssertions && NewerTaken(newer)
    ensures Enabled(newer, DeliveryOf(2, 1, 2)) && Clean(build, newer, DeliveryOf(2, 1, 2))
    ensures world == Step(build, newer, DeliveryOf(2, 1, 2)) && Apart(world)
  {
    DeliverStep(build, newer, 2, A, 1, 2);
    world := Step(build, newer, DeliveryOf(2, 1, 2));
  }

  lemma NewerFirstParts(build: D.Build) returns (world: World)
    requires !build.debugAssertions
    ensures Leads(build, Pair(), NewerFirst(), world) && Apart(world)
  {
    var recording := [CopyOf(1, A)] + [PollOf(1, 1, 1, 2)] + [CopyOf(1, B)] + [PollOf(1, 2, 2, 2)];
    var recorded := RecordsBoth(build);
    var newer := TakesNewer(build, recorded);
    LeadsOn(build, Pair(), recording, recorded, DeliveryOf(2, 2, 2), 2, 1);
    world := TakesOlder(build, newer);
    LeadsOn(build, Pair(), recording + [DeliveryOf(2, 2, 2)], newer, DeliveryOf(2, 1, 2), 2, 1);
  }

  // ---------- an event between two deliveries of another ----------

  /** Device 2 receives an event from a device whose clock is ahead, creates one itself, and receives the first
      event again. */
  function Between(): seq<Action> {
    [CopyOf(1, A)] + [PollOf(1, 1, 5, 2)] + [DeliveryOf(2, 1, 5)] + [CopyOf(2, B)] + [PollOf(2, 2, 1, 1)]
    + [DeliveryOf(2, 1, 6)]
  }

  /** Device 2 handled event 1 before it created event 2, which is earlier all the same, and shows event 1
      although event 2 is its winner. */
  predicate Crossed(world: World) {
    && world.nodes.Keys == {1, 2} && world.clockOps == 4
    && world.events.Keys == {1, 2} && world.past == map[1 := {}, 2 := {1}]
    && world.events[1].timestamp == HybridTimestamp(5, 0) && world.events[2].timestamp == HybridTimestamp(1, 0)
    && world.events[2].content == Inline(B) && world.events[2].format == TextFormat && world.events[2].id == 2
    && world.nodes[2].device.ledger.current == Some(StampOf(world.events[2]))
    && Shows(world.nodes[2].device, A) && Remembers(world.nodes[2].device, A)
  }

  /** After the first three actions. */
  predicate Taken(world: World) {
    && world.nodes.Keys == {1, 2} && world.clockOps == 2 && world.drawn == {1}
    && world.events.Keys == {1} && world.past == map[1 := {}]
    && world.events[1].timestamp == HybridTimestamp(5, 0) && world.events[1].id == 1 && world.events[1].origin == 1
    && world.events[1].content == Inline(A) && world.events[1].format == TextFormat
    && world.nodes[2].handled == {1} && world.nodes[2].device.ledger == Ledger.NewState(2, 0, 10)
    && Shows(world.nodes[2].device, A) && Remembers(world.nodes[2].device, A)
  }

  lemma TakesFirst(build: D.Build) returns (world: World)
    requires !build.debugAssertions
    ensures Leads(build, Pair(), [CopyOf(1, A)] + [PollOf(1, 1, 5, 2)] + [DeliveryOf(2, 1, 5)], world) && Taken(world)
    ensures TimesApplied(build, Pair(), [CopyOf(1, A)] + [PollOf(1, 1, 5, 2)] + [DeliveryOf(2, 1, 5)], 2, 1) == 1
  {
    var one := RecordsOne(build, 5);
    DeliverStep(build, one, 2, A, 1, 5);
    LeadsOn(build, Pair(), [CopyOf(1, A)] + [PollOf(1, 1, 5, 2)], one, DeliveryOf(2, 1, 5), 2, 1);
    world := Step(build, one, DeliveryOf(2, 1, 5));
  }

  /** After the first five actions: event 2 has an earlier timestamp than event 1, which device 2 handled. */
  predicate Overtaken(world: World) {
    && world.nodes.Keys == {1, 2} && world.clockOps == 4
    && world.events.Keys == {1, 2} && world.past == map[1 := {}, 2 := {1}]
    && world.events[1].timestamp == HybridTimestamp(5, 0) && world.events[2].timestamp == HybridTimestamp(1, 0)
    && world.events[1].id == 1 && world.events[1].content == Inline(A) && world.events[1].format == TextFormat
    && world.events[2].id == 2 && world.events[2].content == Inline(B) && world.events[2].format == TextFormat
    && world.nodes[2].device.ledger.current == Some(StampOf(world.events[2]))
    && world.nodes[2].device.ledger.seen == {2}
  }

  lemma Overtakes(build: D.Build, taken: World) returns (copied: World, polled: World)
    requires Taken(taken)
    ensures Enabled(taken, CopyOf(2, B)) && Clean(build, taken, CopyOf(2, B))
    ensures copied == Step(build, taken, CopyOf(2, B))
    ensures Enabled(copied, PollOf(2, 2, 1, 1)) && Clean(build, copied, PollOf(2, 2, 1, 1))
    ensures polled == Step(build, copied, PollOf(2, 2, 1, 1)) && Overtaken(polled)
  {
    TextsDiffer();
    CopyStep(build, taken, 2, B);
    copied := Step(build, taken, CopyOf(2, B));
    PollStep(build, copied, 2, B, 2, 1, 1);
    polled := Step(build, copied, PollOf(2, 2, 1, 1));
  }

  lemma BetweenCrosses(build: D.Build) returns (world: World)
    requires !build.debugAssertions
    ensures Leads(build, Pair(), Between(), world) && Crossed(world)
    ensures TimesApplied(build, Pair(), Between(), 2, 1) == 2
  {
    var taking := [CopyOf(1, A)] + [PollOf(1, 1, 5, 2)] + [DeliveryOf(2, 1, 5)];
    var taken := TakesFirst(build);
    var copied, polled := Overtakes(build, taken);
    LeadsOn(build, Pair(), taking, taken, CopyOf(2, B), 2, 1);
    LeadsOn(build, Pair(), taking + [CopyOf(2, B)], copied, PollOf(2, 2, 1, 1), 2, 1);
    world := Crosses(build, polled);
    LeadsOn(build, Pair(), taking + [CopyOf(2, B)] + [PollOf(2, 2, 1, 1)], polled, DeliveryOf(2, 1, 6), 2, 1);
  }

  lemma Crosses(build: D.Build, polled: World) returns (world: World)
    requires !build.debugAssertions && Overtaken(polled)
    ensures Enabled(polled, DeliveryOf(2, 1, 6)) && Clean(build, polled, DeliveryOf(2, 1, 6))
    ensures world == Step(build, polled, DeliveryOf(2, 1, 6)) && Crossed(world)
    ensures AppliedNow(build, polled, DeliveryOf(2, 1, 6), 2, 1) == 1
  {
    DeliverStep(build, polled, 2, A, 1, 6);
    world := Step(build, polled, DeliveryOf(2, 1, 6));
  }

  // ---------- the exact condition ----------

  /** A run from fresh devices without failures or exceptions, with at most 2^32 - 1 clock operations. */
  ghost predicate Ordinary(build: D.Build, start: World, actions: seq<Action>) {
    && Initial(start) && Possible(build, start, actions) && CleanRun(build, start, actions)
    && Run(build, start, actions).clockOps <= MAX_LOGICAL
  }

  lemma PairIsInitial()
    ensures Initial(Pair())
  {
  }

  /** The winner of a device is the greatest event it handled, and absent if it handled none. */
  ghost predicate WinnerIsMaximum(world: World, d: DeviceId) {
    d in world.nodes ==>
      && (forall id :: id in world.nodes[d].handled ==> id in world.events)
      && match world.nodes[d].device.ledger.current
         case None => world.nodes[d].handled == {}
         case Some(winner) => IsMaximum(world.events, world.nodes[d].handled, winner)
  }

  /** Devices that handled the same events have the same winner. */
  predicate SameWinner(world: World, a: DeviceId, b: DeviceId) {
    a in world.nodes && b in world.nodes && world.nodes[a].handled == world.nodes[b].handled ==>
      world.nodes[a].device.ledger.current == world.nodes[b].device.ledger.current
  }

  /** And if both are settled, they hold the same value. */
  predicate SameClipboard(world: World, a: DeviceId, b: DeviceId) {
    && a in world.nodes && b in world.nodes && world.nodes[a].handled == world.nodes[b].handled != {}
    && Settled(world.nodes[a].device) && Settled(world.nodes[b].device)
    ==> world.nodes[a].device.clipboard == world.nodes[b].device.clipboard
  }

  /** A settled device with a winner shows its content. */
  predicate WinnerShown(build: D.Build, world: World, d: DeviceId) {
    d in world.nodes && Settled(world.nodes[d].device) && world.nodes[d].device.ledger.current.Some? ==>
      var id := world.nodes[d].device.ledger.current.value.id;
      id in world.events && Resolved(build, world.events[id]) == Ok(world.nodes[d].device.clipboard.value)
  }

  /** The end of a causal chain is later than its start. */
  ghost predicate ChainOrdered(world: World, chain: seq<Uuid>) {
    CausalChain(world, chain) && |chain| > 1 ==>
      && chain[0] in world.events && chain[|chain| - 1] in world.events
      && Less(world.events[chain[0]].timestamp, world.events[chain[|chain| - 1]].timestamp)
  }

  lemma ApartDisagrees(world: World)
    requires Apart(world)
    ensures !WinnerIsMaximum(world, 2) && !SameWinner(world, 1, 2) && !SameClipboard(world, 1, 2)
  {
    TextsDiffer();
  }

  lemma CrossedBreaks(build: D.Build, world: World)
    requires Crossed(world)
    ensures !WinnerShown(build, world, 2) && !ChainOrdered(world, [1, 2])
  {
    TextsDiffer();
    assert Resolved(build, world.events[2]) == Ok(Text(B));
    var chain: seq<Uuid> := [1, 2];
    assert CausalChain(world, chain);
  }

  ghost predicate AlwaysMaximum(build: D.Build) {
    forall start: World, actions: seq<Action>, d :: Ordinary(build, start, actions) && d in start.nodes ==>
      WinnerIsMaximum(Run(build, start, actions), d)
  }

  ghost predicate AlwaysConverges(build: D.Build) {
    forall start: World, actions: seq<Action>, a, b ::
      Ordinary(build, start, actions) && a in start.nodes && b in start.nodes ==>
        SameWinner(Run(build, start, actions), a, b)
  }

  ghost predicate AlwaysAgrees(build: D.Build) {
    forall start: World, actions: seq<Action>, a, b ::
      Ordinary(build, start, actions) && a in start.nodes && b in start.nodes ==>
        SameClipboard(Run(build, start, actions), a, b)
  }

  ghost predicate AlwaysShown(build: D.Build) {
    forall start: World, actions: seq<Action>, d :: Ordinary(build, start, actions) && d in start.nodes ==>
      WinnerShown(build, Run(build, start, actions), d)
  }

  ghost predicate AlwaysCausal(build: D.Build) {
    forall start: World, actions: seq<Action>, chain :: Ordinary(build, start, actions) ==>
      ChainOrdered(Run(build, start, actions), chain)
  }

  ghost predicate AlwaysOnce(build: D.Build) {
    forall start: World, actions: seq<Action>, d, id :: Ordinary(build, start, actions) && d in start.nodes ==>
      TimesApplied(build, start, actions, d, id) <= 1
  }

  // A run that ends wrong is enough.

  lemma NotAlwaysMaximum(build: D.Build, start: World, actions: seq<Action>, end: World, d: DeviceId)
    requires Ordinary(build, start, actions) && Run(build, start, actions) == end
    requires d in start.nodes && !WinnerIsMaximum(end, d)
    ensures !AlwaysMaximum(build)
  {
  }

  lemma NotAlwaysConverging(build: D.Build, start: World, actions: seq<Action>, end: World, a: DeviceId, b: DeviceId)
    requires Ordinary(build, start, actions) && Run(build, start, actions) == end
    requires a in start.nodes && b in start.nodes && !SameWinner(end, a, b)
    ensures !AlwaysConverges(build)
  {
  }

  lemma NotAlwaysAgreeing(build: D.Build, start: World, actions: seq<Action>, end: World, a: DeviceId, b: DeviceId)
    requires Ordinary(build, start, actions) && Run(build, start, actions) == end
    requires a in start.nodes && b in start.nodes && !SameClipboard(end, a, b)
    ensures !AlwaysAgrees(build)
  {
  }

  lemma NotAlwaysShown(build: D.Build, start: World, actions: seq<Action>, end: World, d: DeviceId)
    requires Ordinary(build, start, actions) && Run(build, start, actions) == end
    requires d in start.nodes && !WinnerShown(build, end, d)
    ensures !AlwaysShown(build)
  {
  }

  lemma NotAlwaysCausal(build: D.Build, start: World, actions: seq<Action>, end: World, chain: seq<Uuid>)
    requires Ordinary(build, start, actions) && Run(build, start, actions) == end
    requires !ChainOrdered(end, chain)
    ensures !AlwaysCausal(build)
  {
  }

  /** Each winner is the maximum in all ordinary runs exactly in builds that execute the commit. */
  lemma MaximumIff(build: D.Build)
    ensures AlwaysMaximum(build) <==> build.debugAssertions
  {
    if build.debugAssertions {
      forall start: World, actions: seq<Action>, d | Ordinary(build, start, actions) && d in start.nodes
        ensures WinnerIsMaximum(Run(build, start, actions), d)
      {
        CurrentIsMaximum(build, start, actions, d);
      }
    } else {
      PairIsInitial();
      var apart := NewerFirstParts(build);
      ApartDisagrees(apart);
      NotAlwaysMaximum(build, Pair(), NewerFirst(), apart, 2);
    }
  }

  /** Winners converge exactly in those builds. */
  lemma ConvergesIff(build: D.Build)
    ensures AlwaysConverges(build) <==> build.debugAssertions
  {
    if build.debugAssertions {
      forall start: World, actions: seq<Action>, a, b |
        Ordinary(build, start, actions) && a in start.nodes && b in start.nodes
        ensures SameWinner(Run(build, start, actions), a, b)
      {
        Converges(build, start, actions, a, b);
      }
    } else {
      PairIsInitial();
      var apart := NewerFirstParts(build);
      ApartDisagrees(apart);
      NotAlwaysConverging(build, Pair(), NewerFirst(), apart, 1, 2);
    }
  }

  /** So do clipboards: where the commit is skipped, two devices can handle the same two events, once each and
      without a failure, and end with different clipboards for good. */
  lemma AgreesIff(build: D.Build)
    requires Lossless(build.png)
    ensures AlwaysAgrees(build) <==> build.debugAssertions
  {
    if build.debugAssertions {
      forall start: World, actions: seq<Action>, a, b |
        Ordinary(build, start, actions) && a in start.nodes && b in start.nodes
        ensures SameClipboard(Run(build, start, actions), a, b)
      {
        ClipboardsAgree(build, start, actions, a, b);
      }
    } else {
      PairIsInitial();
      var apart := NewerFirstParts(build);
      ApartDisagrees(apart);
      NotAlwaysAgreeing(build, Pair(), NewerFirst(), apart, 1, 2);
    }
  }

  lemma CommittedIsShown(build: D.Build)
    requires Lossless(build.png) && build.debugAssertions
    ensures AlwaysShown(build)
  {
    forall start: World, actions: seq<Action>, d | Ordinary(build, start, actions) && d in start.nodes
      ensures WinnerShown(build, Run(build, start, actions), d)
    {
      ShowsTheWinner(build, start, actions, d);
    }
  }

  /** And settled devices show their winner exactly there. */
  lemma ShownIff(build: D.Build)
    requires Lossless(build.png)
    ensures AlwaysShown(build) <==> build.debugAssertions
  {
    if build.debugAssertions {
      CommittedIsShown(build);
    } else {
      PairIsInitial();
      var crossed := BetweenCrosses(build);
      CrossedBreaks(build, crossed);
      NotAlwaysShown(build, Pair(), Between(), crossed, 2);
    }
  }

  /** Timestamps respect causality in all ordinary runs exactly in those builds: the skipped commit is what
      merges the remote timestamp into the clock. */
  lemma CausalIff(build: D.Build)
    ensures AlwaysCausal(build) <==> build.debugAssertions
  {
    if build.debugAssertions {
      forall start: World, actions: seq<Action>, chain | Ordinary(build, start, actions)
        ensures ChainOrdered(Run(build, start, actions), chain)
      {
        if CausalChain(Run(build, start, actions), chain) && |chain| > 1 {
          CausalityRespected(build, start, actions, chain);
        }
      }
    } else {
      PairIsInitial();
      var crossed := BetweenCrosses(build);
      CrossedBreaks(build, crossed);
      NotAlwaysCausal(build, Pair(), Between(), crossed, [1, 2]);
    }
  }

  /** And so is every event applied at most once. */
  lemma OnceIff(build: D.Build)
    ensures AlwaysOnce(build) <==> build.debugAssertions
  {
    if build.debugAssertions {
      forall start: World, actions: seq<Action>, d, id | Ordinary(build, start, actions) && d in start.nodes
        ensures TimesApplied(build, start, actions, d, id) <= 1
      {
        AppliedAtMostOnce(build, start, actions, d, id);
      }
    } else {
      PairIsInitial();
      var crossed := BetweenCrosses(build);
      assert Ordinary(build, Pair(), Between()) && TimesApplied(build, Pair(), Between(), 2, 1) == 2;
    }
  }
}

/** Crash safety of resumable transfers: sessions may be cut off between any two disk effects, or in the
    middle of a write, and resumed any number of times (crates/network/src/transfer.rs:236-423). */
module TransferRuns {
  import opened Bytes
  import opened Transfer

  /** The bytes each entry should have, when the sender is the one that made the manifest; nothing is
      known of an arbitrary sender. */
  type Sources = Option<seq<seq<byte>>>

  ghost predicate Honest(hash: HashFunction, manifest: Manifest, sources: Sources) {
    sources.Some? ==>
      && |sources.value| == |manifest.entries|
      && forall i :: 0 <= i < |manifest.entries| ==> Verified(hash, manifest.entries[i], sources.value[i])
  }

  // ---------- what the disk may hold ----------

  ghost predicate SlotSound(hash: HashFunction, expected: TransferEntry, source: Option<seq<byte>>, slot: Slot) {
    && (slot.final.Some? ==> Verified(hash, expected, slot.final.value))
    && (slot.partial.Some? ==> slot.final.None? && |slot.partial.value| <= expected.size)
    && (source.Some? ==>
          && (slot.final.Some? ==> slot.final.value == source.value)
          && (slot.partial.Some? ==> slot.partial.value <= source.value))
  }

  function SourceOf(sources: Sources, index: nat): Option<seq<byte>>
    requires sources.Some? ==> index < |sources.value|
  {
    if sources.Some? then Some(sources.value[index]) else None
  }

  /** Final files have the announced size and hash; with the honest sender they are the source, and
      partial files are prefixes of it. */
  ghost predicate DiskSound(hash: HashFunction, manifest: Manifest, sources: Sources, disk: Disk)
    requires Honest(hash, manifest, sources)
  {
    && |disk| == |manifest.entries|
    && forall i :: 0 <= i < |disk| ==> SlotSound(hash, manifest.entries[i], SourceOf(sources, i), disk[i])
  }

  /** Durable bytes of an entry: the resume offset a new session offers. */
  function Offset(slot: Slot): nat {
    if slot.final.Some? then |slot.final.value| else |Held(slot)|
  }

  // ---------- which effects keep it so ----------

  ghost predicate Allowed(hash: HashFunction, expected: TransferEntry, source: Option<seq<byte>>, slot: Slot,
                          change: FileEffect) {
    match change
    case CreatePartial => slot.partial.None? && slot.final.None?
    case Append(bytes) =>
      && slot.partial.Some? && |slot.partial.value| + |bytes| <= expected.size
      && (source.Some? ==> slot.partial.value + bytes <= source.value)
    case RenameToFinal => slot.partial.Some? && Verified(hash, expected, slot.partial.value)
  }

  lemma AllowedKeepsSlot(hash: HashFunction, expected: TransferEntry, source: Option<seq<byte>>, slot: Slot,
                         change: FileEffect)
    requires SlotSound(hash, expected, source, slot) && Allowed(hash, expected, source, slot, change)
    requires source.Some? ==> |source.value| == expected.size
    ensures SlotSound(hash, expected, source, Changed(slot, change))
    ensures Offset(slot) <= Offset(Changed(slot, change))
  {
  }

  ghost predicate AllAllowed(hash: HashFunction, manifest: Manifest, sources: Sources, disk: Disk, effects: seq<Effect>)
    requires Honest(hash, manifest, sources) && |disk| == |manifest.entries|
    decreases |effects|
  {
    effects == [] ||
    var i := effects[0].index;
    && i < |disk|
    && Allowed(hash, manifest.entries[i], SourceOf(sources, i), disk[i], effects[0].change)
    && AllAllowed(hash, manifest, sources, Apply(disk, effects[0]), effects[1..])
  }

  /** The first `count` effects, with the next write cut after `partway` bytes. */
  function CutAt(effects: seq<Effect>, count: nat, partway: nat): seq<Effect> {
    if count >= |effects| then effects
    else
      effects[..count] +
      match effects[count].change
      case Append(bytes) =>
        if partway < |bytes| then [Effect(effects[count].index, Append(bytes[..partway]))] else [effects[count]]
      case _ => []
  }

  lemma {:induction false} CutAllowed(hash: HashFunction, manifest: Manifest, sources: Sources, disk: Disk,
                                      effects: seq<Effect>, count: nat, partway: nat)
    requires Honest(hash, manifest, sources) && |disk| == |manifest.entries|
    requires AllAllowed(hash, manifest, sources, disk, effects)
    ensures AllAllowed(hash, manifest, sources, disk, CutAt(effects, count, partway))
    decreases |effects|
  {
    var cut := CutAt(effects, count, partway);
    if count < |effects| {
      if count == 0 {
        if cut != [] {
          assert cut[1..] == [];
        }
      } else {
        var next := Apply(disk, effects[0]);
        CutAllowed(hash, manifest, sources, next, effects[1..], count - 1, partway);
        assert effects[..count][1..] == effects[1..][..count - 1];
        assert cut[1..] == CutAt(effects[1..], count - 1, partway);
      }
    }
  }

  /** Effects that are allowed keep the disk sound and never lose durable bytes. */
  lemma {:induction false} AllowedKeepsDisk(hash: HashFunction, manifest: Manifest, sources: Sources, disk: Disk,
                                            effects: seq<Effect>)
    requires Honest(hash, manifest, sources) && DiskSound(hash, manifest, sources, disk)
    requires AllAllowed(hash, manifest, sources, disk, effects)
    ensures DiskSound(hash, manifest, sources, ApplyAll(disk, effects))
    ensures forall i :: 0 <= i < |disk| ==> Offset(disk[i]) <= Offset(ApplyAll(disk, effects)[i])
    decreases |effects|
  {
    if effects != [] {
      var i := effects[0].index;
      AllowedKeepsSlot(hash, manifest.entries[i], SourceOf(sources, i), disk[i], effects[0].change);
      AllowedKeepsDisk(hash, manifest, sources, Apply(disk, effects[0]), effects[1..]);
    }
  }

  lemma {:induction false} AllowedConcat(hash: HashFunction, manifest: Manifest, sources: Sources, disk: Disk,
                                         a: seq<Effect>, b: seq<Effect>)
    requires Honest(hash, manifest, sources) && |disk| == |manifest.entries|
    requires AllAllowed(hash, manifest, sources, disk, a)
    requires AllAllowed(hash, manifest, sources, ApplyAll(disk, a), b)
    ensures AllAllowed(hash, manifest, sources, disk, a + b)
    decreases |a|
  {
    if a == [] {
      assert a + b == b;
    } else {
      assert (a + b)[1..] == a[1..] + b;
      AllowedConcat(hash, manifest, sources, Apply(disk, a[0]), a[1..], b);
    }
  }

  // ---------- the receiver emits only such effects ----------

  lemma OneAllowed(hash: HashFunction, manifest: Manifest, sources: Sources, disk: Disk, effects: seq<Effect>)
    requires Honest(hash, manifest, sources) && |disk| == |manifest.entries| && |effects| == 1
    requires effects[0].index < |disk|
    requires var i := effects[0].index;
             Allowed(hash, manifest.entries[i], SourceOf(sources, i), disk[i], effects[0].change)
    ensures AllAllowed(hash, manifest, sources, disk, effects)
  {
    assert effects[1..] == [];
  }

  lemma TwoAllowed(hash: HashFunction, manifest: Manifest, sources: Sources, disk: Disk, effects: seq<Effect>)
    requires Honest(hash, manifest, sources) && |disk| == |manifest.entries| && |effects| == 2
    requires effects[0].index == effects[1].index < |disk|
    requires var i := effects[0].index;
             && Allowed(hash, manifest.entries[i], SourceOf(sources, i), disk[i], effects[0].change)
             && Allowed(hash, manifest.entries[i], SourceOf(sources, i), Changed(disk[i], effects[0].change),
                        effects[1].change)
    ensures AllAllowed(hash, manifest, sources, disk, effects)
  {
    assert effects[1..] == [effects[1]];
    OneAllowed(hash, manifest, sources, Apply(disk, effects[0]), effects[1..]);
  }

  lemma {:induction false} OpenAllowed(hash: HashFunction, manifest: Manifest, sources: Sources, disk: Disk,
                                       index: nat)
    requires Honest(hash, manifest, sources) && DiskSound(hash, manifest, sources, disk) && index < |disk|
    ensures AllAllowed(hash, manifest, sources, disk,
                       At(index, Open(hash, manifest.entries[index], disk[index]).changes))
  {
    var changes := Open(hash, manifest.entries[index], disk[index]).changes;
    var effects := At(index, changes);
    assert SlotSound(hash, manifest.entries[index], SourceOf(sources, index), disk[index]);
    OpensAllowed(hash, manifest.entries[index], SourceOf(sources, index), disk[index]);
    match |changes| {
      case 1 => OneAllowed(hash, manifest, sources, disk, effects);
      case 2 => TwoAllowed(hash, manifest, sources, disk, effects);
      case _ =>
    }
  }

  /** Opening one entry makes at most two changes to its files, each of them allowed. */
  lemma {:induction false} OpensAllowed(hash: HashFunction, expected: TransferEntry, source: Option<seq<byte>>,
                                        slot: Slot)
    requires SlotSound(hash, expected, source, slot)
    ensures var changes := Open(hash, expected, slot).changes;
            && |changes| <= 2
            && (|changes| > 0 ==> Allowed(hash, expected, source, slot, changes[0]))
            && (|changes| > 1 ==> Allowed(hash, expected, source, Changed(slot, changes[0]), changes[1]))
  {
  }

  /** Opening one entry, and then the others on the disk this leaves. */
  lemma OpenNextAllowed(hash: HashFunction, manifest: Manifest, sources: Sources, disk: Disk, index: nat, total: nat,
                        here: seq<Effect>, staged: Disk)
    requires Honest(hash, manifest, sources) && index < |disk| == |manifest.entries|
    requires total + manifest.entries[index].size <= MAX_U64
    requires var one := Open(hash, manifest.entries[index], disk[index]);
             one.result.Ok? && here == At(index, one.changes) && staged == ApplyAll(disk, here)
    requires AllAllowed(hash, manifest, sources, disk, here)
    requires var later := OpenFrom(hash, manifest.entries, staged, index + 1, total + manifest.entries[index].size);
             AllAllowed(hash, manifest, sources, staged, later.effects)
    ensures AllAllowed(hash, manifest, sources, disk, OpenFrom(hash, manifest.entries, disk, index, total).effects)
  {
    var entries, next := manifest.entries, total + manifest.entries[index].size;
    ApplyAt(disk, index, Open(hash, entries[index], disk[index]).changes);
    OpenFromIgnores(hash, entries, disk, staged, index + 1, next);
    AllowedConcat(hash, manifest, sources, disk, here, OpenFrom(hash, entries, disk, index + 1, next).effects);
  }

  lemma {:induction false} OpenFromAllowed(hash: HashFunction, manifest: Manifest, sources: Sources, disk: Disk,
                                           index: nat, total: nat)
    requires Honest(hash, manifest, sources) && DiskSound(hash, manifest, sources, disk) && index <= |disk|
    ensures AllAllowed(hash, manifest, sources, disk, OpenFrom(hash, manifest.entries, disk, index, total).effects)
    decreases |disk| - index, 1
  {
    var entries := manifest.entries;
    if index < |entries| && total + entries[index].size <= MAX_U64 {
      if Open(hash, entries[index], disk[index]).result.Ok? {
        OpenOnAllowed(hash, manifest, sources, disk, index, total);
      } else {
        OpenAllowed(hash, manifest, sources, disk, index);
      }
    }
  }

  lemma {:induction false} OpenOnAllowed(hash: HashFunction, manifest: Manifest, sources: Sources, disk: Disk,
                                         index: nat, total: nat)
    requires Honest(hash, manifest, sources) && DiskSound(hash, manifest, sources, disk) && index < |disk|
    requires total + manifest.entries[index].size <= MAX_U64
    requires Open(hash, manifest.entries[index], disk[index]).result.Ok?
    ensures AllAllowed(hash, manifest, sources, disk, OpenFrom(hash, manifest.entries, disk, index, total).effects)
    decreases |disk| - index, 0
  {
    var here := At(index, Open(hash, manifest.entries[index], disk[index]).changes);
    var staged := ApplyAll(disk, here);
    OpenAllowed(hash, manifest, sources, disk, index);
    AllowedKeepsDisk(hash, manifest, sources, disk, here);
    OpenFromAllowed(hash, manifest, sources, staged, index + 1, total + manifest.entries[index].size);
    OpenNextAllowed(hash, manifest, sources, disk, index, total, here, staged);
  }

  /** A chunk as the honest sender reads it from the source. */
  ghost predicate FromSource(manifest: Manifest, sources: Sources, chunk: TransferChunk) {
    sources.Some? && chunk.transferId == manifest.id && chunk.entryIndex < |sources.value| ==>
      var source := sources.value[chunk.entryIndex];
      chunk.offset + |chunk.bytes| <= |source| && chunk.bytes == source[chunk.offset..chunk.offset + |chunk.bytes|]
  }

  lemma AcceptAllowed(hash: HashFunction, manifest: Manifest, sources: Sources, entries: seq<Receiving>, disk: Disk,
                      chunk: TransferChunk)
    requires Honest(hash, manifest, sources) && DiskSound(hash, manifest, sources, disk)
    requires Consistent(hash, manifest, entries, disk) && FromSource(manifest, sources, chunk)
    ensures AllAllowed(hash, manifest, sources, disk, Accept(hash, manifest, entries, disk, chunk).effects)
  {
    var effects := Accept(hash, manifest, entries, disk, chunk).effects;
    if effects != [] {
      var index := chunk.entryIndex;
      if sources.Some? {
        var source := sources.value[index];
        assert Held(disk[index]) == source[..chunk.offset];
        assert source[..chunk.offset] + chunk.bytes == source[..chunk.offset + |chunk.bytes|];
      }
      if |effects| == 2 {
        TwoAllowed(hash, manifest, sources, disk, effects);
      } else {
        OneAllowed(hash, manifest, sources, disk, effects);
      }
    }
  }

  // ---------- whole runs ----------

  /** Where a call is cut off, if it is: after `count` effects, and `partway` into the next write. */
  datatype Cut = Cut(count: nat, partway: nat)

  datatype Action =
    | BeginSession(space: nat, cut: Option<Cut>)
    | AcceptChunk(chunk: TransferChunk, acceptCut: Option<Cut>)
    | Disconnect
    | Publish

  /** The staging files, the receiver of the running session, and what has been published so far. */
  datatype World = World(disk: Disk, session: Option<seq<Receiving>>, published: seq<seq<Option<seq<byte>>>>)

  function Finals(disk: Disk): (contents: seq<Option<seq<byte>>>)
    ensures |contents| == |disk|
    ensures forall i :: 0 <= i < |disk| ==> contents[i] == disk[i].final
  {
    seq(|disk|, i requires 0 <= i < |disk| => disk[i].final)
  }

  function EmptyDisk(size: nat): (disk: Disk)
    ensures |disk| == size && forall i :: 0 <= i < size ==> disk[i] == Slot(None, None)
  {
    seq(size, i => Slot(None, None))
  }

  /** The disk, and whether the process survives, after the effects of one call. */
  function Perform(disk: Disk, effects: seq<Effect>, cut: Option<Cut>): Disk {
    match cut
    case None => ApplyAll(disk, effects)
    case Some(at) => ApplyAll(disk, CutAt(effects, at.count, at.partway))
  }

  predicate Enabled(world: World, action: Action) {
    action.AcceptChunk? || action.Publish? ==> world.session.Some?
  }

  function Step(hash: HashFunction, manifest: Manifest, world: World, action: Action): World
    requires Enabled(world, action)
    requires |world.disk| == |manifest.entries|
    requires world.session.Some? ==> |world.session.value| == |manifest.entries|
  {
    match action
    case BeginSession(space, cut) =>
      var begun := Begin(hash, manifest, world.disk, space);
      world.(disk := Perform(world.disk, begun.effects, cut),
             session := if cut.None? && begun.result.Ok? && |begun.result.value| == |manifest.entries|
                        then Some(begun.result.value) else None)
    case AcceptChunk(chunk, cut) =>
      var accepted := Accept(hash, manifest, world.session.value, world.disk, chunk);
      world.(disk := Perform(world.disk, accepted.effects, cut),
             session := if cut.None? && |accepted.entries| == |manifest.entries| then Some(accepted.entries) else None)
    case Disconnect => world.(session := None)
    case Publish =>
      if AllComplete(world.session.value)
      then World(EmptyDisk(|world.disk|), None, world.published + [Finals(world.disk)])
      else world.(session := None)
  }

  ghost predicate Fits(manifest: Manifest, world: World) {
    && |world.disk| == |manifest.entries|
    && (world.session.Some? ==> |world.session.value| == |manifest.entries|)
  }

  /** What a published tree must be: every entry present with the announced size and hash, and equal to
      the source when the sender is honest. */
  ghost predicate Exact(hash: HashFunction, manifest: Manifest, sources: Sources, contents: seq<Option<seq<byte>>>) {
    && |contents| == |manifest.entries|
    && (forall i :: 0 <= i < |contents| ==> contents[i].Some? && Verified(hash, manifest.entries[i], contents[i].value))
    && (sources.Some? ==>
          |sources.value| == |contents| && forall i :: 0 <= i < |contents| ==> contents[i] == Some(sources.value[i]))
  }

  ghost predicate Sound(hash: HashFunction, manifest: Manifest, sources: Sources, world: World) {
    && Honest(hash, manifest, sources)
    && DiskSound(hash, manifest, sources, world.disk)
    && (world.session.Some? ==> Consistent(hash, manifest, world.session.value, world.disk))
    && forall contents :: contents in world.published ==> Exact(hash, manifest, sources, contents)
  }

  ghost predicate Possible(hash: HashFunction, manifest: Manifest, sources: Sources, world: World, actions: seq<Action>)
    decreases |actions|
  {
    actions == [] ||
    (&& Fits(manifest, world) && Enabled(world, actions[0])
     && (actions[0].AcceptChunk? ==> FromSource(manifest, sources, actions[0].chunk))
     && Possible(hash, manifest, sources, Step(hash, manifest, world, actions[0]), actions[1..]))
  }

  ghost function Run(hash: HashFunction, manifest: Manifest, sources: Sources, world: World, actions: seq<Action>)
    : World
    requires Possible(hash, manifest, sources, world, actions)
    decreases |actions|
  {
    if actions == [] then world
    else Run(hash, manifest, sources, Step(hash, manifest, world, actions[0]), actions[1..])
  }

  lemma PerformSound(hash: HashFunction, manifest: Manifest, sources: Sources, disk: Disk, effects: seq<Effect>,
                     cut: Option<Cut>)
    requires Honest(hash, manifest, sources) && DiskSound(hash, manifest, sources, disk)
    requires AllAllowed(hash, manifest, sources, disk, effects)
    ensures DiskSound(hash, manifest, sources, Perform(disk, effects, cut))
    ensures forall i :: 0 <= i < |disk| ==> Offset(disk[i]) <= Offset(Perform(disk, effects, cut)[i])
  {
    if cut.Some? {
      CutAllowed(hash, manifest, sources, disk, effects, cut.value.count, cut.value.partway);
      AllowedKeepsDisk(hash, manifest, sources, disk, CutAt(effects, cut.value.count, cut.value.partway));
    } else {
      AllowedKeepsDisk(hash, manifest, sources, disk, effects);
    }
  }

  lemma StepSound(hash: HashFunction, manifest: Manifest, sources: Sources, world: World, action: Action)
    requires Sound(hash, manifest, sources, world) && Enabled(world, action)
    requires action.AcceptChunk? ==> FromSource(manifest, sources, action.chunk)
    ensures Fits(manifest, world) && Sound(hash, manifest, sources, Step(hash, manifest, world, action))
    ensures var after := Step(hash, manifest, world, action);
            |after.published| == |world.published| ==>
              forall i :: 0 <= i < |world.disk| ==> Offset(world.disk[i]) <= Offset(after.disk[i])
  {
    match action {
      case BeginSession(space, cut) =>
        BeginConsistent(hash, manifest, world.disk, space);
        OpenFromAllowed(hash, manifest, sources, world.disk, 0, 0);
        PerformSound(hash, manifest, sources, world.disk, Begin(hash, manifest, world.disk, space).effects, cut);
      case AcceptChunk(chunk, cut) =>
        AcceptConsistent(hash, manifest, world.session.value, world.disk, chunk);
        AcceptAllowed(hash, manifest, sources, world.session.value, world.disk, chunk);
        PerformSound(hash, manifest, sources, world.disk,
                     Accept(hash, manifest, world.session.value, world.disk, chunk).effects, cut);
      case Disconnect =>
      case Publish =>
        if AllComplete(world.session.value) {
          PublishExact(hash, manifest, sources, world);
        }
    }
  }

  lemma PublishExact(hash: HashFunction, manifest: Manifest, sources: Sources, world: World)
    requires Sound(hash, manifest, sources, world) && world.session.Some?
    requires AllComplete(world.session.value)
    ensures Exact(hash, manifest, sources, Finals(world.disk))
  {
    forall i | 0 <= i < |world.disk|
      ensures world.disk[i].final.Some? && Verified(hash, manifest.entries[i], world.disk[i].final.value)
      ensures sources.Some? ==> world.disk[i].final == Some(sources.value[i])
    {
      assert SlotAgrees(hash, manifest.entries[i], world.session.value[i], world.disk[i]);
      assert SlotSound(hash, manifest.entries[i], SourceOf(sources, i), world.disk[i]);
    }
  }

  /** Over any number of sessions cut off anywhere and resumed, partial files stay prefixes of their source
      and whatever is published is exact. With an arbitrary sender, every published entry still has the
      announced size and hash. */
  lemma {:induction false} CrashSafeDelivery(hash: HashFunction, manifest: Manifest, sources: Sources, world: World,
                                             actions: seq<Action>)
    requires Sound(hash, manifest, sources, world) && Possible(hash, manifest, sources, world, actions)
    ensures Sound(hash, manifest, sources, Run(hash, manifest, sources, world, actions))
    decreases |actions|
  {
    if actions != [] {
      StepSound(hash, manifest, sources, world, actions[0]);
      CrashSafeDelivery(hash, manifest, sources, Step(hash, manifest, world, actions[0]), actions[1..]);
    }
  }

  lemma FreshIsSound(hash: HashFunction, manifest: Manifest, sources: Sources)
    requires Honest(hash, manifest, sources)
    ensures Sound(hash, manifest, sources, World(EmptyDisk(|manifest.entries|), None, []))
  {
  }

  /** So from an empty staging disk, everything that is ever published is exact. */
  lemma FreshDelivery(hash: HashFunction, manifest: Manifest, sources: Sources, actions: seq<Action>)
    requires Honest(hash, manifest, sources)
    requires Possible(hash, manifest, sources, World(EmptyDisk(|manifest.entries|), None, []), actions)
    ensures var end := Run(hash, manifest, sources, World(EmptyDisk(|manifest.entries|), None, []), actions);
            forall contents :: contents in end.published ==> Exact(hash, manifest, sources, contents)
  {
    FreshIsSound(hash, manifest, sources);
    CrashSafeDelivery(hash, manifest, sources, World(EmptyDisk(|manifest.entries|), None, []), actions);
  }

  /** Until something is published, no crash, cancellation or resumption loses durable bytes. */
  lemma {:induction false} OffsetsNeverDecrease(hash: HashFunction, manifest: Manifest, sources: Sources, world: World,
                                                actions: seq<Action>)
    requires Sound(hash, manifest, sources, world) && Possible(hash, manifest, sources, world, actions)
    ensures var end := Run(hash, manifest, sources, world, actions);
            && |world.published| <= |end.published|
            && (|end.published| == |world.published| ==>
                  && |end.disk| == |world.disk|
                  && forall i :: 0 <= i < |world.disk| ==> Offset(world.disk[i]) <= Offset(end.disk[i]))
    decreases |actions|
  {
    if actions != [] {
      StepSound(hash, manifest, sources, world, actions[0]);
      OffsetsNeverDecrease(hash, manifest, sources, Step(hash, manifest, world, actions[0]), actions[1..]);
    }
  }

  /** The offsets a new session offers are the durable bytes it found. */
  lemma {:induction false} SessionOffersDurableBytes(hash: HashFunction, entries: seq<TransferEntry>, disk: Disk,
                                                     index: nat, total: nat)
    requires |disk| == |entries| && index <= |entries|
    ensures var begun := OpenFrom(hash, entries, disk, index, total);
            begun.result.Ok? ==>
              && |begun.result.value| == |entries| - index
              && forall i :: 0 <= i < |begun.result.value| ==> begun.result.value[i].received == Offset(disk[index + i])
    decreases |entries| - index
  {
    if index < |entries| && total + entries[index].size <= MAX_U64 {
      SessionOffersDurableBytes(hash, entries, disk, index + 1, total + entries[index].size);
      var begun := OpenFrom(hash, entries, disk, index, total);
      if begun.result.Ok? {
        var rest := OpenFrom(hash, entries, disk, index + 1, total + entries[index].size).result.value;
        forall i | 0 <= i < |begun.result.value| ensures begun.result.value[i].received == Offset(disk[index + i]) {
          if i > 0 {
            assert begun.result.value[i] == rest[i - 1] && index + i == index + 1 + (i - 1);
          }
        }
      }
    }
  }

  // ---------- when a session can begin ----------

  predicate Openable(hash: HashFunction, expected: TransferEntry, slot: Slot) {
    if slot.final.Some? then Verified(hash, expected, slot.final.value)
    else |Held(slot)| < expected.size || Verified(hash, expected, Held(slot))
  }

  lemma {:induction false} OpensIff(hash: HashFunction, entries: seq<TransferEntry>, disk: Disk, index: nat, total: nat)
    requires |disk| == |entries| && index <= |entries| && total <= MAX_U64
    ensures OpenFrom(hash, entries, disk, index, total).result.Ok? <==>
            && total + TotalSize(entries[index..]) <= MAX_U64
            && forall i :: index <= i < |entries| ==> Openable(hash, entries[i], disk[i])
    decreases |entries| - index
  {
    if index < |entries| {
      assert entries[index..][0] == entries[index] && entries[index..][1..] == entries[index + 1..];
      if total + entries[index].size <= MAX_U64 {
        OpensIff(hash, entries, disk, index + 1, total + entries[index].size);
      }
    }
  }

  function Missing(entries: seq<TransferEntry>, disk: Disk): nat
    requires |entries| == |disk|
  {
    if entries == [] then 0
    else
      (if Offset(disk[0]) <= entries[0].size then entries[0].size - Offset(disk[0]) else 0)
      + Missing(entries[1..], disk[1..])
  }

  lemma {:induction false} RemainingIsMissing(entries: seq<TransferEntry>, receiving: seq<Receiving>, disk: Disk)
    requires |entries| == |receiving| == |disk|
    requires forall i :: 0 <= i < |disk| ==> receiving[i].received == Offset(disk[i])
    ensures Remaining(entries, receiving) == Missing(entries, disk)
  {
    if entries != [] {
      RemainingIsMissing(entries[1..], receiving[1..], disk[1..]);
    }
  }

  /** A session begins exactly when there is something to transfer, the sizes add up, every final file is
      verified, no partial file is too long or full with the wrong hash, and the missing bytes fit. */
  lemma BeginSucceedsIff(hash: HashFunction, manifest: Manifest, disk: Disk, space: nat)
    requires |disk| == |manifest.entries|
    ensures Begin(hash, manifest, disk, space).result.Ok? <==>
            && manifest.entries != []
            && TotalSize(manifest.entries) <= MAX_U64
            && (forall i :: 0 <= i < |disk| ==> Openable(hash, manifest.entries[i], disk[i]))
            && space >= Missing(manifest.entries, disk) + SPACE_MARGIN
  {
    OpensIff(hash, manifest.entries, disk, 0, 0);
    assert manifest.entries[0..] == manifest.entries;
    SessionOffersDurableBytes(hash, manifest.entries, disk, 0, 0);
    var begun := OpenFrom(hash, manifest.entries, disk, 0, 0);
    if begun.result.Ok? {
      forall i | 0 <= i < |disk| ensures begun.result.value[i].received == Offset(disk[i]) {
        assert disk[0 + i] == disk[i];
      }
      RemainingIsMissing(manifest.entries, begun.result.value, disk);
    }
  }

  /** A partial file that is full but has the wrong hash. */
  predicate Poisoned(hash: HashFunction, expected: TransferEntry, slot: Slot) {
    && slot.final.None? && slot.partial.Some? && |slot.partial.value| == expected.size
    && hash(slot.partial.value) != expected.hash
  }

  /** The chunk that completes an open entry, at the right offset, with bytes that give another hash. */
  predicate WrongLastChunk(hash: HashFunction, manifest: Manifest, entries: seq<Receiving>, disk: Disk,
                           chunk: TransferChunk)
    requires |entries| == |disk| == |manifest.entries|
  {
    && chunk.transferId == manifest.id && chunk.entryIndex < |entries|
    && var expected, held := manifest.entries[chunk.entryIndex], Held(disk[chunk.entryIndex]);
       && entries[chunk.entryIndex].open
       && chunk.offset == |held| && 0 < |chunk.bytes| <= MAX_CHUNK && |held| + |chunk.bytes| == expected.size
       && hash(held + chunk.bytes) != expected.hash
  }

  /** Exactly such a chunk is answered with a hash mismatch, and exactly it poisons an entry. */
  lemma {:induction false} MismatchPoisons(hash: HashFunction, manifest: Manifest, entries: seq<Receiving>, disk: Disk,
                                           chunk: TransferChunk)
    requires Consistent(hash, manifest, entries, disk)
    ensures var accepted := Accept(hash, manifest, entries, disk, chunk);
            var after := ApplyAll(disk, accepted.effects);
            && (accepted.result == Err(HashMismatch) <==> WrongLastChunk(hash, manifest, entries, disk, chunk))
            && (forall i :: 0 <= i < |disk| && !Poisoned(hash, manifest.entries[i], disk[i]) ==>
                  (Poisoned(hash, manifest.entries[i], after[i])
                   <==> i == chunk.entryIndex && WrongLastChunk(hash, manifest, entries, disk, chunk)))
  {
    var accepted := Accept(hash, manifest, entries, disk, chunk);
    if chunk.entryIndex < |entries| {
      assert SlotAgrees(hash, manifest.entries[chunk.entryIndex], entries[chunk.entryIndex], disk[chunk.entryIndex]);
    }
    match |accepted.effects| {
      case 1 => ApplyOne(disk, accepted.effects);
      case 2 => ApplyTwo(disk, accepted.effects);
      case _ =>
    }
  }

  /** On a sound disk a session begins exactly when there is something to transfer, the sizes add up, no empty
      file is announced with another hash than that of no bytes, no entry is poisoned, and the space suffices. */
  lemma BeginsUnlessPoisoned(hash: HashFunction, manifest: Manifest, sources: Sources, disk: Disk, space: nat)
    requires Honest(hash, manifest, sources) && DiskSound(hash, manifest, sources, disk)
    ensures Begin(hash, manifest, disk, space).result.Ok? <==>
            && manifest.entries != [] && TotalSize(manifest.entries) <= MAX_U64
            && space >= Missing(manifest.entries, disk) + SPACE_MARGIN
            && (forall entry :: entry in manifest.entries && entry.size == 0 ==> hash([]) == entry.hash)
            && (forall i :: 0 <= i < |disk| ==> !Poisoned(hash, manifest.entries[i], disk[i]))
  {
    BeginSucceedsIff(hash, manifest, disk, space);
    forall i | 0 <= i < |disk|
      ensures Openable(hash, manifest.entries[i], disk[i])
         <==> !Poisoned(hash, manifest.entries[i], disk[i])
              && (manifest.entries[i].size == 0 ==> hash([]) == manifest.entries[i].hash)
    {
      assert SlotSound(hash, manifest.entries[i], SourceOf(sources, i), disk[i]);
      OpenableIff(hash, manifest.entries[i], SourceOf(sources, i), disk[i]);
    }
    if forall i :: 0 <= i < |disk| ==> Openable(hash, manifest.entries[i], disk[i]) {
      forall entry | entry in manifest.entries && entry.size == 0 ensures hash([]) == entry.hash {
        var i := IndexOf(manifest.entries, entry);
        assert Openable(hash, manifest.entries[i], disk[i]);
      }
    }
  }

  function IndexOf(entries: seq<TransferEntry>, entry: TransferEntry): (i: nat)
    requires entry in entries
    ensures i < |entries| && entries[i] == entry
  {
    if entries[0] == entry then 0 else 1 + IndexOf(entries[1..], entry)
  }

  lemma OpenableIff(hash: HashFunction, expected: TransferEntry, source: Option<seq<byte>>, slot: Slot)
    requires SlotSound(hash, expected, source, slot)
    ensures Openable(hash, expected, slot)
       <==> !Poisoned(hash, expected, slot) && (expected.size == 0 ==> hash([]) == expected.hash)
  {
    if expected.size == 0 {
      if slot.final.Some? {
        assert slot.final.value == [];
      } else {
        assert Held(slot) == [];
      }
    }
  }

  /** While the sender reads the files it announced, no entry is ever poisoned: after any run of sessions cut
      off anywhere, the next one begins exactly if there is something to transfer that fits. */
  lemma HonestNeverPoisons(hash: HashFunction, manifest: Manifest, sources: Sources, world: World,
                           actions: seq<Action>, space: nat)
    requires Sound(hash, manifest, sources, world) && Possible(hash, manifest, sources, world, actions)
    requires sources.Some?
    ensures var disk := Run(hash, manifest, sources, world, actions).disk;
            && |disk| == |manifest.entries|
            && (forall i :: 0 <= i < |disk| ==> !Poisoned(hash, manifest.entries[i], disk[i]))
            && (Begin(hash, manifest, disk, space).result.Ok? <==>
                  && manifest.entries != [] && TotalSize(manifest.entries) <= MAX_U64
                  && space >= Missing(manifest.entries, disk) + SPACE_MARGIN)
  {
    CrashSafeDelivery(hash, manifest, sources, world, actions);
    var disk := Run(hash, manifest, sources, world, actions).disk;
    forall i | 0 <= i < |disk| ensures !Poisoned(hash, manifest.entries[i], disk[i]) {
      assert SlotSound(hash, manifest.entries[i], SourceOf(sources, i), disk[i]);
      assert Verified(hash, manifest.entries[i], sources.value[i]);
      if disk[i].partial.Some? && |disk[i].partial.value| == manifest.entries[i].size {
        assert disk[i].partial.value == sources.value[i];
      }
    }
    forall entry | entry in manifest.entries && entry.size == 0 ensures hash([]) == entry.hash {
      var i := IndexOf(manifest.entries, entry);
      assert Verified(hash, entry, sources.value[i]) && sources.value[i] == [];
    }
    BeginsUnlessPoisoned(hash, manifest, sources, disk, space);
  }

  /** Nothing removes it: every later session with this manifest fails to begin. */
  lemma {:induction false} PoisonedForever(hash: HashFunction, manifest: Manifest, sources: Sources, world: World,
                                           actions: seq<Action>, i: nat)
    requires Possible(hash, manifest, sources, world, actions)
    requires i < |world.disk| && |world.disk| == |manifest.entries| && world.session == None
    requires Poisoned(hash, manifest.entries[i], world.disk[i])
    ensures var end := Run(hash, manifest, sources, world, actions);
            && end.session == None && end.published == world.published
            && i < |end.disk| && end.disk[i] == world.disk[i]
    decreases |actions|
  {
    if actions != [] {
      if actions[0].BeginSession? {
        PoisonedOpening(hash, manifest, world.disk, actions[0].space, actions[0].cut, i);
      }
      PoisonedForever(hash, manifest, sources, Step(hash, manifest, world, actions[0]), actions[1..], i);
    }
  }

  lemma PoisonedOpening(hash: HashFunction, manifest: Manifest, disk: Disk, space: nat, cut: Option<Cut>, i: nat)
    requires i < |disk| == |manifest.entries| && Poisoned(hash, manifest.entries[i], disk[i])
    ensures var begun := Begin(hash, manifest, disk, space);
            begun.result.Err? && Perform(disk, begun.effects, cut)[i] == disk[i]
  {
    BeginSucceedsIff(hash, manifest, disk, space);
    var effects := Begin(hash, manifest, disk, space).effects;
    OpenFromAvoids(hash, manifest.entries, disk, 0, 0, i);
    UntouchedSlot(disk, effects, i);
    if cut.Some? {
      UntouchedSlot(disk, CutAt(effects, cut.value.count, cut.value.partway), i);
    }
  }

  lemma {:induction false} OpenFromAvoids(hash: HashFunction, entries: seq<TransferEntry>, disk: Disk, index: nat,
                                          total: nat, i: nat)
    requires |disk| == |entries| && index <= |entries| && i < |disk| && Poisoned(hash, entries[i], disk[i])
    ensures forall e :: e in OpenFrom(hash, entries, disk, index, total).effects ==> e.index != i
    decreases |entries| - index
  {
    if index < |entries| {
      OpenFromAvoids(hash, entries, disk, index + 1, total + entries[index].size, i);
    }
  }

  lemma {:induction false} UntouchedSlot(disk: Disk, effects: seq<Effect>, i: nat)
    requires i < |disk| && forall e :: e in effects ==> e.index != i
    ensures ApplyAll(disk, effects)[i] == disk[i]
    decreases |effects|
  {
    if effects != [] {
      assert effects[0] in effects;
      UntouchedSlot(Apply(disk, effects[0]), effects[1..], i);
    }
  }

  /** For instance: from an empty staging disk, a sender announces one file of one byte with the hash of
      another byte, and sends it. The session fails, the partial file stays full, and nothing more happens
      in any later session, whatever it sends. */
  lemma PoisonedExample(hash: HashFunction, later: seq<Action>)
    requires hash([0]) != hash([1])
    ensures var manifest := Manifest(7, 2, "a", [TransferEntry("a", 1, hash([1]))]);
            var begin := BeginSession(SPACE_MARGIN + 1, None);
            var chunk := AcceptChunk(TransferChunk(7, 0, 0, [0]), None);
            var empty := World(EmptyDisk(1), None, []);
            var begun := Step(hash, manifest, empty, begin);
            && Enabled(begun, chunk) && Fits(manifest, begun)
            && var failed := Step(hash, manifest, begun, chunk);
               && Poisoned(hash, manifest.entries[0], failed.disk[0])
               && (Possible(hash, manifest, None, failed.(session := None), later) ==>
                     Run(hash, manifest, None, failed.(session := None), later).published == [])
  {
    var entry := TransferEntry("a", 1, hash([1]));
    var manifest := Manifest(7, 2, "a", [entry]);
    var begin := BeginSession(SPACE_MARGIN + 1, None);
    var chunk := AcceptChunk(TransferChunk(7, 0, 0, [0]), None);
    var begun := World([Slot(Some([]), None)], Some([Receiving(0, false, true)]), []);
    OneEntryBegins(hash, manifest, entry);
    assert Step(hash, manifest, World(EmptyDisk(1), None, []), begin) == begun;
    var accepted := Accept(hash, manifest, begun.session.value, begun.disk, chunk.chunk);
    assert [] + [0] == [0];
    ApplyOne(begun.disk, accepted.effects);
    var failed := Step(hash, manifest, begun, chunk);
    if Possible(hash, manifest, None, failed.(session := None), later) {
      PoisonedForever(hash, manifest, None, failed.(session := None), later, 0);
    }
  }

  lemma OneEntryBegins(hash: HashFunction, manifest: Manifest, entry: TransferEntry)
    requires manifest.entries == [entry] && entry.size == 1
    ensures var begun := Begin(hash, manifest, EmptyDisk(1), SPACE_MARGIN + 1);
            && begun.result == Ok([Receiving(0, false, true)])
            && ApplyAll(EmptyDisk(1), begun.effects) == [Slot(Some([]), None)]
  {
    var empty := EmptyDisk(1);
    var one := Receiving(0, false, true);
    var later := OpenFrom(hash, [entry], empty, 1, 1);
    assert later == Begun([], Ok([]));
    assert Open(hash, entry, empty[0]) == Opened([CreatePartial], Ok(one));
    assert [Effect(0, CreatePartial)] + later.effects == [Effect(0, CreatePartial)];
    assert [one] + later.result.value == [one];
    var begun := OpenFrom(hash, [entry], empty, 0, 0);
    assert At(0, [CreatePartial]) == [Effect(0, CreatePartial)] by {
      assert [CreatePartial][1..] == [];
    }
    assert begun == Begun([Effect(0, CreatePartial)], Ok([Receiving(0, false, true)]));
    ApplyOne(empty, begun.effects);
    assert [entry][1..] == [] && [one][1..] == [];
    assert Remaining([], []) == 0 && Remaining([entry], [one]) == 1;
  }
}

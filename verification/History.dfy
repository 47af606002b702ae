/** What history gives back: a stored entry restores the value that was stored, for as long as the device
    runs (crates/sync/src/lib.rs:28-62, 319-377). */
module History {
  import opened Bytes
  import opened LossyText
  import opened Clock
  import opened ClipboardValue
  import opened ClipboardCodec
  import opened Events
  import opened HistoryStore
  import opened Cluster
  import Ledger
  import D = Device

  /** Reconstruct a pasteable value from one history entry. */
  function Restore(build: D.Build, blobs: set<ContentHash>, entry: Entry): Result<Value, D.SyncError> {
    if entry.kind.TextKind? then
      if entry.text.Some? && entry.text.value != [] then Ok(Text(entry.text.value)) else Err(D.UnexpectedEvent)
    else if entry.blob.None? then Err(D.UnexpectedEvent)
    else if entry.blob.value !in blobs then Err(D.BlobFailed)
    else
      var decoded :=
        match entry.kind
        case HtmlKind => DecodeValue(build.png, HtmlFormat, entry.blob.value)
        case RtfKind => DecodeValue(build.png, RtfFormat, entry.blob.value)
        case ImageKind => DecodePng(build.png, entry.blob.value)
        case _ => DecodedPaths(entry.blob.value);
      match decoded
      case Err(error) => Err(D.Codec(error))
      case Ok(value) => Ok(value)
  }

  /** `bytes` stand for `value` in this format. */
  predicate StandsFor(build: D.Build, format: Format, bytes: seq<byte>, value: Value) {
    if format.FilesFormat? then value.Files? && Valid(value) && bytes == PathRecords(value.paths)
    else DecodeValue(build.png, format, bytes) == Ok(value)
  }

  /** Whatever is stored restores to the value it stands for, as its encoding shows it: a list of paths that
      are not all text restores to their texts. */
  lemma StoredRestores(build: D.Build, device: D.Device, event: ClipboardEvent, bytes: seq<byte>, value: Value,
                       application: Option<string>, sensitive: bool, faults: D.Faults)
    requires event.id !in device.history && StandsFor(build, event.format, bytes, value)
    ensures var (after, result) := D.Persist(build, device, event, bytes, Some(value), application, sensitive, faults);
            result.Ok? ==>
              && event.id in after.history
              && Restore(build, after.blobs, after.history[event.id]) == Ok(Shown(value))
              && (Restore(build, after.blobs, after.history[event.id]) == Ok(value)
                  <==> (value.Files? ==> AllText(value.paths)))
  {
    if event.format.FilesFormat? {
      FilesRestore(build, device, event, bytes, value, application, sensitive, faults);
    } else {
      DecodedRestores(build, device, event, bytes, value, application, sensitive, faults);
    }
  }

  lemma FilesRestore(build: D.Build, device: D.Device, event: ClipboardEvent, bytes: seq<byte>, value: Value,
                     application: Option<string>, sensitive: bool, faults: D.Faults)
    requires event.id !in device.history && event.format.FilesFormat? && StandsFor(build, event.format, bytes, value)
    ensures var (after, result) := D.Persist(build, device, event, bytes, Some(value), application, sensitive, faults);
            result.Ok? ==>
              && event.id in after.history
              && Restore(build, after.blobs, after.history[event.id]) == Ok(Shown(value))
              && (Shown(value) == value <==> AllText(value.paths))
  {
    FilesPersist(build, device, event, bytes, value, application, sensitive, faults);
    ShownIffText(value);
    PathsSurviveIff(value);
  }

  lemma FilesPersist(build: D.Build, device: D.Device, event: ClipboardEvent, bytes: seq<byte>, value: Value,
                     application: Option<string>, sensitive: bool, faults: D.Faults)
    requires event.id !in device.history && event.format.FilesFormat? && value.Files?
    ensures var (after, result) := D.Persist(build, device, event, bytes, Some(value), application, sensitive, faults);
            result.Ok? ==>
              && event.id in after.history
              && after.history[event.id].kind.FilesKind?
              && after.history[event.id].blob == Some(bytes) && bytes in after.blobs
  {
  }

  /** Every other format is stored as the bytes that were decoded, and never holds a file list. */
  lemma DecodedRestores(build: D.Build, device: D.Device, event: ClipboardEvent, bytes: seq<byte>, value: Value,
                        application: Option<string>, sensitive: bool, faults: D.Faults)
    requires event.id !in device.history && !event.format.FilesFormat? && StandsFor(build, event.format, bytes, value)
    ensures !value.Files? && Shown(value) == value
    ensures var (after, result) := D.Persist(build, device, event, bytes, Some(value), application, sensitive, faults);
            result.Ok? ==>
              && event.id in after.history
              && Restore(build, after.blobs, after.history[event.id]) == Ok(value)
  {
    DecodedIsValid(build.png, event.format, bytes);
  }

  /** In every build, an event that was applied or superseded here for the first time restores to what it
      carries: storing comes before the commit. */
  lemma ReceivedRestores(build: D.Build, device: D.Device, event: ClipboardEvent, bytes: seq<byte>, now: Millis,
                         faults: D.Faults)
    requires event.id !in device.history
    ensures var (after, result) := D.ApplyBytes(build, device, event, bytes, now, faults);
            (result == Ok(D.Applied) || result == Ok(D.Superseded)) ==>
              && event.id in after.history && DecodeValue(build.png, event.format, bytes).Ok?
              && Restore(build, after.blobs, after.history[event.id])
                   == Ok(DecodeValue(build.png, event.format, bytes).value)
              && (result == Ok(D.Applied) ==>
                   Restore(build, after.blobs, after.history[event.id]) == Ok(after.clipboard.value))
  {
    var decoded := DecodeValue(build.png, event.format, bytes);
    if decoded.Ok? {
      var committed := device.(ledger := Ledger.Receive(device.ledger, event, now));
      var written := D.Overwrite(device, decoded.value, faults.write).0;
      StoredRestores(build, committed, event, bytes, decoded.value, None, false, faults);
      StoredRestores(build, written, event, bytes, decoded.value, None, false, faults);
    }
  }

  /** A captured copy restores to the clipboard value, exactly unless it is an image over the decoding limit. */
  lemma CaptureRestores(build: D.Build, device: D.Device, capture: D.Capture)
    requires Lossless(build.png) && capture.id !in device.history
    ensures var (after, result) := D.PollLocal(build, device, capture);
            PollCreates(result).Some? ==>
              && capture.id in after.history && device.clipboard.Some?
              && (Restore(build, after.blobs, after.history[capture.id]) == Ok(device.clipboard.value)
                  <==> !Oversized(device.clipboard.value))
  {
    var (after, result) := D.PollLocal(build, device, capture);
    if PollCreates(result).Some? {
      var value, event := device.clipboard.value, result.value.value;
      var encoded := EncodeValue(build.png, value).value;
      var ticked := device.(lastDigest := DigestOf(value), ledger := Ledger.NextTimestamp(device.ledger, capture.now));
      CaptureStores(build, ticked, event, encoded, value, capture);
      DecodeInvertsEncode(build.png, value, encoded);
    }
  }

  /** Storing an encoded value restores whatever the encoding decodes to. */
  lemma CaptureStores(build: D.Build, device: D.Device, event: ClipboardEvent, encoded: Encoded, value: Value,
                      capture: D.Capture)
    requires EncodeValue(build.png, value) == Ok(encoded) && event.format == encoded.format && Valid(value)
    requires event.id !in device.history && Lossless(build.png)
    ensures var (after, result) := D.Persist(build, device, event, encoded.bytes, Some(value), capture.application,
                                             capture.disposition.Sensitive?, capture.faults);
            result.Ok? ==>
              && event.id in after.history
              && (Restore(build, after.blobs, after.history[event.id]) == Ok(value)
                  <==> DecodeValue(build.png, encoded.format, encoded.bytes) == Ok(value))
  {
    DecodeInvertsEncode(build.png, value, encoded);
  }

  // ---------- what happens to an entry ----------

  /** The same row, whatever its pin. */
  predicate SameRow(before: Entry, after: Entry) {
    after == before.(pinnedAt := after.pinnedAt)
  }

  ghost predicate Kept(before: D.Device, after: D.Device) {
    && before.blobs <= after.blobs
    && forall id :: id in before.history ==> id in after.history && after.history[id] == before.history[id]
  }

  lemma PersistKeeps(build: D.Build, device: D.Device, event: ClipboardEvent, bytes: seq<byte>, decoded: Option<Value>,
                     application: Option<string>, sensitive: bool, faults: D.Faults)
    ensures Kept(device, D.Persist(build, device, event, bytes, decoded, application, sensitive, faults).0)
  {
  }

  lemma ReadyKeeps(build: D.Build, device: D.Device, event: ClipboardEvent, value: Value, bytes: seq<byte>, now: Millis,
                   faults: D.Faults)
    ensures Kept(device, D.ApplyReady(build, device, event, value, bytes, now, faults).0)
  {
    var committed := device.(ledger := Ledger.Receive(device.ledger, event, now));
    PersistKeeps(build, committed, event, bytes, Some(value), None, false, faults);
    PersistKeeps(build, D.Overwrite(device, value, faults.write).0, event, bytes, Some(value), None, false, faults);
  }

  lemma DeliverKeeps(build: D.Build, device: D.Device, event: ClipboardEvent, delivery: Delivery, now: Millis,
                     faults: D.Faults)
    ensures Kept(device, DeliverTo(build, device, event, delivery, now, faults).0)
  {
    forall value, bytes {
      ReadyKeeps(build, device, event, value, bytes, now, faults);
    }
  }

  lemma PollKeeps(build: D.Build, device: D.Device, capture: D.Capture)
    ensures Kept(device, D.PollLocal(build, device, capture).0)
  {
  }

  lemma ShareKeeps(build: D.Build, device: D.Device, capture: D.Capture, paths: seq<Path>, transferId: TransferId)
    ensures Kept(device, D.RecordFiles(build, device, capture, paths, transferId).0)
  {
  }

  /** The user of `d` deletes the entry: removes it, or prunes with a cutoff past it while it is not pinned. */
  predicate Deletes(world: World, action: Action, d: DeviceId, id: Uuid)
    requires d in world.nodes && id in world.nodes[d].device.history
  {
    && action.at == d
    && ((action.Remove? && action.id == id)
        || (action.Prune? && Prunable(action.retention, world.nodes[d].device.history[id])))
  }

  /** An entry survives an action exactly unless the action deletes it; nothing changes but its pin. */
  lemma SurvivesIff(build: D.Build, world: World, action: Action, d: DeviceId, id: Uuid)
    requires Enabled(world, action) && d in world.nodes && id in world.nodes[d].device.history
    ensures var before := world.nodes[d].device;
            && d in Step(build, world, action).nodes
            && var after := Step(build, world, action).nodes[d].device;
               && before.blobs <= after.blobs
               && (id in after.history <==> !Deletes(world, action, d, id))
               && (id in after.history ==> SameRow(before.history[id], after.history[id]))
               && (id in after.history && !(action.Pin? && action.at == d && action.id == id) ==>
                     after.history[id] == before.history[id])
  {
    StepActs(build, world, action);
    if action.at == d {
      ActedSurvives(build, world, action, id);
    }
  }

  lemma ActedSurvives(build: D.Build, world: World, action: Action, id: Uuid)
    requires Enabled(world, action) && id in world.nodes[action.at].device.history
    ensures var before, after := world.nodes[action.at].device, Acted(build, world, action);
            && before.blobs <= after.blobs
            && (id in after.history <==> !Deletes(world, action, action.at, id))
            && (id in after.history ==> SameRow(before.history[id], after.history[id]))
            && (id in after.history && !(action.Pin? && action.id == id) ==> after.history[id] == before.history[id])
  {
    var device := world.nodes[action.at].device;
    match action {
      case Poll(_, capture) => PollKeeps(build, device, capture);
      case ShareFiles(_, capture, paths, transferId) => ShareKeeps(build, device, capture, paths, transferId);
      case Deliver(_, other, delivery, now, faults) =>
        DeliverKeeps(build, device, world.events[other], delivery, now, faults);
      case _ =>
    }
  }

  /** No action of the run deletes the entry. */
  ghost predicate Spared(build: D.Build, world: World, actions: seq<Action>, d: DeviceId, id: Uuid)
    requires Possible(build, world, actions)
    decreases |actions|
  {
    actions == [] ||
    (&& d in world.nodes && id in world.nodes[d].device.history && !Deletes(world, actions[0], d, id)
     && Spared(build, Step(build, world, actions[0]), actions[1..], d, id))
  }

  lemma RestoreIgnoresPin(build: D.Build, blobs: set<ContentHash>, larger: set<ContentHash>, before: Entry,
                          after: Entry)
    requires blobs <= larger && SameRow(before, after)
    ensures Restore(build, blobs, before).Ok? ==> Restore(build, larger, after) == Restore(build, blobs, before)
  {
  }

  /** In every run, until its user deletes it, an entry is kept as it is but for its pin, and restores to
      what it restored to before, whatever else the device receives, captures, prunes or fails to do. */
  lemma {:induction false} RestoresUntilDeleted(build: D.Build, world: World, actions: seq<Action>, d: DeviceId,
                                                id: Uuid)
    requires Possible(build, world, actions) && d in world.nodes && id in world.nodes[d].device.history
    requires Spared(build, world, actions, d, id)
    ensures var end := Run(build, world, actions);
            && d in end.nodes && id in end.nodes[d].device.history
            && SameRow(world.nodes[d].device.history[id], end.nodes[d].device.history[id])
            && (Restore(build, world.nodes[d].device.blobs, world.nodes[d].device.history[id]).Ok? ==>
                  Restore(build, end.nodes[d].device.blobs, end.nodes[d].device.history[id])
                  == Restore(build, world.nodes[d].device.blobs, world.nodes[d].device.history[id]))
    decreases |actions|
  {
    if actions != [] {
      var next := Step(build, world, actions[0]);
      SurvivesIff(build, world, actions[0], d, id);
      RestoreIgnoresPin(build, world.nodes[d].device.blobs, next.nodes[d].device.blobs,
                        world.nodes[d].device.history[id], next.nodes[d].device.history[id]);
      RestoresUntilDeleted(build, next, actions[1..], d, id);
    }
  }

  /** Actions that leave alone a pinned entry: nothing removes it or takes its pin away. */
  predicate LeavesPinned(action: Action, d: DeviceId, id: Uuid) {
    action.at == d ==>
      !(action.Remove? && action.id == id) && !(action.Pin? && action.id == id && action.pinnedAt.None?)
  }

  /** Pinned entries survive every pruning. */
  lemma {:induction false} PinnedSpared(build: D.Build, world: World, actions: seq<Action>, d: DeviceId, id: Uuid)
    requires Possible(build, world, actions) && d in world.nodes && id in world.nodes[d].device.history
    requires world.nodes[d].device.history[id].pinnedAt.Some? && forall a :: a in actions ==> LeavesPinned(a, d, id)
    ensures Spared(build, world, actions, d, id)
    decreases |actions|
  {
    if actions != [] {
      assert LeavesPinned(actions[0], d, id);
      SurvivesIff(build, world, actions[0], d, id);
      PinnedSpared(build, Step(build, world, actions[0]), actions[1..], d, id);
    }
  }

  /** Actions that leave alone an entry created at `createdAt`: nothing removes it and no cutoff is past it. */
  predicate LeavesNewer(action: Action, d: DeviceId, id: Uuid, createdAt: nat) {
    action.at == d ==>
      && !(action.Remove? && action.id == id)
      && (action.Prune? && action.retention.Before? ==> action.retention.cutoff <= createdAt)
  }

  /** Entries no older than any cutoff survive every pruning, pinned or not. */
  lemma {:induction false} NewerSpared(build: D.Build, world: World, actions: seq<Action>, d: DeviceId, id: Uuid)
    requires Possible(build, world, actions) && d in world.nodes && id in world.nodes[d].device.history
    requires forall a :: a in actions ==> LeavesNewer(a, d, id, world.nodes[d].device.history[id].createdAt)
    ensures Spared(build, world, actions, d, id)
    decreases |actions|
  {
    if actions != [] {
      assert LeavesNewer(actions[0], d, id, world.nodes[d].device.history[id].createdAt);
      SurvivesIff(build, world, actions[0], d, id);
      NewerSpared(build, Step(build, world, actions[0]), actions[1..], d, id);
    }
  }
}

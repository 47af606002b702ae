/** The receiver of a resumable file transfer (crates/network/src/transfer.rs) as functions over its
    memory and the staging files on disk, with every disk effect listed in order. */
module Transfer {
  import opened Bytes

  const MAX_CHUNK: nat := 256 * 1024
  const MAX_U64: nat := 0xFFFF_FFFF_FFFF_FFFF
  const SPACE_MARGIN: nat := 16 * 1024 * 1024

  /** File lengths stop at the signed 64-bit limit of the operating systems. */
  type FileSize = n: nat | n <= 0x7FFF_FFFF_FFFF_FFFF

  /** A content hash, and the function that computes it: nothing is assumed about collisions. */
  type Hash = nat
  type HashFunction = seq<byte> -> Hash

  type TransferId = nat
  type DeviceId = nat

  datatype TransferEntry = TransferEntry(relativePath: string, size: FileSize, hash: Hash)

  datatype Manifest = Manifest(id: TransferId, origin: DeviceId, name: string, entries: seq<TransferEntry>)

  datatype TransferChunk = TransferChunk(transferId: TransferId, entryIndex: nat, offset: nat, bytes: seq<byte>)

  datatype TransferError =
    | InvalidManifest
    | InsufficientSpace
    | WrongTransfer
    | UnknownEntry
    | WrongOffset
    | InvalidChunkSize
    | HashMismatch
    | IncompleteTransfer
    | InvalidResumeState
    | OriginMismatch
    | SizeOverflow

  /** The staged files of one manifest entry: the partial file and the verified final file. */
  datatype Slot = Slot(partial: Option<seq<byte>>, final: Option<seq<byte>>)

  type Disk = seq<Slot>

  /** What the receiver remembers of one entry. */
  datatype Receiving = Receiving(received: nat, complete: bool, open: bool)

  // ---------- disk effects ----------

  datatype FileEffect =
    | CreatePartial
    | Append(bytes: seq<byte>)
    | RenameToFinal

  datatype Effect = Effect(index: nat, change: FileEffect)

  function Held(slot: Slot): seq<byte> {
    if slot.partial.Some? then slot.partial.value else []
  }

  function Changed(slot: Slot, change: FileEffect): Slot {
    match change
    case CreatePartial => slot.(partial := Some([]))
    case Append(bytes) => slot.(partial := Some(Held(slot) + bytes))
    case RenameToFinal => Slot(None, Some(Held(slot)))
  }

  function Apply(disk: Disk, effect: Effect): (after: Disk)
    ensures |after| == |disk|
  {
    if effect.index < |disk| then disk[effect.index := Changed(disk[effect.index], effect.change)] else disk
  }

  function ApplyAll(disk: Disk, effects: seq<Effect>): (after: Disk)
    ensures |after| == |disk|
    decreases |effects|
  {
    if effects == [] then disk else ApplyAll(Apply(disk, effects[0]), effects[1..])
  }

  lemma {:induction false} ApplyAllConcat(disk: Disk, a: seq<Effect>, b: seq<Effect>)
    ensures ApplyAll(disk, a + b) == ApplyAll(ApplyAll(disk, a), b)
    decreases |a|
  {
    if a == [] {
      assert a + b == b;
    } else {
      assert (a + b)[1..] == a[1..] + b;
      ApplyAllConcat(Apply(disk, a[0]), a[1..], b);
    }
  }

  // ---------- begin ----------

  datatype Opened = Opened(changes: seq<FileEffect>, result: Result<Receiving, TransferError>)

  predicate Verified(hash: HashFunction, entry: TransferEntry, bytes: seq<byte>) {
    |bytes| == entry.size && hash(bytes) == entry.hash
  }

  /** Open or resume one entry. */
  function Open(hash: HashFunction, entry: TransferEntry, slot: Slot): Opened {
    if slot.final.Some? then
      if Verified(hash, entry, slot.final.value) then Opened([], Ok(Receiving(entry.size, true, false)))
      else Opened([], Err(InvalidResumeState))
    else if slot.partial.Some? && |slot.partial.value| > entry.size then Opened([], Err(InvalidResumeState))
    else
      var created := if slot.partial.None? then [CreatePartial] else [];
      var received := |Held(slot)|;
      if received < entry.size then Opened(created, Ok(Receiving(received, false, true)))
      else if hash(Held(slot)) != entry.hash then Opened(created, Err(HashMismatch))
      else Opened(created + [RenameToFinal], Ok(Receiving(received, true, false)))
  }

  function At(index: nat, changes: seq<FileEffect>): (effects: seq<Effect>)
    ensures |effects| == |changes|
    ensures forall i :: 0 <= i < |changes| ==> effects[i] == Effect(index, changes[i])
  {
    if changes == [] then [] else [Effect(index, changes[0])] + At(index, changes[1..])
  }

  datatype Begun = Begun(effects: seq<Effect>, result: Result<seq<Receiving>, TransferError>)

  /** Bytes still to come: what the free-space check asks for. */
  function Remaining(entries: seq<TransferEntry>, receiving: seq<Receiving>): nat
    requires |entries| == |receiving|
  {
    if entries == [] then 0
    else (if receiving[0].received <= entries[0].size then entries[0].size - receiving[0].received else 0)
         + Remaining(entries[1..], receiving[1..])
  }

  function TotalSize(entries: seq<TransferEntry>): nat {
    if entries == [] then 0 else entries[0].size + TotalSize(entries[1..])
  }

  /** Open the entries from `index` on, `total` being the size of those before. */
  function OpenFrom(hash: HashFunction, entries: seq<TransferEntry>, disk: Disk, index: nat, total: nat): Begun
    requires |disk| == |entries| && index <= |entries|
    decreases |entries| - index
  {
    if index == |entries| then Begun([], Ok([]))
    else if total + entries[index].size > MAX_U64 then Begun([], Err(SizeOverflow))
    else
      var entryOpened := Open(hash, entries[index], disk[index]);
      match entryOpened.result
      case Err(error) => Begun(At(index, entryOpened.changes), Err(error))
      case Ok(receiving) =>
        var rest := OpenFrom(hash, entries, disk, index + 1, total + entries[index].size);
        Begun(At(index, entryOpened.changes) + rest.effects,
              match rest.result
              case Err(error) => Err(error)
              case Ok(later) => Ok([receiving] + later))
  }

  function Begin(hash: HashFunction, manifest: Manifest, disk: Disk, space: nat): Begun
    requires |disk| == |manifest.entries|
  {
    if manifest.entries == [] then Begun([], Err(InvalidManifest))
    else
      var entryOpened := OpenFrom(hash, manifest.entries, disk, 0, 0);
      match entryOpened.result
      case Err(_) => entryOpened
      case Ok(receiving) =>
        if |receiving| == |manifest.entries| && space < Remaining(manifest.entries, receiving) + SPACE_MARGIN
        then Begun(entryOpened.effects, Err(InsufficientSpace)) else entryOpened
  }

  // ---------- accept ----------

  datatype Accepted = Accepted(entries: seq<Receiving>, effects: seq<Effect>, result: Result<(), TransferError>)

  /** Apply one ordered chunk, and finalize its file when it is complete. */
  function Accept(hash: HashFunction, manifest: Manifest, entries: seq<Receiving>, disk: Disk, chunk: TransferChunk)
    : Accepted
    requires |entries| == |disk| == |manifest.entries|
  {
    if chunk.transferId != manifest.id then Accepted(entries, [], Err(WrongTransfer))
    else if chunk.entryIndex >= |entries| then Accepted(entries, [], Err(UnknownEntry))
    else
      var index := chunk.entryIndex;
      var entry, expected := entries[index], manifest.entries[index];
      if entry.complete || chunk.offset != entry.received then Accepted(entries, [], Err(WrongOffset))
      else if chunk.bytes == [] || |chunk.bytes| > MAX_CHUNK || entry.received + |chunk.bytes| > expected.size then
        Accepted(entries, [], Err(InvalidChunkSize))
      else if !entry.open then Accepted(entries, [], Err(IncompleteTransfer))
      else
        var received := entry.received + |chunk.bytes|;
        var written := Effect(index, Append(chunk.bytes));
        if received < expected.size then
          Accepted(entries[index := entry.(received := received)], [written], Ok(()))
        else if hash(Held(disk[index]) + chunk.bytes) != expected.hash then
          Accepted(entries[index := Receiving(received, false, false)], [written], Err(HashMismatch))
        else
          Accepted(entries[index := Receiving(received, true, false)],
                   [written, Effect(index, RenameToFinal)], Ok(()))
  }

  predicate AllComplete(entries: seq<Receiving>) {
    forall i :: 0 <= i < |entries| ==> entries[i].complete
  }

  // ---------- progress ----------

  function ReceivedBytes(entries: seq<Receiving>): nat {
    if entries == [] then 0 else entries[0].received + ReceivedBytes(entries[1..])
  }

  function CompletedFiles(entries: seq<Receiving>): nat {
    if entries == [] then 0 else (if entries[0].complete then 1 else 0) + CompletedFiles(entries[1..])
  }

  // ---------- memory and disk agree ----------

  ghost predicate SlotAgrees(hash: HashFunction, expected: TransferEntry, entry: Receiving, slot: Slot) {
    && entry.received <= expected.size
    && (entry.complete ==> !entry.open && entry.received == expected.size
                           && slot.final.Some? && Verified(hash, expected, slot.final.value))
    && (!entry.complete ==> slot.final.None? && slot.partial.Some? && |slot.partial.value| == entry.received)
    && (entry.open ==> entry.received < expected.size)
    && (!entry.complete && !entry.open ==> entry.received == expected.size)
  }

  /** Complete entries are verified final files; an open entry has received exactly its partial file; an
      entry that is neither is a full partial file with the wrong hash. */
  ghost predicate Consistent(hash: HashFunction, manifest: Manifest, entries: seq<Receiving>, disk: Disk) {
    && |entries| == |disk| == |manifest.entries|
    && forall i :: 0 <= i < |entries| ==> SlotAgrees(hash, manifest.entries[i], entries[i], disk[i])
  }

  lemma AcceptConsistent(hash: HashFunction, manifest: Manifest, entries: seq<Receiving>, disk: Disk,
                         chunk: TransferChunk)
    requires Consistent(hash, manifest, entries, disk)
    ensures var accepted := Accept(hash, manifest, entries, disk, chunk);
            Consistent(hash, manifest, accepted.entries, ApplyAll(disk, accepted.effects))
  {
    var accepted := Accept(hash, manifest, entries, disk, chunk);
    match |accepted.effects| {
      case 1 => ApplyOne(disk, accepted.effects);
      case 2 => ApplyTwo(disk, accepted.effects);
      case _ =>
    }
  }

  lemma ApplyOne(disk: Disk, effects: seq<Effect>)
    requires |effects| == 1
    ensures ApplyAll(disk, effects) == Apply(disk, effects[0])
  {
    assert effects[1..] == [];
  }

  lemma ApplyTwo(disk: Disk, effects: seq<Effect>)
    requires |effects| == 2
    ensures ApplyAll(disk, effects) == Apply(Apply(disk, effects[0]), effects[1])
  {
    assert effects[1..] == [effects[1]];
    ApplyOne(Apply(disk, effects[0]), effects[1..]);
  }

  lemma OpenAgrees(hash: HashFunction, expected: TransferEntry, slot: Slot)
    requires Open(hash, expected, slot).result.Ok?
    ensures SlotAgrees(hash, expected, Open(hash, expected, slot).result.value,
                       ChangedAll(slot, Open(hash, expected, slot).changes))
  {
    var changes := Open(hash, expected, slot).changes;
    assert forall change: FileEffect :: ChangedAll(slot, [change]) == Changed(slot, change) by {
      forall change: FileEffect ensures ChangedAll(slot, [change]) == Changed(slot, change) {
        assert [change][1..] == [];
      }
    }
    if changes == [CreatePartial, RenameToFinal] {
      assert changes[1..] == [RenameToFinal] && [RenameToFinal][1..] == [];
    }
  }

  function ChangedAll(slot: Slot, changes: seq<FileEffect>): Slot
    decreases |changes|
  {
    if changes == [] then slot else ChangedAll(Changed(slot, changes[0]), changes[1..])
  }

  lemma {:induction false} ApplyAt(disk: Disk, index: nat, changes: seq<FileEffect>)
    requires index < |disk|
    ensures ApplyAll(disk, At(index, changes)) == disk[index := ChangedAll(disk[index], changes)]
    decreases |changes|
  {
    if changes != [] {
      var next := Apply(disk, Effect(index, changes[0]));
      assert At(index, changes)[1..] == At(index, changes[1..]);
      ApplyAt(next, index, changes[1..]);
      assert next[index := ChangedAll(next[index], changes[1..])] == disk[index := ChangedAll(disk[index], changes)];
    } else {
      assert disk[index := disk[index]] == disk;
    }
  }

  /** `receiving` describes the entries from `index` on as they are on disk. */
  ghost predicate AgreesFrom(hash: HashFunction, entries: seq<TransferEntry>, disk: Disk, index: nat,
                             receiving: seq<Receiving>)
    requires |disk| == |entries|
  {
    && index + |receiving| == |entries|
    && forall i :: 0 <= i < |receiving| ==> SlotAgrees(hash, entries[index + i], receiving[i], disk[index + i])
  }

  lemma AgreesPrepend(hash: HashFunction, entries: seq<TransferEntry>, disk: Disk, index: nat, first: Receiving,
                      later: seq<Receiving>)
    requires |disk| == |entries| && index < |entries|
    requires SlotAgrees(hash, entries[index], first, disk[index]) && AgreesFrom(hash, entries, disk, index + 1, later)
    ensures AgreesFrom(hash, entries, disk, index, [first] + later)
  {
    var all := [first] + later;
    forall i | 0 <= i < |all| ensures SlotAgrees(hash, entries[index + i], all[i], disk[index + i]) {
      if i > 0 {
        assert all[i] == later[i - 1] && index + i == index + 1 + (i - 1);
      }
    }
  }

  /** Opening from `index` on makes those entries agree with the disk and leaves the others' files alone. */
  lemma {:induction false} OpenFromAgrees(hash: HashFunction, entries: seq<TransferEntry>, disk: Disk, index: nat,
                                          total: nat)
    requires |disk| == |entries| && index <= |entries|
    ensures var begun := OpenFrom(hash, entries, disk, index, total);
            var after := ApplyAll(disk, begun.effects);
            && after[..index] == disk[..index]
            && (begun.result.Ok? ==> AgreesFrom(hash, entries, after, index, begun.result.value))
    decreases |entries| - index
  {
    if index < |entries| && total + entries[index].size <= MAX_U64 {
      var entryOpened := Open(hash, entries[index], disk[index]);
      ApplyAt(disk, index, entryOpened.changes);
      if entryOpened.result.Ok? {
        var here := At(index, entryOpened.changes);
        var rest := OpenFrom(hash, entries, disk, index + 1, total + entries[index].size);
        var staged := ApplyAll(disk, here);
        OpenAgrees(hash, entries[index], disk[index]);
        OpenFromIgnores(hash, entries, disk, staged, index + 1, total + entries[index].size);
        OpenFromAgrees(hash, entries, staged, index + 1, total + entries[index].size);
        ApplyAllConcat(disk, here, rest.effects);
        var after := ApplyAll(staged, rest.effects);
        assert after[..index] == after[..index + 1][..index] && after[index] == after[..index + 1][index];
        if rest.result.Ok? {
          AgreesPrepend(hash, entries, after, index, entryOpened.result.value, rest.result.value);
        }
      }
    }
  }

  lemma {:induction false} OpenFromIgnores(hash: HashFunction, entries: seq<TransferEntry>, disk: Disk, other: Disk,
                                           index: nat, total: nat)
    requires |disk| == |other| == |entries| && index <= |entries|
    requires forall i :: index <= i < |entries| ==> disk[i] == other[i]
    ensures OpenFrom(hash, entries, disk, index, total) == OpenFrom(hash, entries, other, index, total)
    decreases |entries| - index
  {
    if index < |entries| {
      OpenFromIgnores(hash, entries, disk, other, index + 1, total + entries[index].size);
    }
  }

  lemma BeginConsistent(hash: HashFunction, manifest: Manifest, disk: Disk, space: nat)
    requires |disk| == |manifest.entries|
    ensures var begun := Begin(hash, manifest, disk, space);
            begun.result.Ok? ==> Consistent(hash, manifest, begun.result.value, ApplyAll(disk, begun.effects))
  {
    if manifest.entries != [] {
      OpenFromAgrees(hash, manifest.entries, disk, 0, 0);
    }
  }
}

/** The transfer receiver and its staging disk as mutable objects (crates/network/src/transfer.rs). */
module TransferReceiver {
  import opened Bytes
  import opened Transfer
  import FreshName

  /** The staging files; they outlive every receiver. */
  class StagingDisk {
    var slots: Disk

    constructor (size: nat)
      ensures |slots| == size && forall i :: 0 <= i < size ==> slots[i] == Slot(None, None)
    {
      slots := seq(size, i => Slot(None, None));
    }

    /** Carry out one effect. */
    method Perform(index: nat, change: FileEffect)
      requires index < |slots|
      modifies this
      ensures slots == Apply(old(slots), Effect(index, change))
    {
      slots := slots[index := Changed(slots[index], change)];
    }
  }

  datatype TransferProgress = TransferProgress(
    totalBytes: nat,
    completedBytes: nat,
    completedFiles: nat,
    totalFiles: nat,
    currentFile: Option<string>)

  /** The first entry still to be completed. */
  function Position(entries: seq<Receiving>): (index: nat)
    ensures index <= |entries|
    ensures forall i :: 0 <= i < index ==> entries[i].complete
    ensures index < |entries| ==> !entries[index].complete
  {
    if entries == [] || !entries[0].complete then 0 else 1 + Position(entries[1..])
  }

  /** `name` is the path of the first entry that is not complete. */
  ghost predicate FirstIncomplete(manifest: Manifest, entries: seq<Receiving>, name: string)
    requires |entries| == |manifest.entries|
  {
    exists i :: 0 <= i < |entries| && !entries[i].complete && manifest.entries[i].relativePath == name
                && forall j :: 0 <= j < i ==> entries[j].complete
  }

  class Receiver {
    const hash: HashFunction
    const manifest: Manifest
    const disk: StagingDisk
    const totalBytes: nat
    var entries: seq<Receiving>

    ghost predicate Valid()
      reads this, disk
    {
      && Consistent(hash, manifest, entries, disk.slots)
      && totalBytes == TotalSize(manifest.entries) <= MAX_U64
    }

    constructor (hash: HashFunction, manifest: Manifest, disk: StagingDisk, entries: seq<Receiving>, totalBytes: nat)
      requires Consistent(hash, manifest, entries, disk.slots)
      requires totalBytes == TotalSize(manifest.entries) <= MAX_U64
      ensures Valid() && this.hash == hash && this.manifest == manifest && this.disk == disk && this.entries == entries
    {
      this.hash := hash;
      this.manifest := manifest;
      this.disk := disk;
      this.entries := entries;
      this.totalBytes := totalBytes;
    }

    method Accept(chunk: TransferChunk) returns (result: Result<(), TransferError>)
      requires Valid()
      modifies this, disk
      ensures Valid()
      ensures var specified := Transfer.Accept(hash, manifest, old(entries), old(disk.slots), chunk);
              && result == specified.result && entries == specified.entries
              && disk.slots == ApplyAll(old(disk.slots), specified.effects)
    {
      ghost var before := disk.slots;
      ghost var specified := Transfer.Accept(hash, manifest, entries, before, chunk);
      AcceptConsistent(hash, manifest, entries, before, chunk);
      if chunk.transferId != manifest.id {
        return Err(WrongTransfer);
      }
      if chunk.entryIndex >= |entries| {
        return Err(UnknownEntry);
      }
      var index := chunk.entryIndex;
      var entry, expected := entries[index], manifest.entries[index];
      if entry.complete || chunk.offset != entry.received {
        return Err(WrongOffset);
      }
      if chunk.bytes == [] || |chunk.bytes| > MAX_CHUNK || entry.received + |chunk.bytes| > expected.size {
        return Err(InvalidChunkSize);
      }
      if !entry.open {
        return Err(IncompleteTransfer);
      }
      disk.Perform(index, Append(chunk.bytes));
      var received := entry.received + |chunk.bytes|;
      entries := entries[index := entry.(received := received)];
      if received == expected.size {
        entries := entries[index := Receiving(received, false, false)];
        if hash(Held(disk.slots[index])) != expected.hash {
          ApplyOne(before, specified.effects);
          return Err(HashMismatch);
        }
        disk.Perform(index, RenameToFinal);
        entries := entries[index := Receiving(received, true, false)];
        ApplyTwo(before, specified.effects);
      } else {
        ApplyOne(before, specified.effects);
      }
      return Ok(());
    }

    /** Current byte offsets, suitable for a resume message. */
    method ResumeOffsets() returns (offsets: seq<nat>)
      requires Valid()
      ensures |offsets| == |entries| && forall i :: 0 <= i < |entries| ==> offsets[i] == entries[i].received
    {
      var here := entries;
      offsets := seq<nat>(|here|, i requires 0 <= i < |here| => here[i].received);
    }

    method Progress() returns (progress: TransferProgress)
      requires Valid()
      ensures progress.totalBytes == TotalSize(manifest.entries) && progress.totalFiles == |entries|
      ensures progress.completedBytes == ReceivedBytes(entries) && progress.completedFiles == CompletedFiles(entries)
      ensures progress.currentFile.None? <==> AllComplete(entries)
      ensures progress.currentFile.Some? ==> FirstIncomplete(manifest, entries, progress.currentFile.value)
    {
      var index := Position(entries);
      progress := TransferProgress(totalBytes, ReceivedBytes(entries), CompletedFiles(entries), |entries|,
                                   if index < |entries| then Some(manifest.entries[index].relativePath) else None);
    }

    /** Publishing needs every entry verified; it moves the staged files into the incoming directory, under a
        name that nothing there has. */
    method Finish(incoming: IncomingDirectory) returns (result: Result<PublishedTransfer, TransferError>)
      requires Valid() && |incoming.files| < FreshName.MAX_SUFFIX
      modifies incoming
      ensures result.Ok? <==> AllComplete(entries)
      ensures result.Err? ==> result.error == IncompleteTransfer && incoming.files == old(incoming.files)
      ensures result.Ok? ==> Moved(hash, manifest, disk.slots, old(incoming.files), incoming.files, result.value)
    {
      if exists i :: 0 <= i < |entries| && !entries[i].complete {
        return Err(IncompleteTransfer);
      }
      var destination := FreshName.AvailableDestination(incoming.files.Keys, manifest.name);
      var slots := disk.slots;
      var contents := seq(|slots|, i requires 0 <= i < |slots| && slots[i].final.Some? => slots[i].final.value);
      incoming.files := incoming.files[destination.value := contents];
      return Ok(PublishedTransfer(manifest.id, manifest.origin, destination.value));
    }
  }

  /** What is in a directory, by name: the contents of a transfer's files. */
  type Files = map<string, seq<seq<byte>>>

  /** The directory of finished transfers. */
  class IncomingDirectory {
    var files: Files

    constructor (files: Files)
      ensures this.files == files
    {
      this.files := files;
    }
  }

  datatype PublishedTransfer = PublishedTransfer(id: TransferId, origin: DeviceId, destination: string)

  /** The verified files of a transfer arrived under the first free name, and all else is as it was. */
  ghost predicate Moved(hash: HashFunction, manifest: Manifest, slots: Disk, before: Files, after: Files,
                        transfer: PublishedTransfer) {
    && transfer.id == manifest.id && transfer.origin == manifest.origin
    && FreshName.FirstFree(before.Keys, manifest.name, transfer.destination) && transfer.destination !in before
    && transfer.destination in after
    && var contents := after[transfer.destination];
       && after == before[transfer.destination := contents]
       && |contents| == |slots| == |manifest.entries|
       && forall i :: 0 <= i < |contents| ==>
            slots[i].final == Some(contents[i]) && Verified(hash, manifest.entries[i], contents[i])
  }

  lemma {:induction false} RemainingAppend(entries: seq<TransferEntry>, receiving: seq<Receiving>, entry: TransferEntry,
                                           last: Receiving)
    requires |entries| == |receiving| && last.received <= entry.size
    ensures Remaining(entries + [entry], receiving + [last])
          == Remaining(entries, receiving) + (entry.size - last.received)
  {
    if entries == [] {
      assert entries + [entry] == [entry] && receiving + [last] == [last];
      assert Remaining([], []) == 0;
    } else {
      assert (entries + [entry])[1..] == entries[1..] + [entry];
      assert (receiving + [last])[1..] == receiving[1..] + [last];
      RemainingAppend(entries[1..], receiving[1..], entry, last);
    }
  }

  lemma {:induction false} TotalAppend(entries: seq<TransferEntry>, entry: TransferEntry)
    ensures TotalSize(entries + [entry]) == TotalSize(entries) + entry.size
  {
    if entries == [] {
      assert entries + [entry] == [entry];
    } else {
      assert (entries + [entry])[1..] == entries[1..] + [entry];
      TotalAppend(entries[1..], entry);
    }
  }

  /** Open or resume one entry, one disk effect after the other. */
  method OpenEntry(hash: HashFunction, expected: TransferEntry, disk: StagingDisk, index: nat)
    returns (result: Result<Receiving, TransferError>)
    requires index < |disk.slots|
    modifies disk
    ensures result.Ok? ==> result.value.received <= expected.size
    ensures var specified := Open(hash, expected, old(disk.slots)[index]);
            result == specified.result && disk.slots == ApplyAll(old(disk.slots), At(index, specified.changes))
  {
    var slot := disk.slots[index];
    ghost var before := disk.slots;
    ghost var effects := At(index, Open(hash, expected, slot).changes);
    if slot.final.Some? {
      if !Verified(hash, expected, slot.final.value) {
        return Err(InvalidResumeState);
      }
      return Ok(Receiving(expected.size, true, false));
    }
    if slot.partial.Some? && |slot.partial.value| > expected.size {
      return Err(InvalidResumeState);
    }
    if slot.partial.None? {
      disk.Perform(index, CreatePartial);
    }
    var received := |Held(slot)|;
    if received < expected.size {
      if |effects| == 1 { ApplyOne(before, effects); }
      return Ok(Receiving(received, false, true));
    }
    if hash(Held(disk.slots[index])) != expected.hash {
      if |effects| == 1 { ApplyOne(before, effects); }
      return Err(HashMismatch);
    }
    disk.Perform(index, RenameToFinal);
    if |effects| == 1 { ApplyOne(before, effects); } else { ApplyTwo(before, effects); }
    return Ok(Receiving(received, true, false));
  }

  /** The disk and the result that opening all the entries is to come to. */
  type Goal = (Disk, Result<seq<Receiving>, TransferError>)

  /** What opening the entries from `index` on comes to: the disk and the result. */
  function Left(hash: HashFunction, entries: seq<TransferEntry>, before: Disk, now: Disk, index: nat, total: nat,
                receiving: seq<Receiving>): Goal
    requires |before| == |entries| && index <= |entries|
  {
    var rest := OpenFrom(hash, entries, before, index, total);
    (ApplyAll(now, rest.effects), if rest.result.Err? then rest.result else Ok(receiving + rest.result.value))
  }

  /** Part way through opening: what is left to do comes to `goal`. */
  ghost predicate Midway(hash: HashFunction, entries: seq<TransferEntry>, before: Disk, now: Disk, index: nat,
                         total: nat, receiving: seq<Receiving>, goal: Goal)
    requires |before| == |now| == |entries| && index <= |entries|
  {
    && (forall i :: index <= i < |before| ==> now[i] == before[i])
    && Left(hash, entries, before, now, index, total, receiving) == goal
  }

  lemma LeftAll(hash: HashFunction, entries: seq<TransferEntry>, before: Disk)
    requires |before| == |entries|
    ensures var specified := OpenFrom(hash, entries, before, 0, 0);
            Left(hash, entries, before, before, 0, 0, []) == (ApplyAll(before, specified.effects), specified.result)
  {
    var specified := OpenFrom(hash, entries, before, 0, 0);
    if specified.result.Ok? {
      assert [] + specified.result.value == specified.result.value;
    }
  }

  lemma {:induction false} LeftOpened(hash: HashFunction, entries: seq<TransferEntry>, before: Disk, now: Disk,
                                      index: nat, total: nat, receiving: seq<Receiving>, one: Opened, after: Disk)
    requires |before| == |now| == |entries| && index < |entries| && total + entries[index].size <= MAX_U64
    requires now[index] == before[index] && one == Open(hash, entries[index], now[index]) && one.result.Ok?
    requires after == ApplyAll(now, At(index, one.changes))
    ensures Left(hash, entries, before, now, index, total, receiving)
         == Left(hash, entries, before, after, index + 1, total + entries[index].size,
                 receiving + [one.result.value])
  {
    var later := OpenFrom(hash, entries, before, index + 1, total + entries[index].size);
    ApplyAllConcat(now, At(index, one.changes), later.effects);
    if later.result.Ok? {
      assert receiving + ([one.result.value] + later.result.value)
          == (receiving + [one.result.value]) + later.result.value;
    }
  }

  lemma {:induction false} LeftFails(hash: HashFunction, entries: seq<TransferEntry>, before: Disk, now: Disk,
                                     index: nat, total: nat, receiving: seq<Receiving>, one: Opened)
    requires |before| == |now| == |entries| && index < |entries| && total + entries[index].size <= MAX_U64
    requires now[index] == before[index] && one == Open(hash, entries[index], now[index]) && one.result.Err?
    ensures Left(hash, entries, before, now, index, total, receiving)
         == (ApplyAll(now, At(index, one.changes)), Err(one.result.error))
  {
  }

  lemma LeftNone(hash: HashFunction, entries: seq<TransferEntry>, before: Disk, now: Disk, total: nat,
                 receiving: seq<Receiving>)
    requires |before| == |entries|
    ensures Left(hash, entries, before, now, |entries|, total, receiving) == (now, Ok(receiving))
  {
    assert receiving + [] == receiving;
  }

  datatype Staged = Staged(entries: seq<Receiving>, total: nat, required: nat)

  /** The running sums over the entries opened so far. */
  ghost predicate Summed(entries: seq<TransferEntry>, staged: Staged)
    requires |staged.entries| <= |entries|
  {
    && staged.total == TotalSize(entries[..|staged.entries|]) <= MAX_U64
    && staged.required == Remaining(entries[..|staged.entries|], staged.entries)
  }

  lemma SumsStep(entries: seq<TransferEntry>, staged: Staged, receiving: Receiving)
    requires |staged.entries| < |entries| && Summed(entries, staged)
    requires staged.total + entries[|staged.entries|].size <= MAX_U64
    requires receiving.received <= entries[|staged.entries|].size
    ensures Summed(entries, Extended(staged, entries[|staged.entries|], receiving))
  {
    var index := |staged.entries|;
    assert entries[..index + 1] == entries[..index] + [entries[index]];
    TotalAppend(entries[..index], entries[index]);
    RemainingAppend(entries[..index], staged.entries, entries[index], receiving);
  }

  ghost predicate Progressed(hash: HashFunction, entries: seq<TransferEntry>, before: Disk, now: Disk, staged: Staged,
                             goal: Goal)
  {
    && |before| == |now| == |entries| && |staged.entries| <= |entries|
    && Midway(hash, entries, before, now, |staged.entries|, staged.total, staged.entries, goal)
  }

  lemma ProgressStarts(hash: HashFunction, entries: seq<TransferEntry>, before: Disk)
    requires |before| == |entries|
    ensures Progressed(hash, entries, before, before, Staged([], 0, 0), Left(hash, entries, before, before, 0, 0, []))
    ensures Summed(entries, Staged([], 0, 0))
  {
  }

  function Extended(staged: Staged, entry: TransferEntry, receiving: Receiving): Staged
    requires receiving.received <= entry.size
  {
    Staged(staged.entries + [receiving], staged.total + entry.size, staged.required + (entry.size - receiving.received))
  }

  lemma OpenedWithin(hash: HashFunction, entry: TransferEntry, slot: Slot)
    ensures var one := Open(hash, entry, slot);
            one.result.Ok? ==> one.result.value.received <= entry.size
  {
  }

  lemma {:induction false} ProgressStep(hash: HashFunction, entries: seq<TransferEntry>, before: Disk, now: Disk,
                                        staged: Staged, one: Opened, after: Disk, goal: Goal)
    requires Progressed(hash, entries, before, now, staged, goal) && |staged.entries| < |entries|
    requires staged.total + entries[|staged.entries|].size <= MAX_U64
    requires one == Open(hash, entries[|staged.entries|], now[|staged.entries|]) && one.result.Ok?
    requires after == ApplyAll(now, At(|staged.entries|, one.changes))
    ensures one.result.value.received <= entries[|staged.entries|].size
    ensures Progressed(hash, entries, before, after, Extended(staged, entries[|staged.entries|], one.result.value),
                       goal)
  {
    var index := |staged.entries|;
    OpenedWithin(hash, entries[index], now[index]);
    MidwayStep(hash, entries, before, now, index, staged.total, staged.entries, one, after, goal);
  }

  lemma {:induction false} MidwayStep(hash: HashFunction, entries: seq<TransferEntry>, before: Disk, now: Disk,
                                      index: nat, total: nat, receiving: seq<Receiving>, one: Opened, after: Disk,
                                      goal: Goal)
    requires |before| == |now| == |entries| && index < |entries| && total + entries[index].size <= MAX_U64
    requires Midway(hash, entries, before, now, index, total, receiving, goal)
    requires one == Open(hash, entries[index], now[index]) && one.result.Ok?
    requires after == ApplyAll(now, At(index, one.changes))
    ensures |after| == |now|
    ensures Midway(hash, entries, before, after, index + 1, total + entries[index].size,
                   receiving + [one.result.value], goal)
  {
    LeftOpened(hash, entries, before, now, index, total, receiving, one, after);
    ApplyAt(now, index, one.changes);
  }

  /** When opening stops, with an error or at the end, the result and the disk are the specified ones. */
  ghost predicate Settled(hash: HashFunction, entries: seq<TransferEntry>, before: Disk, now: Disk,
                          result: Result<Staged, TransferError>) {
    && |before| == |now| == |entries|
    && now == ApplyAll(before, OpenFrom(hash, entries, before, 0, 0).effects)
    && OpenFrom(hash, entries, before, 0, 0).result
       == (if result.Ok? then Ok(result.value.entries) else Err(result.error))
    && (result.Ok? ==>
          && |result.value.entries| == |entries|
          && result.value.total == TotalSize(entries) <= MAX_U64
          && result.value.required == Remaining(entries, result.value.entries))
  }

  lemma ProgressEnds(hash: HashFunction, entries: seq<TransferEntry>, before: Disk, now: Disk, staged: Staged)
    requires |before| == |entries| && |staged.entries| <= |entries| && Summed(entries, staged)
    requires Progressed(hash, entries, before, now, staged, Left(hash, entries, before, before, 0, 0, []))
    ensures |staged.entries| == |entries| ==> Settled(hash, entries, before, now, Ok(staged))
    ensures |staged.entries| < |entries| && staged.total + entries[|staged.entries|].size > MAX_U64
            ==> Settled(hash, entries, before, now, Err(SizeOverflow))
    ensures |staged.entries| < |entries| && staged.total + entries[|staged.entries|].size <= MAX_U64 ==>
              var index := |staged.entries|;
              var one := Open(hash, entries[index], now[index]);
              one.result.Err? ==>
                Settled(hash, entries, before, ApplyAll(now, At(index, one.changes)), Err(one.result.error))
  {
    LeftAll(hash, entries, before);
    var index := |staged.entries|;
    if index == |entries| {
      assert entries[..|entries|] == entries;
      LeftNone(hash, entries, before, now, staged.total, staged.entries);
    } else if staged.total + entries[index].size <= MAX_U64 {
      var one := Open(hash, entries[index], now[index]);
      if one.result.Err? {
        LeftFails(hash, entries, before, now, index, staged.total, staged.entries, one);
      }
    }
  }

  /** Open every entry in order, adding up the sizes and the bytes still to come. */
  method OpenEntries(hash: HashFunction, entries: seq<TransferEntry>, disk: StagingDisk)
    returns (result: Result<Staged, TransferError>)
    requires |disk.slots| == |entries|
    modifies disk
    ensures Settled(hash, entries, old(disk.slots), disk.slots, result)
  {
    ghost var before := disk.slots;
    ghost var goal := Left(hash, entries, before, before, 0, 0, []);
    ProgressStarts(hash, entries, before);
    var staged := Staged([], 0, 0);
    while |staged.entries| < |entries|
      invariant |staged.entries| <= |entries| == |disk.slots|
      invariant Summed(entries, staged)
      invariant Progressed(hash, entries, before, disk.slots, staged, goal)
    {
      var entry := entries[|staged.entries|];
      ProgressEnds(hash, entries, before, disk.slots, staged);
      if staged.total + entry.size > MAX_U64 {
        return Err(SizeOverflow);
      }
      ghost var now := disk.slots;
      var one := OpenEntry(hash, entry, disk, |staged.entries|);
      if one.Err? {
        return Err(one.error);
      }
      SumsStep(entries, staged, one.value);
      ProgressStep(hash, entries, before, now, staged, Open(hash, entry, now[|staged.entries|]), disk.slots, goal);
      staged := Extended(staged, entry, one.value);
    }
    ProgressEnds(hash, entries, before, disk.slots, staged);
    return Ok(staged);
  }

  /** Start or resume a session: open the entries, then check the free space. */
  method Begin(hash: HashFunction, manifest: Manifest, disk: StagingDisk, space: nat)
    returns (result: Result<Receiver, TransferError>)
    requires |disk.slots| == |manifest.entries|
    modifies disk
    ensures var specified := Transfer.Begin(hash, manifest, old(disk.slots), space);
            && disk.slots == ApplyAll(old(disk.slots), specified.effects)
            && (result.Err? ==> specified.result == Err(result.error))
            && (result.Ok? ==> specified.result == Ok(result.value.entries))
    ensures result.Ok? ==> fresh(result.value) && result.value.Valid() && result.value.disk == disk
                           && result.value.hash == hash && result.value.manifest == manifest
  {
    if manifest.entries == [] {
      return Err(InvalidManifest);
    }
    BeginConsistent(hash, manifest, disk.slots, space);
    var staged := OpenEntries(hash, manifest.entries, disk);
    if staged.Err? {
      return Err(staged.error);
    }
    if space < staged.value.required + SPACE_MARGIN {
      return Err(InsufficientSpace);
    }
    var receiver := new Receiver(hash, manifest, disk, staged.value.entries, staged.value.total);
    return Ok(receiver);
  }
}

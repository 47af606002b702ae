/** The receiving loop of a transfer session, and the two sides together
    (crates/network/src/session.rs:139-202). */
module ReceiveSession {
  import opened Bytes
  import opened Transfer
  import opened TransferReceiver
  import opened TransferRuns
  import opened Session
  import Frame
  import FreshName

  datatype ReceiveError =
    | ReceiveCancelled
    | StreamClosed
    | UnexpectedMessage
    | Rejected(error: TransferError)
    | ReplyFailed(frameError: Frame.FrameError)

  function Offsets(entries: seq<Receiving>): (offsets: seq<nat>)
    ensures |offsets| == |entries| && forall i :: 0 <= i < |entries| ==> offsets[i] == entries[i].received
  {
    seq(|entries|, i requires 0 <= i < |entries| => entries[i].received)
  }

  predicate AnyMissing(manifest: Manifest, entries: seq<Receiving>)
    requires |entries| == |manifest.entries|
  {
    exists i :: 0 <= i < |entries| && entries[i].received < manifest.entries[i].size
  }

  datatype Handled = Handled(entries: seq<Receiving>, disk: Disk, error: Option<ReceiveError>)

  /** What one message does. */
  function Handle(hash: HashFunction, manifest: Manifest, entries: seq<Receiving>, disk: Disk, message: Message)
    : (r: Handled)
    requires |entries| == |disk| == |manifest.entries|
    ensures |r.entries| == |r.disk| == |manifest.entries|
  {
    match message
    case CancelMessage(id) =>
      Handled(entries, disk, Some(if id == manifest.id then ReceiveCancelled else UnexpectedMessage))
    case ChunkMessage(chunk) =>
      var accepted := Accept(hash, manifest, entries, disk, chunk);
      Handled(accepted.entries, ApplyAll(disk, accepted.effects),
              if accepted.result.Err? then Some(Rejected(accepted.result.error)) else None)
    case _ => Handled(entries, disk, Some(UnexpectedMessage))
  }

  datatype Received = Received(entries: seq<Receiving>, disk: Disk, used: nat, error: Option<ReceiveError>)

  /** Take messages until every entry has its bytes, or something stops the session. */
  function ReceiveLoop(hash: HashFunction, manifest: Manifest, entries: seq<Receiving>, disk: Disk,
                       messages: seq<Message>, patience: nat): (r: Received)
    requires |entries| == |disk| == |manifest.entries|
    ensures |r.entries| == |r.disk| == |manifest.entries| && r.used <= |messages|
    decreases |messages|
  {
    if !AnyMissing(manifest, entries) then Received(entries, disk, 0, None)
    else if patience == 0 then Received(entries, disk, 0, Some(ReceiveCancelled))
    else if messages == [] then Received(entries, disk, 0, Some(StreamClosed))
    else
      var handled := Handle(hash, manifest, entries, disk, messages[0]);
      if handled.error.Some? then Received(handled.entries, handled.disk, 1, handled.error)
      else
        var rest := ReceiveLoop(hash, manifest, handled.entries, handled.disk, messages[1..], patience - 1);
        rest.(used := rest.used + 1)
  }

  function Present(manifest: Manifest, entries: seq<Receiving>): Snapshot {
    Snapshot(TotalSize(manifest.entries), ReceivedBytes(entries), CompletedFiles(entries))
  }

  /** What the loop reports: the progress at its start and after each message it takes. */
  function Shots(hash: HashFunction, manifest: Manifest, entries: seq<Receiving>, disk: Disk, messages: seq<Message>,
                 patience: nat): (shots: seq<Snapshot>)
    requires |entries| == |disk| == |manifest.entries|
    ensures shots != [] && shots[0] == Present(manifest, entries)
    decreases |messages|
  {
    [Present(manifest, entries)] +
    if !AnyMissing(manifest, entries) || patience == 0 || messages == [] then []
    else
      var handled := Handle(hash, manifest, entries, disk, messages[0]);
      if handled.error.Some? then []
      else Shots(hash, manifest, handled.entries, handled.disk, messages[1..], patience - 1)
  }

  /** Handle one message: a chunk goes to the receiver, anything else stops the session. */
  method HandleMessage(receiver: Receiver, message: Message) returns (error: Option<ReceiveError>)
    requires receiver.Valid()
    modifies receiver, receiver.disk
    ensures receiver.Valid()
    ensures Handle(receiver.hash, receiver.manifest, old(receiver.entries), old(receiver.disk.slots), message)
         == Handled(receiver.entries, receiver.disk.slots, error)
    ensures ReceivedBytes(old(receiver.entries)) <= ReceivedBytes(receiver.entries)
    ensures ReceivedBytes(receiver.entries) <= TotalSize(receiver.manifest.entries)
    ensures CompletedFiles(old(receiver.entries)) <= CompletedFiles(receiver.entries) <= |receiver.manifest.entries|
    ensures Healthy(old(receiver.entries)) && error.None? ==> Healthy(receiver.entries)
    ensures Healthy(old(receiver.entries)) && error.Some? && !AllComplete(old(receiver.entries)) ==>
              !AllComplete(receiver.entries)
  {
    if Healthy(receiver.entries) {
      HandledSound(receiver.hash, receiver.manifest, receiver.entries, receiver.disk.slots, message);
    }
    ProgressWithin(receiver.hash, receiver.manifest, receiver.entries, receiver.disk.slots);
    if message.CancelMessage? && message.id == receiver.manifest.id {
      return Some(ReceiveCancelled);
    }
    if !message.ChunkMessage? {
      return Some(UnexpectedMessage);
    }
    AcceptAdvances(receiver.hash, receiver.manifest, receiver.entries, receiver.disk.slots, message.chunk);
    var result := receiver.Accept(message.chunk);
    ProgressWithin(receiver.hash, receiver.manifest, receiver.entries, receiver.disk.slots);
    return if result.Err? then Some(Rejected(result.error)) else None;
  }

  /** The loop from here on, over the messages not yet used, ends as the whole loop does. */
  ghost predicate GoesOn(specified: Received, hash: HashFunction, manifest: Manifest, entries: seq<Receiving>,
                         disk: Disk, messages: seq<Message>, used: nat, patience: nat)
    requires |entries| == |disk| == |manifest.entries| && used <= |messages| && used <= patience
  {
    var rest := ReceiveLoop(hash, manifest, entries, disk, messages[used..], patience - used);
    specified == rest.(used := rest.used + used)
  }

  /** The reports so far, without the last one, and those from here on are all that were specified. */
  ghost predicate ReportsOn(specified: seq<Snapshot>, snapshots: seq<Snapshot>, hash: HashFunction, manifest: Manifest,
                            entries: seq<Receiving>, disk: Disk, messages: seq<Message>, used: nat, patience: nat)
    requires |entries| == |disk| == |manifest.entries| && used <= |messages| && used <= patience
  {
    && snapshots != [] && snapshots[|snapshots| - 1] == Present(manifest, entries)
    && specified == snapshots[..|snapshots| - 1]
                    + Shots(hash, manifest, entries, disk, messages[used..], patience - used)
  }

  lemma ReportsEnd(specified: seq<Snapshot>, snapshots: seq<Snapshot>, hash: HashFunction, manifest: Manifest,
                   entries: seq<Receiving>, disk: Disk, messages: seq<Message>, used: nat, patience: nat)
    requires |entries| == |disk| == |manifest.entries| && used <= |messages| && used <= patience
    requires ReportsOn(specified, snapshots, hash, manifest, entries, disk, messages, used, patience)
    requires !AnyMissing(manifest, entries) || used == patience || used == |messages|
             || Handle(hash, manifest, entries, disk, messages[used]).error.Some?
    ensures snapshots == specified
  {
    assert Shots(hash, manifest, entries, disk, messages[used..], patience - used) == [Present(manifest, entries)];
    assert snapshots == snapshots[..|snapshots| - 1] + [snapshots[|snapshots| - 1]];
  }

  lemma {:induction false} ReportsOnOne(specified: seq<Snapshot>, snapshots: seq<Snapshot>, hash: HashFunction,
                                        manifest: Manifest, entries: seq<Receiving>, disk: Disk,
                                        messages: seq<Message>, used: nat, patience: nat)
    requires |entries| == |disk| == |manifest.entries| && used < |messages| && used < patience
    requires ReportsOn(specified, snapshots, hash, manifest, entries, disk, messages, used, patience)
    requires AnyMissing(manifest, entries)
    ensures var handled := Handle(hash, manifest, entries, disk, messages[used]);
            handled.error.None? ==>
              ReportsOn(specified, snapshots + [Present(manifest, handled.entries)], hash, manifest, handled.entries,
                        handled.disk, messages, used + 1, patience)
  {
    assert messages[used..][0] == messages[used] && messages[used..][1..] == messages[used + 1..];
    var handled := Handle(hash, manifest, entries, disk, messages[used]);
    if handled.error.None? {
      var rest := Shots(hash, manifest, handled.entries, handled.disk, messages[used + 1..], patience - (used + 1));
      ReportsShift(specified, snapshots, Present(manifest, entries), rest, Present(manifest, handled.entries));
    }
  }

  lemma {:induction false} ReportsShift(specified: seq<Snapshot>, snapshots: seq<Snapshot>, present: Snapshot,
                                        rest: seq<Snapshot>, next: Snapshot)
    requires snapshots != [] && snapshots[|snapshots| - 1] == present
    requires specified == snapshots[..|snapshots| - 1] + ([present] + rest)
    ensures specified == (snapshots + [next])[..|snapshots + [next]| - 1] + rest
  {
    assert snapshots[..|snapshots| - 1] + ([present] + rest) == snapshots + rest;
    assert (snapshots + [next])[..|snapshots|] == snapshots;
  }

  /** A message that stops the session ends the reports; another one adds the progress after it. */
  lemma TakesMessage(specified: seq<Snapshot>, snapshots: seq<Snapshot>, hash: HashFunction, manifest: Manifest,
                     entries: seq<Receiving>, disk: Disk, messages: seq<Message>, used: nat, patience: nat)
    requires |entries| == |disk| == |manifest.entries| && used < |messages| && used < patience
    requires ReportsOn(specified, snapshots, hash, manifest, entries, disk, messages, used, patience)
    requires AnyMissing(manifest, entries)
    ensures var handled := Handle(hash, manifest, entries, disk, messages[used]);
            if handled.error.Some? then snapshots == specified
            else ReportsOn(specified, snapshots + [Present(manifest, handled.entries)], hash, manifest,
                           handled.entries, handled.disk, messages, used + 1, patience)
  {
    if Handle(hash, manifest, entries, disk, messages[used]).error.Some? {
      ReportsEnd(specified, snapshots, hash, manifest, entries, disk, messages, used, patience);
    } else {
      ReportsOnOne(specified, snapshots, hash, manifest, entries, disk, messages, used, patience);
    }
  }

  lemma GoesOnOne(specified: Received, hash: HashFunction, manifest: Manifest, entries: seq<Receiving>, disk: Disk,
                  messages: seq<Message>, used: nat, patience: nat)
    requires |entries| == |disk| == |manifest.entries| && used < |messages| && used < patience
    requires GoesOn(specified, hash, manifest, entries, disk, messages, used, patience) && AnyMissing(manifest, entries)
    ensures var handled := Handle(hash, manifest, entries, disk, messages[used]);
            if handled.error.Some? then Ends(specified, handled.entries, handled.disk, handled.error)
            else GoesOn(specified, hash, manifest, handled.entries, handled.disk, messages, used + 1, patience)
  {
    assert messages[used..][0] == messages[used] && messages[used..][1..] == messages[used + 1..];
  }

  predicate Ends(specified: Received, entries: seq<Receiving>, disk: Disk, error: Option<ReceiveError>) {
    specified.entries == entries && specified.disk == disk && specified.error == error
  }

  /** Handle the next message and report the progress after it, unless it stops the session. */
  method TakeMessage(receiver: Receiver, messages: seq<Message>, used: nat, patience: nat, before: seq<Snapshot>,
                     ghost specified: Received, ghost shots: seq<Snapshot>)
    returns (error: Option<ReceiveError>, snapshots: seq<Snapshot>)
    requires receiver.Valid() && used < |messages| && used < patience && AnyMissing(receiver.manifest, receiver.entries)
    requires GoesOn(specified, receiver.hash, receiver.manifest, receiver.entries, receiver.disk.slots, messages, used,
                    patience)
    requires ReportsOn(shots, before, receiver.hash, receiver.manifest, receiver.entries, receiver.disk.slots, messages,
                       used, patience)
    requires Monotone(receiver.manifest, before)
    modifies receiver, receiver.disk
    ensures receiver.Valid() && Monotone(receiver.manifest, snapshots)
    ensures error.Some? ==> Ends(specified, receiver.entries, receiver.disk.slots, error) && snapshots == shots
    ensures error.None? ==>
              && GoesOn(specified, receiver.hash, receiver.manifest, receiver.entries, receiver.disk.slots, messages,
                        used + 1, patience)
              && ReportsOn(shots, snapshots, receiver.hash, receiver.manifest, receiver.entries, receiver.disk.slots,
                           messages, used + 1, patience)
    ensures Healthy(old(receiver.entries)) && error.None? ==> Healthy(receiver.entries)
    ensures Healthy(old(receiver.entries)) && error.Some? && !AllComplete(old(receiver.entries)) ==>
              !AllComplete(receiver.entries)
  {
    GoesOnOne(specified, receiver.hash, receiver.manifest, receiver.entries, receiver.disk.slots, messages, used,
              patience);
    TakesMessage(shots, before, receiver.hash, receiver.manifest, receiver.entries, receiver.disk.slots, messages,
                 used, patience);
    snapshots := before;
    error := HandleMessage(receiver, messages[used]);
    if error.None? {
      snapshots := Reported(receiver, before);
    }
  }

  /** What every message does to the receiver is what the loop function says, and the reports are its shots:
      progress never goes back. */
  method ReceiveMessages(receiver: Receiver, messages: seq<Message>, patience: nat)
    returns (error: Option<ReceiveError>, snapshots: seq<Snapshot>)
    requires receiver.Valid()
    modifies receiver, receiver.disk
    ensures receiver.Valid()
    ensures Ends(ReceiveLoop(receiver.hash, receiver.manifest, old(receiver.entries), old(receiver.disk.slots),
                             messages, patience),
                 receiver.entries, receiver.disk.slots, error)
    ensures Monotone(receiver.manifest, snapshots)
    ensures snapshots == Shots(receiver.hash, receiver.manifest, old(receiver.entries), old(receiver.disk.slots),
                               messages, patience)
    ensures Healthy(old(receiver.entries)) ==> (error.None? <==> AllComplete(receiver.entries))
  {
    ghost var specified := ReceiveLoop(receiver.hash, receiver.manifest, receiver.entries, receiver.disk.slots,
                                       messages, patience);
    ghost var shots := Shots(receiver.hash, receiver.manifest, receiver.entries, receiver.disk.slots, messages,
                             patience);
    snapshots := Started(receiver, messages, patience);
    var used := 0;
    while AnyMissing(receiver.manifest, receiver.entries)
      invariant receiver.Valid() && used <= |messages| && used <= patience && Monotone(receiver.manifest, snapshots)
      invariant GoesOn(specified, receiver.hash, receiver.manifest, receiver.entries, receiver.disk.slots, messages,
                       used, patience)
      invariant ReportsOn(shots, snapshots, receiver.hash, receiver.manifest, receiver.entries, receiver.disk.slots,
                          messages, used, patience)
      invariant Healthy(old(receiver.entries)) ==> Healthy(receiver.entries)
      decreases |messages| - used
    {
      StillMissing(receiver.hash, receiver.manifest, receiver.entries, receiver.disk.slots);
      if used == patience || used == |messages| {
        LoopEnds(specified, shots, snapshots, receiver.hash, receiver.manifest, receiver.entries, receiver.disk.slots,
                 messages, used, patience);
        return Some(if used == patience then ReceiveCancelled else StreamClosed), snapshots;
      }
      error, snapshots := TakeMessage(receiver, messages, used, patience, snapshots, specified, shots);
      if error.Some? {
        return;
      }
      used := used + 1;
    }
    StillMissing(receiver.hash, receiver.manifest, receiver.entries, receiver.disk.slots);
    LoopEnds(specified, shots, snapshots, receiver.hash, receiver.manifest, receiver.entries, receiver.disk.slots,
             messages, used, patience);
    return None, snapshots;
  }

  /** The first report. */
  method Started(receiver: Receiver, messages: seq<Message>, patience: nat) returns (snapshots: seq<Snapshot>)
    requires receiver.Valid()
    ensures Monotone(receiver.manifest, snapshots)
    ensures GoesOn(ReceiveLoop(receiver.hash, receiver.manifest, receiver.entries, receiver.disk.slots, messages,
                               patience),
                   receiver.hash, receiver.manifest, receiver.entries, receiver.disk.slots, messages, 0, patience)
    ensures ReportsOn(Shots(receiver.hash, receiver.manifest, receiver.entries, receiver.disk.slots, messages,
                            patience),
                      snapshots, receiver.hash, receiver.manifest, receiver.entries, receiver.disk.slots, messages, 0,
                      patience)
  {
    ProgressWithin(receiver.hash, receiver.manifest, receiver.entries, receiver.disk.slots);
    snapshots := Reported(receiver, []);
    assert messages[0..] == messages;
  }

  /** The loop ends when nothing is missing, its patience is used up or no message is left. */
  lemma {:induction false} LoopEnds(specified: Received, shots: seq<Snapshot>, snapshots: seq<Snapshot>,
                                    hash: HashFunction, manifest: Manifest, entries: seq<Receiving>, disk: Disk,
                                    messages: seq<Message>, used: nat, patience: nat)
    requires |entries| == |disk| == |manifest.entries| && used <= |messages| && used <= patience
    requires GoesOn(specified, hash, manifest, entries, disk, messages, used, patience)
    requires ReportsOn(shots, snapshots, hash, manifest, entries, disk, messages, used, patience)
    requires !AnyMissing(manifest, entries) || used == patience || used == |messages|
    ensures snapshots == shots
    ensures Ends(specified, entries, disk,
                 if !AnyMissing(manifest, entries) then None
                 else Some(if used == patience then ReceiveCancelled else StreamClosed))
  {
    ReportsEnd(shots, snapshots, hash, manifest, entries, disk, messages, used, patience);
  }

  /** Report the receiver's progress. */
  method Reported(receiver: Receiver, before: seq<Snapshot>) returns (snapshots: seq<Snapshot>)
    requires receiver.Valid() && Monotone(receiver.manifest, before)
    requires ReceivedBytes(receiver.entries) <= TotalSize(receiver.manifest.entries)
    requires CompletedFiles(receiver.entries) <= |receiver.manifest.entries|
    requires before != [] ==>
               && before[|before| - 1].bytes <= ReceivedBytes(receiver.entries)
               && before[|before| - 1].files <= CompletedFiles(receiver.entries)
    ensures Monotone(receiver.manifest, snapshots)
    ensures snapshots == before + [Present(receiver.manifest, receiver.entries)]
  {
    var progress := receiver.Progress();
    var next := Snapshot(progress.totalBytes, progress.completedBytes, progress.completedFiles);
    MonotoneAppend(receiver.manifest, before, next);
    snapshots := before + [next];
  }

  // ---------- progress of the receiver ----------

  lemma {:induction false} BytesAreSum(entries: seq<Receiving>)
    ensures ReceivedBytes(entries) == Sum(Offsets(entries))
  {
    if entries != [] {
      BytesAreSum(entries[1..]);
      assert Offsets(entries)[1..] == Offsets(entries[1..]);
    }
  }

  lemma {:induction false} FilesWithin(entries: seq<Receiving>)
    ensures CompletedFiles(entries) <= |entries|
  {
    if entries != [] {
      FilesWithin(entries[1..]);
    }
  }

  lemma ProgressWithin(hash: HashFunction, manifest: Manifest, entries: seq<Receiving>, disk: Disk)
    requires Consistent(hash, manifest, entries, disk)
    ensures ReceivedBytes(entries) <= TotalSize(manifest.entries) && CompletedFiles(entries) <= |manifest.entries|
  {
    BytesAreSum(entries);
    SumWithin(manifest.entries, Offsets(entries));
    FilesWithin(entries);
  }

  lemma {:induction false} UpdateCounts(entries: seq<Receiving>, index: nat, value: Receiving)
    requires index < |entries| && entries[index].received <= value.received && !entries[index].complete
    ensures ReceivedBytes(entries) <= ReceivedBytes(entries[index := value])
    ensures CompletedFiles(entries) <= CompletedFiles(entries[index := value])
    decreases |entries|
  {
    var changed := entries[index := value];
    if index > 0 {
      assert changed[1..] == entries[1..][index - 1 := value];
      UpdateCounts(entries[1..], index - 1, value);
    } else {
      assert changed[1..] == entries[1..];
    }
  }

  lemma AcceptAdvances(hash: HashFunction, manifest: Manifest, entries: seq<Receiving>, disk: Disk,
                       chunk: TransferChunk)
    requires |entries| == |disk| == |manifest.entries|
    ensures var after := Accept(hash, manifest, entries, disk, chunk).entries;
            ReceivedBytes(entries) <= ReceivedBytes(after) && CompletedFiles(entries) <= CompletedFiles(after)
  {
    var after := Accept(hash, manifest, entries, disk, chunk).entries;
    if after != entries {
      var index := chunk.entryIndex;
      assert after == entries[index := after[index]];
      UpdateCounts(entries, index, after[index]);
    }
  }

  /** Every entry is complete or open: none is poisoned. */
  ghost predicate Healthy(entries: seq<Receiving>) {
    forall i :: 0 <= i < |entries| ==> entries[i].complete || entries[i].open
  }

  // ---------- acknowledgement, whatever the sender sends ----------

  lemma StillMissing(hash: HashFunction, manifest: Manifest, entries: seq<Receiving>, disk: Disk)
    requires Consistent(hash, manifest, entries, disk)
    ensures Healthy(entries) ==> (AnyMissing(manifest, entries) <==> !AllComplete(entries))
  {
    if Healthy(entries) {
      MissingIsIncomplete(hash, manifest, entries, disk);
    }
  }

  lemma MissingIsIncomplete(hash: HashFunction, manifest: Manifest, entries: seq<Receiving>, disk: Disk)
    requires Consistent(hash, manifest, entries, disk) && Healthy(entries)
    ensures AnyMissing(manifest, entries) <==> !AllComplete(entries)
  {
    forall i | 0 <= i < |entries| ensures entries[i].complete <==> entries[i].received == manifest.entries[i].size {
      assert SlotAgrees(hash, manifest.entries[i], entries[i], disk[i]);
    }
  }

  lemma HandledSound(hash: HashFunction, manifest: Manifest, entries: seq<Receiving>, disk: Disk, message: Message)
    requires Consistent(hash, manifest, entries, disk) && Healthy(entries)
    ensures var handled := Handle(hash, manifest, entries, disk, message);
            && Consistent(hash, manifest, handled.entries, handled.disk)
            && (handled.error.None? ==> Healthy(handled.entries))
            && (handled.error.Some? && !AllComplete(entries) ==> !AllComplete(handled.entries))
  {
    if message.ChunkMessage? {
      var chunk := message.chunk;
      AcceptConsistent(hash, manifest, entries, disk, chunk);
      var handled := Handle(hash, manifest, entries, disk, message);
      if handled.error.Some? && handled.entries != entries {
        assert !handled.entries[chunk.entryIndex].complete;
      }
    }
  }

  lemma {:induction false} OpenFromHealthy(hash: HashFunction, entries: seq<TransferEntry>, disk: Disk, index: nat,
                                           total: nat)
    requires |disk| == |entries| && index <= |entries|
    ensures var begun := OpenFrom(hash, entries, disk, index, total);
            begun.result.Ok? ==> Healthy(begun.result.value)
    decreases |entries| - index
  {
    if index < |entries| {
      OpenFromHealthy(hash, entries, disk, index + 1, total + entries[index].size);
    }
  }

  lemma CompleteIsFinal(hash: HashFunction, manifest: Manifest, entries: seq<Receiving>, disk: Disk)
    requires Consistent(hash, manifest, entries, disk)
    ensures AllComplete(entries) <==> forall i :: 0 <= i < |disk| ==> disk[i].final.Some?
  {
    forall i | 0 <= i < |disk| ensures entries[i].complete <==> disk[i].final.Some? {
      assert SlotAgrees(hash, manifest.entries[i], entries[i], disk[i]);
    }
  }

  /** The message that offers this transfer's durable bytes. */
  function ResumeOf(manifest: Manifest, entries: seq<Receiving>): Message {
    ResumeMessage(manifest.id, Offsets(entries))
  }

  /** Publish the complete transfer, then acknowledge it. */
  method Conclude(wire: Wire, receiver: Receiver, incoming: IncomingDirectory)
    returns (transfer: PublishedTransfer, error: Option<ReceiveError>)
    requires receiver.Valid() && AllComplete(receiver.entries) && |incoming.files| < FreshName.MAX_SUFFIX
    modifies incoming
    ensures Moved(receiver.hash, receiver.manifest, receiver.disk.slots, old(incoming.files), incoming.files, transfer)
    ensures error.None? <==> Framable(wire, AcknowledgeMessage(receiver.manifest.id))
  {
    var finished := receiver.Finish(incoming);
    transfer, error := finished.value, None;
    var acknowledgement := Frame.EncodeFrame(wire, AcknowledgeMessage(receiver.manifest.id));
    if acknowledgement.Err? {
      error := Some(ReplyFailed(acknowledgement.error));
    }
  }

  /** Once the receiver waits for chunks: receive them, publish and acknowledge. */
  method ReceiveStream(wire: Wire, receiver: Receiver, incoming: IncomingDirectory, messages: seq<Message>,
                       patience: nat)
    returns (published: Option<PublishedTransfer>, error: Option<ReceiveError>, snapshots: seq<Snapshot>)
    requires receiver.Valid() && Healthy(receiver.entries) && |incoming.files| < FreshName.MAX_SUFFIX
    modifies receiver, receiver.disk, incoming
    ensures receiver.Valid() && Monotone(receiver.manifest, snapshots)
    ensures published.Some? <==> forall i :: 0 <= i < |receiver.disk.slots| ==> receiver.disk.slots[i].final.Some?
    ensures published.Some? ==>
              Moved(receiver.hash, receiver.manifest, receiver.disk.slots, old(incoming.files), incoming.files,
                    published.value)
    ensures published.None? ==> incoming.files == old(incoming.files)
    ensures error.None? <==> published.Some? && Framable(wire, AcknowledgeMessage(receiver.manifest.id))
  {
    published := None;
    error, snapshots := ReceiveMessages(receiver, messages, patience);
    CompleteIsFinal(receiver.hash, receiver.manifest, receiver.entries, receiver.disk.slots);
    if error.None? {
      var transfer;
      transfer, error := Conclude(wire, receiver, incoming);
      published := Some(transfer);
    }
  }

  /** The receiving side of one session, against a sender that may send anything. It publishes exactly when
      the offer comes from the authenticated device, a session can begin, its resume offsets fit in a frame
      and every entry becomes final; then every file it publishes has the announced size and hash, nothing that
      was in the incoming directory changes, and it succeeds if the acknowledgement can be framed too. */
  method ReceiveTransfer(wire: Wire, hash: HashFunction, manifest: Manifest, expectedOrigin: DeviceId,
                         disk: StagingDisk, incoming: IncomingDirectory, space: nat, messages: seq<Message>,
                         patience: nat)
    returns (published: Option<PublishedTransfer>, error: Option<ReceiveError>, snapshots: seq<Snapshot>)
    requires |disk.slots| == |manifest.entries| && |incoming.files| < FreshName.MAX_SUFFIX
    modifies disk, incoming
    ensures |disk.slots| == |manifest.entries| && Monotone(manifest, snapshots)
    ensures manifest.origin != expectedOrigin ==> disk.slots == old(disk.slots)
    ensures var begun := Transfer.Begin(hash, manifest, old(disk.slots), space);
            published.Some? <==>
              && manifest.origin == expectedOrigin
              && begun.result.Ok? && Framable(wire, ResumeOf(manifest, begun.result.value))
              && forall i :: 0 <= i < |disk.slots| ==> disk.slots[i].final.Some?
    ensures published.Some? ==>
              Moved(hash, manifest, disk.slots, old(incoming.files), incoming.files, published.value)
    ensures published.None? ==> incoming.files == old(incoming.files)
    ensures error.None? <==> published.Some? && Framable(wire, AcknowledgeMessage(manifest.id))
  {
    OpenFromHealthy(hash, manifest.entries, disk.slots, 0, 0);
    published, snapshots := None, [];
    if manifest.origin != expectedOrigin {
      return published, Some(Rejected(OriginMismatch)), snapshots;
    }
    var begun := TransferReceiver.Begin(hash, manifest, disk, space);
    if begun.Err? {
      return published, Some(Rejected(begun.error)), snapshots;
    }
    var receiver := begun.value;
    var offsets := receiver.ResumeOffsets();
    assert offsets == Offsets(receiver.entries);
    var resume := Frame.EncodeFrame(wire, ResumeMessage(manifest.id, offsets));
    if resume.Err? {
      return published, Some(ReplyFailed(resume.error)), snapshots;
    }
    published, error, snapshots := ReceiveStream(wire, receiver, incoming, messages, patience);
  }

  // ---------- both sides together ----------

  function Wrapped(chunks: seq<TransferChunk>): (messages: seq<Message>)
    ensures |messages| == |chunks| && forall i :: 0 <= i < |chunks| ==> messages[i] == ChunkMessage(chunks[i])
  {
    seq(|chunks|, i requires 0 <= i < |chunks| => ChunkMessage(chunks[i]))
  }

  ghost predicate Receptive(hash: HashFunction, manifest: Manifest, sources: seq<seq<byte>>, entries: seq<Receiving>,
                            disk: Disk) {
    && Honest(hash, manifest, Some(sources))
    && DiskSound(hash, manifest, Some(sources), disk)
    && Consistent(hash, manifest, entries, disk) && Healthy(entries)
  }

  /** What such a chunk finds: an open entry that holds the source up to its offset. */
  lemma ContinuingFinds(hash: HashFunction, manifest: Manifest, sources: seq<seq<byte>>, entries: seq<Receiving>,
                        disk: Disk, chunk: TransferChunk)
    requires Receptive(hash, manifest, sources, entries, disk) && Continues(manifest, sources, Offsets(entries), chunk)
    ensures var index := chunk.entryIndex;
            && index < |entries| && index < |disk| && index < |sources| && |disk| == |manifest.entries|
            && entries[index].open && !entries[index].complete && entries[index].received == chunk.offset
            && |sources[index]| == manifest.entries[index].size && hash(sources[index]) == manifest.entries[index].hash
            && Held(disk[index]) + chunk.bytes == sources[index][..chunk.offset + |chunk.bytes|]
  {
    var index := chunk.entryIndex;
    var source := sources[index];
    assert SlotAgrees(hash, manifest.entries[index], entries[index], disk[index]);
    assert SlotSound(hash, manifest.entries[index], SourceOf(Some(sources), index), disk[index]);
    assert Held(disk[index]) == source[..chunk.offset];
    assert source[..chunk.offset] + chunk.bytes == source[..chunk.offset + |chunk.bytes|];
  }

  lemma ContinuingResult(hash: HashFunction, manifest: Manifest, sources: seq<seq<byte>>, entries: seq<Receiving>,
                         disk: Disk, chunk: TransferChunk)
    requires Receptive(hash, manifest, sources, entries, disk) && Continues(manifest, sources, Offsets(entries), chunk)
    ensures var accepted := Accept(hash, manifest, entries, disk, chunk);
            && accepted.result == Ok(())
            && Offsets(accepted.entries) == Advanced(Offsets(entries), chunk)
            && Healthy(accepted.entries)
  {
    ContinuingFinds(hash, manifest, sources, entries, disk, chunk);
    var source := sources[chunk.entryIndex];
    assert chunk.offset + |chunk.bytes| == |source| ==> source[..chunk.offset + |chunk.bytes|] == source;
  }

  /** A chunk that continues an entry from its source is accepted. */
  lemma ContinuingAccepted(hash: HashFunction, manifest: Manifest, sources: seq<seq<byte>>, entries: seq<Receiving>,
                           disk: Disk, chunk: TransferChunk)
    requires Receptive(hash, manifest, sources, entries, disk) && Continues(manifest, sources, Offsets(entries), chunk)
    ensures var accepted := Accept(hash, manifest, entries, disk, chunk);
            && accepted.result == Ok(())
            && Receptive(hash, manifest, sources, accepted.entries, ApplyAll(disk, accepted.effects))
            && Offsets(accepted.entries) == Advanced(Offsets(entries), chunk)
  {
    ContinuingResult(hash, manifest, sources, entries, disk, chunk);
    AcceptConsistent(hash, manifest, entries, disk, chunk);
    AcceptAllowed(hash, manifest, Some(sources), entries, disk, chunk);
    AllowedKeepsDisk(hash, manifest, Some(sources), disk, Accept(hash, manifest, entries, disk, chunk).effects);
  }

  /** Every entry is complete, final and equal to its source. */
  predicate AllReceived(manifest: Manifest, sources: seq<seq<byte>>, received: Received) {
    && AllComplete(received.entries) && ReceivedBytes(received.entries) == TotalSize(manifest.entries)
    && |received.disk| == |sources|
    && forall i :: 0 <= i < |sources| ==> received.disk[i].final == Some(sources[i])
  }

  lemma FullIsReceived(hash: HashFunction, manifest: Manifest, sources: seq<seq<byte>>, entries: seq<Receiving>,
                       disk: Disk)
    requires Receptive(hash, manifest, sources, entries, disk) && Offsets(entries) == Sizes(manifest.entries)
    ensures !AnyMissing(manifest, entries) && AllReceived(manifest, sources, Received(entries, disk, 0, None))
  {
    BytesAreSum(entries);
    SumWithin(manifest.entries, Offsets(entries));
    forall i | 0 <= i < |sources| ensures entries[i].complete && disk[i].final == Some(sources[i]) {
      assert SlotAgrees(hash, manifest.entries[i], entries[i], disk[i]);
      assert SlotSound(hash, manifest.entries[i], SourceOf(Some(sources), i), disk[i]);
      assert Offsets(entries)[i] == entries[i].received;
    }
  }

  lemma ContinuingIsMissing(hash: HashFunction, manifest: Manifest, sources: seq<seq<byte>>, entries: seq<Receiving>,
                            disk: Disk, chunk: TransferChunk)
    requires Receptive(hash, manifest, sources, entries, disk) && Continues(manifest, sources, Offsets(entries), chunk)
    ensures AnyMissing(manifest, entries)
  {
    assert entries[chunk.entryIndex].received < manifest.entries[chunk.entryIndex].size;
  }

  /** The loop takes a chunk that carries an entry on, and goes on from where it leads. */
  lemma {:induction false} CarriedStep(hash: HashFunction, manifest: Manifest, sources: seq<seq<byte>>,
                                       entries: seq<Receiving>, disk: Disk, chunks: seq<TransferChunk>,
                                       reached: seq<nat>, patience: nat)
    returns (next: seq<Receiving>, after: Disk)
    requires Receptive(hash, manifest, sources, entries, disk) && chunks != [] && patience > 0
    requires Carries(manifest, sources, Offsets(entries), chunks, reached)
    ensures |entries| == |disk| == |manifest.entries| && chunks[0].entryIndex < |entries|
    ensures Receptive(hash, manifest, sources, next, after)
    ensures Offsets(next) == Advanced(Offsets(entries), chunks[0])
    ensures Carries(manifest, sources, Offsets(next), chunks[1..], reached)
    ensures var rest := ReceiveLoop(hash, manifest, next, after, Wrapped(chunks[1..]), patience - 1);
            ReceiveLoop(hash, manifest, entries, disk, Wrapped(chunks), patience) == rest.(used := rest.used + 1)
    ensures Shots(hash, manifest, entries, disk, Wrapped(chunks), patience)
         == [Present(manifest, entries)] + Shots(hash, manifest, next, after, Wrapped(chunks[1..]), patience - 1)
  {
    ContinuingAccepted(hash, manifest, sources, entries, disk, chunks[0]);
    ContinuingIsMissing(hash, manifest, sources, entries, disk, chunks[0]);
    var accepted := Accept(hash, manifest, entries, disk, chunks[0]);
    next, after := accepted.entries, ApplyAll(disk, accepted.effects);
    HandlesChunk(hash, manifest, entries, disk, chunks, patience);
  }

  lemma {:induction false} HandlesChunk(hash: HashFunction, manifest: Manifest, entries: seq<Receiving>, disk: Disk,
                                        chunks: seq<TransferChunk>, patience: nat)
    requires |entries| == |disk| == |manifest.entries| && chunks != [] && patience > 0
    requires AnyMissing(manifest, entries) && Accept(hash, manifest, entries, disk, chunks[0]).result.Ok?
    ensures var accepted := Accept(hash, manifest, entries, disk, chunks[0]);
            var after, others := ApplyAll(disk, accepted.effects), Wrapped(chunks[1..]);
            var rest := ReceiveLoop(hash, manifest, accepted.entries, after, others, patience - 1);
            && ReceiveLoop(hash, manifest, entries, disk, Wrapped(chunks), patience) == rest.(used := rest.used + 1)
            && Shots(hash, manifest, entries, disk, Wrapped(chunks), patience)
               == [Present(manifest, entries)] + Shots(hash, manifest, accepted.entries, after, others, patience - 1)
  {
    assert Wrapped(chunks)[1..] == Wrapped(chunks[1..]);
  }

  /** Where a receptive receiver comes with some chunks, and what the loop gives from there with no message left. */
  datatype Taken = Taken(entries: seq<Receiving>, disk: Disk, rest: Received)

  /** The loop takes all of the chunks and ends as `taken` says. */
  ghost predicate Takes(hash: HashFunction, manifest: Manifest, sources: seq<seq<byte>>, entries: seq<Receiving>,
                        disk: Disk, chunks: seq<TransferChunk>, reached: seq<nat>, patience: nat, taken: Taken)
    requires |entries| == |disk| == |manifest.entries| && patience >= |chunks|
  {
    && Receptive(hash, manifest, sources, taken.entries, taken.disk)
    && |taken.entries| == |taken.disk| == |manifest.entries| && Offsets(taken.entries) == reached
    && taken.rest == ReceiveLoop(hash, manifest, taken.entries, taken.disk, [], patience - |chunks|)
    && ReceiveLoop(hash, manifest, entries, disk, Wrapped(chunks), patience)
       == taken.rest.(used := taken.rest.used + |chunks|)
  }

  lemma {:induction false} TakesNone(hash: HashFunction, manifest: Manifest, sources: seq<seq<byte>>,
                                     entries: seq<Receiving>, disk: Disk, chunks: seq<TransferChunk>,
                                     reached: seq<nat>, patience: nat)
    returns (taken: Taken)
    requires Receptive(hash, manifest, sources, entries, disk) && chunks == []
    requires Carries(manifest, sources, Offsets(entries), chunks, reached)
    ensures |entries| == |disk| == |manifest.entries|
    ensures Takes(hash, manifest, sources, entries, disk, chunks, reached, patience, taken)
  {
    assert Wrapped(chunks) == [];
    taken := Taken(entries, disk, ReceiveLoop(hash, manifest, entries, disk, [], patience));
  }

  lemma {:induction false} TakesOneMore(hash: HashFunction, manifest: Manifest, sources: seq<seq<byte>>,
                                        entries: seq<Receiving>, disk: Disk, chunks: seq<TransferChunk>,
                                        reached: seq<nat>, patience: nat, next: seq<Receiving>, after: Disk,
                                        taken: Taken)
    requires |entries| == |disk| == |manifest.entries| == |next| == |after| && chunks != [] && patience >= |chunks|
    requires Takes(hash, manifest, sources, next, after, chunks[1..], reached, patience - 1, taken)
    requires var rest := ReceiveLoop(hash, manifest, next, after, Wrapped(chunks[1..]), patience - 1);
             ReceiveLoop(hash, manifest, entries, disk, Wrapped(chunks), patience) == rest.(used := rest.used + 1)
    ensures Takes(hash, manifest, sources, entries, disk, chunks, reached, patience, taken)
  {
    assert patience - 1 - |chunks[1..]| == patience - |chunks|;
  }

  /** Chunks that carry the entries on are all accepted, and lead where they carry them. */
  lemma {:induction false} CarriedLoop(hash: HashFunction, manifest: Manifest, sources: seq<seq<byte>>,
                                       entries: seq<Receiving>, disk: Disk, chunks: seq<TransferChunk>,
                                       reached: seq<nat>, patience: nat)
    returns (taken: Taken)
    requires Receptive(hash, manifest, sources, entries, disk) && patience >= |chunks|
    requires Carries(manifest, sources, Offsets(entries), chunks, reached)
    ensures |entries| == |disk| == |manifest.entries|
    ensures Takes(hash, manifest, sources, entries, disk, chunks, reached, patience, taken)
    decreases |chunks|, 1
  {
    if chunks == [] {
      taken := TakesNone(hash, manifest, sources, entries, disk, chunks, reached, patience);
    } else {
      taken := CarriedOn(hash, manifest, sources, entries, disk, chunks, reached, patience);
    }
  }

  lemma {:induction false} CarriedOn(hash: HashFunction, manifest: Manifest, sources: seq<seq<byte>>,
                                     entries: seq<Receiving>, disk: Disk, chunks: seq<TransferChunk>,
                                     reached: seq<nat>, patience: nat)
    returns (taken: Taken)
    requires Receptive(hash, manifest, sources, entries, disk) && patience >= |chunks| && chunks != []
    requires Carries(manifest, sources, Offsets(entries), chunks, reached)
    ensures |entries| == |disk| == |manifest.entries|
    ensures Takes(hash, manifest, sources, entries, disk, chunks, reached, patience, taken)
    decreases |chunks|, 0
  {
    var next, after := CarriedStep(hash, manifest, sources, entries, disk, chunks, reached, patience);
    taken := CarriedLoop(hash, manifest, sources, next, after, chunks[1..], reached, patience - 1);
    TakesOneMore(hash, manifest, sources, entries, disk, chunks, reached, patience, next, after, taken);
  }

  /** Chunks that carry the entries to their ends are all accepted, and the receiver stops exactly after the last. */
  lemma CarriedIsReceived(hash: HashFunction, manifest: Manifest, sources: seq<seq<byte>>, entries: seq<Receiving>,
                          disk: Disk, chunks: seq<TransferChunk>, patience: nat)
    requires Receptive(hash, manifest, sources, entries, disk)
    requires Carries(manifest, sources, Offsets(entries), chunks, Sizes(manifest.entries))
    requires patience >= |chunks|
    ensures var received := ReceiveLoop(hash, manifest, entries, disk, Wrapped(chunks), patience);
            && received.error == None && received.used == |chunks| && AllReceived(manifest, sources, received)
  {
    var taken := CarriedLoop(hash, manifest, sources, entries, disk, chunks, Sizes(manifest.entries), patience);
    FullIsReceived(hash, manifest, sources, taken.entries, taken.disk);
  }

  /** In a receptive state the completed files are those that have all their bytes. */
  lemma {:induction false} FilesAreFull(entries: seq<TransferEntry>, receiving: seq<Receiving>)
    requires |receiving| == |entries|
    requires forall i :: 0 <= i < |entries| ==>
               (receiving[i].complete <==> receiving[i].received == entries[i].size)
    ensures CompletedFiles(receiving) == FullCount(entries, Offsets(receiving))
  {
    if entries != [] {
      FilesAreFull(entries[1..], receiving[1..]);
      assert Offsets(receiving)[1..] == Offsets(receiving[1..]);
    }
  }

  lemma PresentIsShot(hash: HashFunction, manifest: Manifest, sources: seq<seq<byte>>, entries: seq<Receiving>,
                      disk: Disk)
    requires Receptive(hash, manifest, sources, entries, disk)
    ensures |entries| == |disk| == |manifest.entries|
    ensures Present(manifest, entries)
         == Shot(manifest, Offsets(entries), FullCount(manifest.entries, Offsets(entries)))
  {
    BytesAreSum(entries);
    forall i | 0 <= i < |entries| ensures entries[i].complete <==> entries[i].received == manifest.entries[i].size {
      assert SlotAgrees(hash, manifest.entries[i], entries[i], disk[i]);
    }
    FilesAreFull(manifest.entries, entries);
  }

  lemma ShotsAtEnd(hash: HashFunction, manifest: Manifest, sources: seq<seq<byte>>, entries: seq<Receiving>, disk: Disk,
                   patience: nat)
    requires Receptive(hash, manifest, sources, entries, disk) && Offsets(entries) == Sizes(manifest.entries)
    ensures |entries| == |disk| == |manifest.entries|
    ensures Shots(hash, manifest, entries, disk, [], patience)
         == Traced(manifest, Offsets(entries), [], |manifest.entries|)
  {
    PresentIsShot(hash, manifest, sources, entries, disk);
    FullCountWithin(manifest.entries, Offsets(entries));
  }

  lemma TracedTakeOne(manifest: Manifest, offsets: seq<nat>, chunks: seq<TransferChunk>, files: nat,
                      present: Snapshot, rest: seq<Snapshot>)
    requires |offsets| == |manifest.entries| && chunks != [] && chunks[0].entryIndex < |offsets|
    requires present == Shot(manifest, offsets, FullCount(manifest.entries, offsets))
    requires rest == Traced(manifest, Advanced(offsets, chunks[0]), chunks[1..], files)
    ensures [present] + rest == Traced(manifest, offsets, chunks, files)
  {
  }

  /** While chunks carry the entries to their ends, the reports are the progress that the chunks make. */
  lemma {:induction false} CarriedShots(hash: HashFunction, manifest: Manifest, sources: seq<seq<byte>>,
                                        entries: seq<Receiving>, disk: Disk, chunks: seq<TransferChunk>,
                                        patience: nat)
    requires Receptive(hash, manifest, sources, entries, disk)
    requires Carries(manifest, sources, Offsets(entries), chunks, Sizes(manifest.entries)) && patience >= |chunks|
    ensures |entries| == |disk| == |manifest.entries|
    ensures Shots(hash, manifest, entries, disk, Wrapped(chunks), patience)
         == Traced(manifest, Offsets(entries), chunks, |manifest.entries|)
    decreases |chunks|
  {
    if chunks == [] {
      ShotsAtEnd(hash, manifest, sources, entries, disk, patience);
      assert Wrapped(chunks) == [];
    } else {
      var ends := Sizes(manifest.entries);
      var next, after := CarriedStep(hash, manifest, sources, entries, disk, chunks, ends, patience);
      CarriedShots(hash, manifest, sources, next, after, chunks[1..], patience - 1);
      PresentIsShot(hash, manifest, sources, entries, disk);
      TracedTakeOne(manifest, Offsets(entries), chunks, |manifest.entries|, Present(manifest, entries),
                    Shots(hash, manifest, next, after, Wrapped(chunks[1..]), patience - 1));
    }
  }

  /** A session that begins is receptive: nothing it offers is poisoned. */
  lemma BegunIsReceptive(hash: HashFunction, manifest: Manifest, sources: seq<seq<byte>>, disk: Disk, space: nat)
    requires Honest(hash, manifest, Some(sources)) && DiskSound(hash, manifest, Some(sources), disk)
    ensures var begun := Transfer.Begin(hash, manifest, disk, space);
            begun.result.Ok? ==>
              && |begun.result.value| == |manifest.entries|
              && Receptive(hash, manifest, sources, begun.result.value, ApplyAll(disk, begun.effects))
  {
    BeginConsistent(hash, manifest, disk, space);
    OpenFromAllowed(hash, manifest, Some(sources), disk, 0, 0);
    AllowedKeepsDisk(hash, manifest, Some(sources), disk, Transfer.Begin(hash, manifest, disk, space).effects);
    OpenFromHealthy(hash, manifest.entries, disk, 0, 0);
  }

  /** Chunks that stop short are all accepted too, and leave the receiver waiting for more. */
  lemma CarriedPartway(hash: HashFunction, manifest: Manifest, sources: seq<seq<byte>>, entries: seq<Receiving>,
                       disk: Disk, chunks: seq<TransferChunk>, patience: nat, reached: seq<nat>)
    requires Receptive(hash, manifest, sources, entries, disk)
    requires Carries(manifest, sources, Offsets(entries), chunks, reached)
    requires reached != Sizes(manifest.entries) && patience > |chunks|
    ensures var received := ReceiveLoop(hash, manifest, entries, disk, Wrapped(chunks), patience);
            received.error == Some(StreamClosed) && received.used == |chunks| && Offsets(received.entries) == reached
  {
    var taken := CarriedLoop(hash, manifest, sources, entries, disk, chunks, reached, patience);
    var i :| 0 <= i < |taken.entries| && Offsets(taken.entries)[i] != Sizes(manifest.entries)[i];
    assert SlotAgrees(hash, manifest.entries[i], taken.entries[i], taken.disk[i]);
  }

  /** Both sides report the same progress: the receiver's reports are the sender's, with the last one for each
      count of bytes. They never go back, and end with the whole transfer. */
  ghost predicate Matched(manifest: Manifest, sent: Sending, received: seq<Snapshot>) {
    && sent.bytes == TotalSize(manifest.entries) && sent.files == |manifest.entries|
    && Monotone(manifest, sent.snapshots)
    && sent.snapshots != [] && received == Steps(sent.snapshots)
    && received[|received| - 1] == Snapshot(sent.bytes, sent.bytes, sent.files)
  }

  /** A chunk that some read of the sources can give. */
  predicate OfSources(manifest: Manifest, sources: seq<seq<byte>>, chunk: TransferChunk) {
    chunk.entryIndex < |sources| && ReadsAt(manifest, sources, chunk.entryIndex, chunk.offset, chunk)
  }

  /** Each chunk moves at least one byte, so the number of chunks is bounded by the bytes to send. */
  lemma {:induction false} ChunkCount(manifest: Manifest, sources: seq<seq<byte>>, offsets: seq<nat>,
                                      chunks: seq<TransferChunk>, ends: seq<nat>)
    requires Carries(manifest, sources, offsets, chunks, ends)
    ensures Sum(offsets) + |chunks| <= Sum(ends)
    decreases |chunks|
  {
    if chunks != [] {
      SumUpdate(offsets, chunks[0].entryIndex, chunks[0].offset + |chunks[0].bytes|);
      ChunkCount(manifest, sources, Advanced(offsets, chunks[0]), chunks[1..], ends);
    }
  }

  /** What came of sending the entries from the receiver's offsets, when no reply stops the stream: all of
      them, or the chunks up to one that has no frame. */
  ghost predicate Streamed(wire: Wire, manifest: Manifest, sources: seq<seq<byte>>, offsets: seq<nat>, sent: Sending,
                           reached: seq<nat>, refused: Option<TransferChunk>) {
    && SentTo(manifest, sources, offsets, reached, sent)
    && match refused
       case None => reached == Sizes(manifest.entries)
       case Some(chunk) => Continues(manifest, sources, reached, chunk) && !Framable(wire, ChunkMessage(chunk))
  }

  /** With as much patience as there are bytes to send only a chunk without a frame stops the stream. */
  lemma {:induction false} StreamedAll(wire: Wire, manifest: Manifest, sources: seq<seq<byte>>, offsets: seq<nat>,
                                       sent: Sending, reached: seq<nat>, refused: Option<TransferChunk>,
                                       error: Option<SendError>, reply: Reply, patience: nat)
    requires SentTo(manifest, sources, offsets, reached, sent)
    requires patience == reply.after == TotalSize(manifest.entries) + 1
    requires error.None? ==> reached == Sizes(manifest.entries) && refused.None?
    requires error.Some? ==> Stopped(wire, manifest, sources, reached, sent, reply, patience, error.value, refused)
    ensures |sent.chunks| < patience && Streamed(wire, manifest, sources, offsets, sent, reached, refused)
  {
    ChunkCount(manifest, sources, offsets, sent.chunks, reached);
    SumWithin(manifest.entries, reached);
  }

  /** Then the receiver takes every chunk that was sent: it ends well exactly if the stream did, and reports the
      progress that the chunks make. */
  lemma {:induction false} StreamedIsReceived(wire: Wire, hash: HashFunction, manifest: Manifest,
                                              sources: seq<seq<byte>>, entries: seq<Receiving>, disk: Disk,
                                              sent: Sending, reached: seq<nat>, refused: Option<TransferChunk>,
                                              patience: nat)
    requires Receptive(hash, manifest, sources, entries, disk) && |sent.chunks| < patience
    requires Streamed(wire, manifest, sources, Offsets(entries), sent, reached, refused)
    ensures |entries| == |disk| == |manifest.entries|
    ensures var received := ReceiveLoop(hash, manifest, entries, disk, Wrapped(sent.chunks), patience);
            && (received.error.None? <==> refused.None?)
            && (refused.None? ==>
                  && AllReceived(manifest, sources, received)
                  && Shots(hash, manifest, entries, disk, Wrapped(sent.chunks), patience)
                     == Traced(manifest, Offsets(entries), sent.chunks, |manifest.entries|))
  {
    if refused.Some? {
      CarriedPartway(hash, manifest, sources, entries, disk, sent.chunks, patience, reached);
    } else {
      CarriedIsReceived(hash, manifest, sources, entries, disk, sent.chunks, patience);
      CarriedShots(hash, manifest, sources, entries, disk, sent.chunks, patience);
    }
  }

  lemma {:induction false} StreamedMatches(wire: Wire, manifest: Manifest, sources: seq<seq<byte>>, offsets: seq<nat>,
                                           sent: Sending, reached: seq<nat>, received: seq<Snapshot>)
    requires Streamed(wire, manifest, sources, offsets, sent, reached, None)
    requires |offsets| == |manifest.entries|
    requires received == Traced(manifest, offsets, sent.chunks, |manifest.entries|)
    ensures Matched(manifest, sent, received)
  {
    SumWithin(manifest.entries, reached);
    FullCountWithin(manifest.entries, reached);
  }

  /** Stream the entries until the end or a chunk without a frame. */
  method SendAll(wire: Wire, manifest: Manifest, sources: seq<seq<byte>>, offsets: seq<nat>, patience: nat)
    returns (sent: Sending, ghost reached: seq<nat>, ghost refused: Option<TransferChunk>)
    requires Unchanged(manifest, sources) && ResumeValid(manifest, offsets)
    requires TotalSize(manifest.entries) <= MAX_U64 && patience == TotalSize(manifest.entries) + 1
    ensures |sent.chunks| < patience && Streamed(wire, manifest, sources, offsets, sent, reached, refused)
  {
    var reply := Reply(patience, AcknowledgeMessage(manifest.id));
    var failure;
    sent, failure, reached, refused := SendEntries(wire, manifest, sources, offsets, reply, patience);
    StreamedAll(wire, manifest, sources, offsets, sent, reached, refused, failure, reply, patience);
  }

  lemma {:induction false} ReceptiveIsIntact(hash: HashFunction, manifest: Manifest, sources: seq<seq<byte>>,
                                             entries: seq<Receiving>, disk: Disk)
    requires Receptive(hash, manifest, sources, entries, disk)
    ensures Unchanged(manifest, sources) && ResumeValid(manifest, Offsets(entries))
  {
    forall i | 0 <= i < |sources| ensures |sources[i]| == manifest.entries[i].size {
      assert Verified(hash, manifest.entries[i], sources[i]);
    }
    forall i | 0 <= i < |entries| ensures entries[i].received <= manifest.entries[i].size {
      assert SlotAgrees(hash, manifest.entries[i], entries[i], disk[i]);
    }
  }

  lemma {:induction false} RefusedIsOfSources(wire: Wire, manifest: Manifest, sources: seq<seq<byte>>,
                                              offsets: seq<nat>, sent: Sending, reached: seq<nat>,
                                              refused: Option<TransferChunk>)
    requires Streamed(wire, manifest, sources, offsets, sent, reached, refused) && refused.Some?
    ensures OfSources(manifest, sources, refused.value) && !Framable(wire, ChunkMessage(refused.value))
  {
  }

  /** Stream the entries from where a receptive receiver is: it takes them all, unless a chunk has no frame. */
  method SendWhole(wire: Wire, manifest: Manifest, sources: seq<seq<byte>>, offsets: seq<nat>, patience: nat,
                   ghost hash: HashFunction, ghost entries: seq<Receiving>, ghost disk: Disk)
    returns (sent: Sending, ghost refused: Option<TransferChunk>)
    requires |entries| == |disk| == |manifest.entries| && offsets == Offsets(entries)
    requires TotalSize(manifest.entries) <= MAX_U64 && patience == TotalSize(manifest.entries) + 1
    requires Receptive(hash, manifest, sources, entries, disk)
    ensures refused.Some? ==>
              OfSources(manifest, sources, refused.value) && !Framable(wire, ChunkMessage(refused.value))
    ensures var received := ReceiveLoop(hash, manifest, entries, disk, Wrapped(sent.chunks), patience);
            && (received.error.None? <==> refused.None?)
            && (refused.None? ==> AllReceived(manifest, sources, received))
    ensures refused.None? ==>
              Matched(manifest, sent, Shots(hash, manifest, entries, disk, Wrapped(sent.chunks), patience))
  {
    ghost var reached;
    ReceptiveIsIntact(hash, manifest, sources, entries, disk);
    sent, reached, refused := SendAll(wire, manifest, sources, offsets, patience);
    StreamedIsReceived(wire, hash, manifest, sources, entries, disk, sent, reached, refused, patience);
    if refused.Some? {
      RefusedIsOfSources(wire, manifest, sources, offsets, sent, reached, refused);
    } else {
      StreamedMatches(wire, manifest, sources, offsets, sent, reached,
                      Shots(hash, manifest, entries, disk, Wrapped(sent.chunks), patience));
    }
  }

  /** Stream the entries from where the receiver is, and receive them: this works exactly if every chunk has
      a frame. Neither loop ever gets stuck. */
  method Stream(wire: Wire, receiver: Receiver, sources: seq<seq<byte>>, offsets: seq<nat>)
    returns (sent: Sending, received: seq<Snapshot>, streamed: bool, ghost refused: Option<TransferChunk>)
    requires receiver.Valid() && offsets == Offsets(receiver.entries) && TotalSize(receiver.manifest.entries) <= MAX_U64
    requires Receptive(receiver.hash, receiver.manifest, sources, receiver.entries, receiver.disk.slots)
    modifies receiver, receiver.disk
    ensures receiver.Valid()
    ensures streamed <==> refused.None?
    ensures refused.Some? ==>
              OfSources(receiver.manifest, sources, refused.value) && !Framable(wire, ChunkMessage(refused.value))
    ensures streamed ==>
              && |receiver.disk.slots| == |sources|
              && (forall i :: 0 <= i < |sources| ==> receiver.disk.slots[i].final == Some(sources[i]))
              && Matched(receiver.manifest, sent, received) && Monotone(receiver.manifest, received)
  {
    var manifest := receiver.manifest;
    var patience := TotalSize(manifest.entries) + 1;
    sent, refused :=
      SendWhole(wire, manifest, sources, offsets, patience, receiver.hash, receiver.entries, receiver.disk.slots);
    var error;
    error, received := ReceiveMessages(receiver, Wrapped(sent.chunks), patience);
    streamed := error.None?;
  }

  /** What a session with an unchanged source came to. */
  datatype Delivery = Delivery(published: Option<PublishedTransfer>, delivered: bool, sent: Sending,
                               received: seq<Snapshot>)

  /** What was published: every source under a name that was free, next to all that was there. */
  ghost predicate Arrived(manifest: Manifest, sources: seq<seq<byte>>, before: Files, after: Files,
                          published: Option<PublishedTransfer>) {
    match published
    case None => after == before
    case Some(transfer) =>
      && FreshName.FirstFree(before.Keys, manifest.name, transfer.destination) && transfer.destination !in before
      && after == before[transfer.destination := sources]
  }

  lemma MovedSources(hash: HashFunction, manifest: Manifest, sources: seq<seq<byte>>, slots: Disk, before: Files,
                     after: Files, transfer: PublishedTransfer)
    requires Moved(hash, manifest, slots, before, after, transfer)
    requires |slots| == |sources| && forall i :: 0 <= i < |sources| ==> slots[i].final == Some(sources[i])
    ensures Arrived(manifest, sources, before, after, Some(transfer))
  {
    assert after[transfer.destination] == sources;
  }

  /** Once the receiver waits for chunks: stream them, publish and acknowledge. */
  method DeliverStream(wire: Wire, receiver: Receiver, sources: seq<seq<byte>>, offsets: seq<nat>,
                       incoming: IncomingDirectory)
    returns (delivery: Delivery, ghost refused: Option<TransferChunk>)
    requires receiver.Valid() && offsets == Offsets(receiver.entries) && TotalSize(receiver.manifest.entries) <= MAX_U64
    requires Receptive(receiver.hash, receiver.manifest, sources, receiver.entries, receiver.disk.slots)
    requires |incoming.files| < FreshName.MAX_SUFFIX
    modifies receiver, receiver.disk, incoming
    ensures delivery.published.Some? <==> refused.None?
    ensures delivery.delivered <==>
              delivery.published.Some? && Framable(wire, AcknowledgeMessage(receiver.manifest.id))
    ensures refused.Some? ==>
              OfSources(receiver.manifest, sources, refused.value) && !Framable(wire, ChunkMessage(refused.value))
    ensures Arrived(receiver.manifest, sources, old(incoming.files), incoming.files, delivery.published)
    ensures delivery.published.Some? ==>
              && Matched(receiver.manifest, delivery.sent, delivery.received)
              && Monotone(receiver.manifest, delivery.received)
  {
    var sent, received, streamed;
    sent, received, streamed, refused := Stream(wire, receiver, sources, offsets);
    if !streamed {
      return Delivery(None, false, sent, received), refused;
    }
    CompleteIsFinal(receiver.hash, receiver.manifest, receiver.entries, receiver.disk.slots);
    var transfer, error := Conclude(wire, receiver, incoming);
    MovedSources(receiver.hash, receiver.manifest, sources, receiver.disk.slots, old(incoming.files), incoming.files,
                 transfer);
    return Delivery(Some(transfer), error.None?, sent, received), refused;
  }

  /** A resumed session with an unchanged source, from any durable state that earlier sessions left. It
      delivers exactly when the offer, the resume offsets, every chunk and the acknowledgement have frames:
      then every chunk is accepted, the receiver stops exactly after the last one, both sides report the same
      progress, and the incoming directory has every file, equal to its source, under a name that was free, and
      all else that it had. Without the frame of the acknowledgement the files are published all the same.
      Neither loop ever gets stuck. */
  method DeliverTransfer(wire: Wire, hash: HashFunction, manifest: Manifest, sources: seq<seq<byte>>, disk: StagingDisk,
                         incoming: IncomingDirectory, space: nat)
    returns (delivery: Delivery, ghost refused: Option<TransferChunk>)
    requires Honest(hash, manifest, Some(sources)) && DiskSound(hash, manifest, Some(sources), disk.slots)
    requires Transfer.Begin(hash, manifest, disk.slots, space).result.Ok? && |incoming.files| < FreshName.MAX_SUFFIX
    modifies disk, incoming
    ensures var begun := Transfer.Begin(hash, manifest, old(disk.slots), space);
            delivery.published.Some? <==>
              && Framable(wire, OfferMessage(manifest)) && Framable(wire, ResumeOf(manifest, begun.result.value))
              && refused.None?
    ensures delivery.delivered <==> delivery.published.Some? && Framable(wire, AcknowledgeMessage(manifest.id))
    ensures refused.Some? ==>
              OfSources(manifest, sources, refused.value) && !Framable(wire, ChunkMessage(refused.value))
    ensures var begun := Transfer.Begin(hash, manifest, old(disk.slots), space);
            (forall chunk :: OfSources(manifest, sources, chunk) ==> Framable(wire, ChunkMessage(chunk))) ==>
              (delivery.delivered <==>
                && Framable(wire, OfferMessage(manifest)) && Framable(wire, ResumeOf(manifest, begun.result.value))
                && Framable(wire, AcknowledgeMessage(manifest.id)))
    ensures !Framable(wire, OfferMessage(manifest)) ==> disk.slots == old(disk.slots)
    ensures Arrived(manifest, sources, old(incoming.files), incoming.files, delivery.published)
    ensures delivery.published.Some? ==>
              Matched(manifest, delivery.sent, delivery.received) && Monotone(manifest, delivery.received)
  {
    refused := None;
    delivery := Delivery(None, false, Sending([], [], 0, 0), []);
    var offer := Frame.EncodeFrame(wire, OfferMessage(manifest));
    if offer.Err? {
      return;
    }
    BegunIsReceptive(hash, manifest, sources, disk.slots, space);
    var begun := TransferReceiver.Begin(hash, manifest, disk, space);
    var receiver := begun.value;
    var offsets := receiver.ResumeOffsets();
    assert offsets == Offsets(receiver.entries);
    var resume := Frame.EncodeFrame(wire, ResumeMessage(manifest.id, offsets));
    if resume.Err? {
      return;
    }
    delivery, refused := DeliverStream(wire, receiver, sources, offsets, incoming);
  }

  // ---------- large manifests ----------

  const HASH_BYTES: nat := 32

  /** Every encoded offer has room for the 32 bytes of each entry's hash, whatever the format is. */
  ghost predicate HoldsHashes(wire: Wire) {
    forall manifest: Manifest :: wire.encode(OfferMessage(manifest)).Some? ==>
      |wire.encode(OfferMessage(manifest)).value| >= HASH_BYTES * |manifest.entries|
  }

  /** So no offer of more than 16384 entries has a frame. */
  lemma LargeOfferFails(wire: Wire, manifest: Manifest)
    requires HoldsHashes(wire) && |manifest.entries| > 16_384
    ensures !Framable(wire, OfferMessage(manifest))
  {
    if wire.encode(OfferMessage(manifest)).Some? {
      assert |wire.encode(OfferMessage(manifest)).value| >= HASH_BYTES * |manifest.entries|;
    }
  }

  /** A folder of empty files with names of one character. */
  function ManyFiles(hash: HashFunction, count: nat): (manifest: Manifest)
    requires count <= 100_000
    ensures |manifest.entries| == count
    ensures forall i :: 0 <= i < count ==> manifest.entries[i].size == 0 && manifest.entries[i].hash == hash([])
    ensures forall i, j :: 0 <= i < j < count ==>
              manifest.entries[i].relativePath != manifest.entries[j].relativePath
  {
    Manifest(7, 2, "many", seq(count, i requires 0 <= i < count => TransferEntry([FileName(i)], 0, hash([]))))
  }

  /** A character for each number, leaving out the surrogates. */
  function FileName(i: nat): char
    requires i < 100_000
  {
    if i < 0xD000 then (i + 0x100) as char else (i - 0xD000 + 0x1_0000) as char
  }

  lemma {:induction false} EmptyFilesSize(entries: seq<TransferEntry>)
    requires forall i :: 0 <= i < |entries| ==> entries[i].size == 0
    ensures TotalSize(entries) == 0 && Missing(entries, EmptyDisk(|entries|)) == 0
  {
    if entries != [] {
      EmptyFilesSize(entries[1..]);
      assert EmptyDisk(|entries|)[1..] == EmptyDisk(|entries| - 1);
    }
  }

  /** For instance, a folder of 16385 empty files: it is within the limit of 100000 entries, its source is
      unchanged and a receiver could begin on an empty disk, but its offer has no frame. */
  lemma LargeOfferExample(wire: Wire, hash: HashFunction)
    requires HoldsHashes(wire)
    ensures var manifest := ManyFiles(hash, 16_385);
            var sources := seq(16_385, i => []);
            && Honest(hash, manifest, Some(sources))
            && Transfer.Begin(hash, manifest, EmptyDisk(16_385), SPACE_MARGIN).result.Ok?
            && !Framable(wire, OfferMessage(manifest))
  {
    var manifest := ManyFiles(hash, 16_385);
    LargeOfferFails(wire, manifest);
    EmptyFilesSize(manifest.entries);
    BeginSucceedsIff(hash, manifest, EmptyDisk(16_385), SPACE_MARGIN);
  }
}

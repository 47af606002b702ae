/** The sending and receiving loops of a transfer session (crates/network/src/session.rs:139-202,
    517-633): with an unchanged source and any resume offsets, neither side gets stuck. */
module Session {
  import opened Bytes
  import opened Transfer
  import opened TransferReceiver
  import opened TransferRuns
  import Frame

  datatype Message =
    | OfferMessage(manifest: Manifest)
    | ResumeMessage(id: TransferId, offsets: seq<nat>)
    | ChunkMessage(chunk: TransferChunk)
    | AcknowledgeMessage(id: TransferId)
    | CancelMessage(id: TransferId)
    | OtherMessage

  type Wire = Frame.Codec<Message>

  /** The message has an encoding, of at most 512 KiB. */
  predicate Framable(wire: Wire, message: Message) {
    Frame.EncodeFrame(wire, message).Ok?
  }

  // ---------- what the sender puts on the wire ----------

  function Sizes(entries: seq<TransferEntry>): (sizes: seq<nat>)
    ensures |sizes| == |entries| && forall i :: 0 <= i < |entries| ==> sizes[i] == entries[i].size
  {
    seq(|entries|, i requires 0 <= i < |entries| => entries[i].size)
  }

  function Sum(offsets: seq<nat>): nat {
    if offsets == [] then 0 else offsets[0] + Sum(offsets[1..])
  }

  function FullCount(entries: seq<TransferEntry>, offsets: seq<nat>): nat
    requires |entries| == |offsets|
  {
    if entries == [] then 0
    else (if offsets[0] == entries[0].size then 1 else 0) + FullCount(entries[1..], offsets[1..])
  }

  /** `chunk` continues entry `chunk.entryIndex` at its offset with bytes of its source. */
  predicate Continues(manifest: Manifest, sources: seq<seq<byte>>, offsets: seq<nat>, chunk: TransferChunk) {
    && chunk.transferId == manifest.id
    && chunk.entryIndex < |offsets| && chunk.entryIndex < |sources|
    && chunk.offset == offsets[chunk.entryIndex]
    && 0 < |chunk.bytes| <= MAX_CHUNK
    && chunk.offset + |chunk.bytes| <= |sources[chunk.entryIndex]|
    && chunk.bytes == sources[chunk.entryIndex][chunk.offset..chunk.offset + |chunk.bytes|]
  }

  function Advanced(offsets: seq<nat>, chunk: TransferChunk): (after: seq<nat>)
    requires chunk.entryIndex < |offsets|
    ensures |after| == |offsets|
  {
    offsets[chunk.entryIndex := chunk.offset + |chunk.bytes|]
  }

  /** `chunks` carry the entries from `offsets` to `ends`, each one continuing where the last one stopped. */
  ghost predicate Carries(manifest: Manifest, sources: seq<seq<byte>>, offsets: seq<nat>, chunks: seq<TransferChunk>,
                          ends: seq<nat>)
    decreases |chunks|
  {
    if chunks == [] then ends == offsets
    else Continues(manifest, sources, offsets, chunks[0])
         && Carries(manifest, sources, Advanced(offsets, chunks[0]), chunks[1..], ends)
  }

  lemma {:induction false} CarriesOneMore(manifest: Manifest, sources: seq<seq<byte>>, offsets: seq<nat>,
                                          chunks: seq<TransferChunk>, middle: seq<nat>, chunk: TransferChunk)
    requires Carries(manifest, sources, offsets, chunks, middle) && Continues(manifest, sources, middle, chunk)
    ensures Carries(manifest, sources, offsets, chunks + [chunk], Advanced(middle, chunk))
    decreases |chunks|
  {
    if chunks == [] {
      assert chunks + [chunk] == [chunk] && [chunk][1..] == [];
    } else {
      assert (chunks + [chunk])[1..] == chunks[1..] + [chunk];
      CarriesOneMore(manifest, sources, Advanced(offsets, chunks[0]), chunks[1..], middle, chunk);
    }
  }

  // ---------- sums ----------

  lemma {:induction false} SumUpdate(offsets: seq<nat>, index: nat, value: nat)
    requires index < |offsets|
    ensures Sum(offsets[index := value]) == Sum(offsets) - offsets[index] + value
    decreases |offsets|
  {
    if index > 0 {
      assert offsets[index := value][1..] == offsets[1..][index - 1 := value];
      SumUpdate(offsets[1..], index - 1, value);
    } else {
      assert offsets[index := value][1..] == offsets[1..];
    }
  }

  lemma {:induction false} SumWithin(entries: seq<TransferEntry>, offsets: seq<nat>)
    requires |entries| == |offsets| && forall i :: 0 <= i < |entries| ==> offsets[i] <= entries[i].size
    ensures Sum(offsets) <= TotalSize(entries)
    ensures Sum(offsets) == TotalSize(entries) <==> offsets == Sizes(entries)
  {
    if entries != [] {
      SumWithin(entries[1..], offsets[1..]);
      assert Sizes(entries)[1..] == Sizes(entries[1..]);
      if offsets[0] == entries[0].size && offsets[1..] == Sizes(entries[1..]) {
        assert offsets == [offsets[0]] + offsets[1..];
        assert Sizes(entries) == [entries[0].size] + Sizes(entries[1..]);
      }
    } else {
      assert offsets == Sizes(entries);
    }
  }

  lemma {:induction false} FullCountUpdate(entries: seq<TransferEntry>, offsets: seq<nat>, index: nat, value: nat)
    requires |entries| == |offsets| && index < |offsets| && offsets[index] < entries[index].size
    ensures FullCount(entries, offsets[index := value])
         == FullCount(entries, offsets) + if value == entries[index].size then 1 else 0
    decreases |offsets|
  {
    var changed := offsets[index := value];
    if index > 0 {
      assert changed[1..] == offsets[1..][index - 1 := value];
      FullCountUpdate(entries[1..], offsets[1..], index - 1, value);
    } else {
      assert changed[1..] == offsets[1..];
    }
  }

  // ---------- the sender ----------

  datatype SendError =
    | SendCancelled
    | SourceChanged
    | InvalidResume
    | SendOverflow
    | UnexpectedReply
    | FrameFailed(error: Frame.FrameError)

  /** The receiver's reply to the chunks, and after how many of them the sender sees it at the latest. */
  datatype Reply = Reply(after: nat, message: Message)

  function Answer(manifest: Manifest, message: Message): SendError {
    if message == CancelMessage(manifest.id) then SendCancelled else UnexpectedReply
  }

  /** Why the sender stopped before the end: a local cancellation, an early reply, or a chunk that has no
      frame. */
  ghost predicate Stopped(wire: Wire, manifest: Manifest, sources: seq<seq<byte>>, offsets: seq<nat>, sending: Sending,
                          reply: Reply, patience: nat, error: SendError, refused: Option<TransferChunk>)
  {
    || (error == SendCancelled && refused == None && |sending.chunks| >= patience)
    || (error == Answer(manifest, reply.message) && refused == None && |sending.chunks| >= reply.after)
    || (&& refused.Some? && Continues(manifest, sources, offsets, refused.value)
        && var frame := Frame.EncodeFrame(wire, ChunkMessage(refused.value));
           frame.Err? && error == FrameFailed(frame.error))
  }

  ghost predicate AllFramable(wire: Wire, chunks: seq<TransferChunk>) {
    forall chunk :: chunk in chunks ==> Framable(wire, ChunkMessage(chunk))
  }

  /** Read one bounded chunk; the operating system may return fewer bytes than asked for. */
  method ReadTransferChunk(source: seq<byte>, offset: nat, requested: nat)
    returns (result: Result<seq<byte>, TransferError>)
    ensures requested == 0 ==> result == Err(InvalidChunkSize)
    ensures requested > 0 ==>
              && result.Ok?
              && |result.value| <= MAX_CHUNK && |result.value| <= requested
              && (result.value == [] <==> offset >= |source|)
              && (offset < |source| ==>
                    offset + |result.value| <= |source| && result.value == source[offset..offset + |result.value|])
  {
    if requested == 0 {
      return Err(InvalidChunkSize);
    }
    if offset >= |source| {
      return Ok([]);
    }
    var wanted := if requested < MAX_CHUNK then requested else MAX_CHUNK;
    var available := if wanted < |source| - offset then wanted else |source| - offset;
    var length :| 1 <= length <= available;
    return Ok(source[offset..offset + length]);
  }

  /** Progress snapshots: total, bytes, files. */
  datatype Snapshot = Snapshot(total: nat, bytes: nat, files: nat)

  /** Snapshots never go back, never pass the total, and the total is the manifest's. */
  ghost predicate Monotone(manifest: Manifest, snapshots: seq<Snapshot>) {
    && (forall i :: 0 <= i < |snapshots| ==>
          snapshots[i].total == TotalSize(manifest.entries) && snapshots[i].bytes <= snapshots[i].total
          && snapshots[i].files <= |manifest.entries|)
    && forall i, j :: 0 <= i <= j < |snapshots| ==>
         snapshots[i].bytes <= snapshots[j].bytes && snapshots[i].files <= snapshots[j].files
  }

  lemma MonotoneAppend(manifest: Manifest, snapshots: seq<Snapshot>, next: Snapshot)
    requires Monotone(manifest, snapshots)
    requires next.total == TotalSize(manifest.entries) && next.bytes <= next.total && next.files <= |manifest.entries|
    requires snapshots != [] ==>
               snapshots[|snapshots| - 1].bytes <= next.bytes && snapshots[|snapshots| - 1].files <= next.files
    ensures Monotone(manifest, snapshots + [next])
  {
    var all := snapshots + [next];
    forall i, j | 0 <= i <= j < |all| ensures all[i].bytes <= all[j].bytes && all[i].files <= all[j].files {
      if j == |snapshots| && i < j {
        assert snapshots[i].bytes <= snapshots[|snapshots| - 1].bytes
          && snapshots[i].files <= snapshots[|snapshots| - 1].files;
      }
    }
  }

  lemma {:induction false} FullCountWithin(entries: seq<TransferEntry>, offsets: seq<nat>)
    requires |entries| == |offsets|
    ensures FullCount(entries, offsets) <= |entries|
    ensures FullCount(entries, offsets) == |entries| <==> offsets == Sizes(entries)
  {
    if entries != [] {
      FullCountWithin(entries[1..], offsets[1..]);
      assert Sizes(entries)[1..] == Sizes(entries[1..]);
      if offsets[0] == entries[0].size && offsets[1..] == Sizes(entries[1..]) {
        assert offsets == [offsets[0]] + offsets[1..];
        assert Sizes(entries) == [entries[0].size] + Sizes(entries[1..]);
      }
    } else {
      assert offsets == Sizes(entries);
    }
  }

  // ---------- the progress that chunks make ----------

  function Shot(manifest: Manifest, offsets: seq<nat>, files: nat): Snapshot {
    Snapshot(TotalSize(manifest.entries), Sum(offsets), files)
  }

  function After(offsets: seq<nat>, chunk: TransferChunk): (after: seq<nat>)
    ensures |after| == |offsets|
  {
    if chunk.entryIndex < |offsets| then Advanced(offsets, chunk) else offsets
  }

  /** The progress before, between and after the chunks; `files` is the count of files after the last one. */
  function Traced(manifest: Manifest, offsets: seq<nat>, chunks: seq<TransferChunk>, files: nat)
    : (trace: seq<Snapshot>)
    requires |offsets| == |manifest.entries|
    ensures |trace| == |chunks| + 1
    decreases |chunks|
  {
    if chunks == [] then [Shot(manifest, offsets, files)]
    else
      [Shot(manifest, offsets, FullCount(manifest.entries, offsets))]
      + Traced(manifest, After(offsets, chunks[0]), chunks[1..], files)
  }

  /** Another chunk adds to the trace, and another count of files changes only its end. */
  lemma {:induction false} TracedOneMore(manifest: Manifest, sources: seq<seq<byte>>, offsets: seq<nat>,
                                         chunks: seq<TransferChunk>, middle: seq<nat>, chunk: TransferChunk,
                                         files: nat)
    requires |offsets| == |manifest.entries| && Carries(manifest, sources, offsets, chunks, middle)
    requires chunk.entryIndex < |middle|
    ensures |middle| == |manifest.entries|
    ensures Traced(manifest, offsets, chunks + [chunk], files)
         == Traced(manifest, offsets, chunks, FullCount(manifest.entries, middle))
            + [Shot(manifest, Advanced(middle, chunk), files)]
    decreases |chunks|
  {
    if chunks == [] {
      assert chunks + [chunk] == [chunk] && [chunk][1..] == [];
    } else {
      assert (chunks + [chunk])[1..] == chunks[1..] + [chunk];
      TracedOneMore(manifest, sources, After(offsets, chunks[0]), chunks[1..], middle, chunk, files);
    }
  }

  lemma {:induction false} TracedFiles(manifest: Manifest, sources: seq<seq<byte>>, offsets: seq<nat>,
                                       chunks: seq<TransferChunk>, ends: seq<nat>, files: nat, other: nat)
    requires |offsets| == |manifest.entries| && Carries(manifest, sources, offsets, chunks, ends)
    ensures Traced(manifest, offsets, chunks, files)
         == Traced(manifest, offsets, chunks, other)[..|chunks|] + [Shot(manifest, ends, files)]
    decreases |chunks|
  {
    if chunks != [] {
      TracedFiles(manifest, sources, After(offsets, chunks[0]), chunks[1..], ends, files, other);
    }
  }

  /** The last report for each count of bytes. */
  function Steps(snapshots: seq<Snapshot>): (steps: seq<Snapshot>)
    ensures steps == [] <==> snapshots == []
    ensures steps != [] ==> steps[|steps| - 1] == snapshots[|snapshots| - 1]
    decreases |snapshots|
  {
    if snapshots == [] then []
    else
      var earlier, last := Steps(snapshots[..|snapshots| - 1]), snapshots[|snapshots| - 1];
      if earlier != [] && earlier[|earlier| - 1].bytes == last.bytes then earlier[..|earlier| - 1] + [last]
      else earlier + [last]
  }

  lemma StepsAppend(snapshots: seq<Snapshot>, next: Snapshot)
    requires snapshots != []
    ensures var earlier, last := Steps(snapshots), snapshots[|snapshots| - 1];
            Steps(snapshots + [next]) ==
            if last.bytes == next.bytes then earlier[..|earlier| - 1] + [next] else earlier + [next]
  {
    assert (snapshots + [next])[..|snapshots|] == snapshots;
  }

  /** What the sender has done so far: chunks written, snapshots reported, bytes and files completed. */
  datatype Sending = Sending(chunks: seq<TransferChunk>, snapshots: seq<Snapshot>, bytes: nat, files: nat)

  ghost predicate Unchanged(manifest: Manifest, sources: seq<seq<byte>>) {
    |sources| == |manifest.entries| && forall i :: 0 <= i < |sources| ==> |sources[i]| == manifest.entries[i].size
  }

  ghost predicate Within(manifest: Manifest, offsets: seq<nat>) {
    |offsets| == |manifest.entries| && forall i :: 0 <= i < |offsets| ==> offsets[i] <= manifest.entries[i].size
  }

  /** The chunks lead from `resume` to `offsets`, the counters are their sums, and the reports are the progress
      that the chunks make. */
  ghost predicate SendingSound(manifest: Manifest, sources: seq<seq<byte>>, resume: seq<nat>, offsets: seq<nat>,
                               sending: Sending) {
    && Within(manifest, offsets)
    && Carries(manifest, sources, resume, sending.chunks, offsets)
    && sending.bytes == Sum(offsets) && sending.files <= FullCount(manifest.entries, offsets)
    && Monotone(manifest, sending.snapshots)
    && Reports(manifest, resume, sending)
  }

  /** The reports are the progress that the chunks make, up to the present. */
  ghost predicate Reports(manifest: Manifest, resume: seq<nat>, sending: Sending) {
    && |resume| == |manifest.entries| && sending.snapshots != []
    && (var last := sending.snapshots[|sending.snapshots| - 1];
        last.bytes == sending.bytes && last.files == sending.files)
    && Steps(sending.snapshots) == Traced(manifest, resume, sending.chunks, sending.files)
  }

  function Report(manifest: Manifest, sending: Sending, total: nat): Sending {
    sending.(snapshots := sending.snapshots + [Snapshot(total, sending.bytes, sending.files)])
  }

  /** Writing the next chunk of an entry and reporting it. */
  function Wrote(manifest: Manifest, sending: Sending, chunk: TransferChunk, total: nat): Sending {
    Report(manifest, sending.(chunks := sending.chunks + [chunk], bytes := sending.bytes + |chunk.bytes|), total)
  }

  lemma {:induction false} StepsGrow(snapshots: seq<Snapshot>, trace: seq<Snapshot>, next: Snapshot)
    requires snapshots != [] && Steps(snapshots) == trace && snapshots[|snapshots| - 1].bytes != next.bytes
    ensures Steps(snapshots + [next]) == trace + [next]
  {
    StepsAppend(snapshots, next);
  }

  lemma {:induction false} StepsReplace(snapshots: seq<Snapshot>, trace: seq<Snapshot>, next: Snapshot)
    requires snapshots != [] && Steps(snapshots) == trace && snapshots[|snapshots| - 1].bytes == next.bytes
    ensures Steps(snapshots + [next]) == trace[..|trace| - 1] + [next]
  {
    StepsAppend(snapshots, next);
  }

  lemma {:induction false} WroteTrace(manifest: Manifest, sources: seq<seq<byte>>, resume: seq<nat>,
                                      offsets: seq<nat>, sending: Sending, chunk: TransferChunk, next: Snapshot)
    requires |resume| == |manifest.entries| == |offsets| && Continues(manifest, sources, offsets, chunk)
    requires Carries(manifest, sources, resume, sending.chunks, offsets)
    requires sending.files == FullCount(manifest.entries, offsets) && sending.bytes == Sum(offsets)
    requires next == Snapshot(TotalSize(manifest.entries), sending.bytes + |chunk.bytes|, sending.files)
    ensures Traced(manifest, resume, sending.chunks + [chunk], sending.files)
         == Traced(manifest, resume, sending.chunks, sending.files) + [next]
  {
    SumUpdate(offsets, chunk.entryIndex, chunk.offset + |chunk.bytes|);
    TracedOneMore(manifest, sources, resume, sending.chunks, offsets, chunk, sending.files);
  }

  lemma {:induction false} WroteReports(manifest: Manifest, sources: seq<seq<byte>>, resume: seq<nat>,
                                        offsets: seq<nat>, sending: Sending, chunk: TransferChunk)
    requires Carries(manifest, sources, resume, sending.chunks, offsets)
    requires Reports(manifest, resume, sending) && sending.bytes == Sum(offsets)
    requires |offsets| == |manifest.entries| && Continues(manifest, sources, offsets, chunk)
    requires sending.files == FullCount(manifest.entries, offsets)
    ensures Reports(manifest, resume, Wrote(manifest, sending, chunk, TotalSize(manifest.entries)))
  {
    var next := Snapshot(TotalSize(manifest.entries), sending.bytes + |chunk.bytes|, sending.files);
    var wrote := Wrote(manifest, sending, chunk, TotalSize(manifest.entries));
    assert wrote.snapshots == sending.snapshots + [next] && wrote.chunks == sending.chunks + [chunk];
    WroteTrace(manifest, sources, resume, offsets, sending, chunk, next);
    StepsGrow(sending.snapshots, Traced(manifest, resume, sending.chunks, sending.files), next);
  }

  lemma {:induction false} WroteCounts(manifest: Manifest, offsets: seq<nat>, chunk: TransferChunk, bytes: nat,
                                       files: nat)
    requires Within(manifest, offsets) && chunk.entryIndex < |offsets| && chunk.offset == offsets[chunk.entryIndex]
    requires 0 < |chunk.bytes| && chunk.offset + |chunk.bytes| <= manifest.entries[chunk.entryIndex].size
    requires bytes == Sum(offsets) && files <= FullCount(manifest.entries, offsets)
    ensures Within(manifest, Advanced(offsets, chunk))
    ensures bytes + |chunk.bytes| == Sum(Advanced(offsets, chunk)) <= TotalSize(manifest.entries)
    ensures files <= FullCount(manifest.entries, Advanced(offsets, chunk)) <= |manifest.entries|
  {
    var after := Advanced(offsets, chunk);
    SumUpdate(offsets, chunk.entryIndex, chunk.offset + |chunk.bytes|);
    SumWithin(manifest.entries, after);
    FullCountUpdate(manifest.entries, offsets, chunk.entryIndex, chunk.offset + |chunk.bytes|);
    FullCountWithin(manifest.entries, after);
  }

  lemma {:induction false} WroteSound(manifest: Manifest, sources: seq<seq<byte>>, resume: seq<nat>,
                                      offsets: seq<nat>, sending: Sending, chunk: TransferChunk)
    requires Unchanged(manifest, sources) && SendingSound(manifest, sources, resume, offsets, sending)
    requires Continues(manifest, sources, offsets, chunk) && sending.files == FullCount(manifest.entries, offsets)
    ensures SendingSound(manifest, sources, resume, Advanced(offsets, chunk),
                         Wrote(manifest, sending, chunk, TotalSize(manifest.entries)))
    ensures sending.bytes + |chunk.bytes| <= TotalSize(manifest.entries)
  {
    var wrote := Wrote(manifest, sending, chunk, TotalSize(manifest.entries));
    var next := Snapshot(TotalSize(manifest.entries), sending.bytes + |chunk.bytes|, sending.files);
    assert wrote == Sending(sending.chunks + [chunk], sending.snapshots + [next], sending.bytes + |chunk.bytes|,
                            sending.files);
    WroteCounts(manifest, offsets, chunk, sending.bytes, sending.files);
    CarriesOneMore(manifest, sources, resume, sending.chunks, offsets, chunk);
    MonotoneAppend(manifest, sending.snapshots, next);
    WroteReports(manifest, sources, resume, offsets, sending, chunk);
  }

  /** `chunk` is what the source has at `offset`. */
  predicate ReadsAt(manifest: Manifest, sources: seq<seq<byte>>, index: nat, offset: nat, chunk: TransferChunk)
    requires index < |sources|
  {
    && chunk.transferId == manifest.id && chunk.entryIndex == index && chunk.offset == offset
    && 0 < |chunk.bytes| <= MAX_CHUNK && offset + |chunk.bytes| <= |sources[index]|
    && chunk.bytes == sources[index][offset..offset + |chunk.bytes|]
  }

  /** Why there is no next chunk at `offset`. */
  predicate ChunkStopped(wire: Wire, manifest: Manifest, sources: seq<seq<byte>>, index: nat, offset: nat, written: nat,
                         reply: Reply, patience: nat, error: SendError, refused: Option<TransferChunk>)
    requires index < |sources|
  {
    || (error == SendCancelled && refused == None && written >= patience)
    || (error == SourceChanged && refused == None && offset >= |sources[index]|)
    || (error == Answer(manifest, reply.message) && refused == None && written >= reply.after)
    || (&& refused.Some? && ReadsAt(manifest, sources, index, offset, refused.value)
        && var frame := Frame.EncodeFrame(wire, ChunkMessage(refused.value));
           frame.Err? && error == FrameFailed(frame.error))
  }

  /** Read the next chunk and frame it, unless something stops the stream first. */
  method NextChunk(wire: Wire, manifest: Manifest, sources: seq<seq<byte>>, index: nat, offset: nat, written: nat,
                   reply: Reply, patience: nat)
    returns (chunk: TransferChunk, error: Option<SendError>, ghost refused: Option<TransferChunk>)
    requires index < |sources|
    ensures error.None? ==>
              refused == None && ReadsAt(manifest, sources, index, offset, chunk) && Framable(wire, ChunkMessage(chunk))
    ensures error.Some? ==>
              ChunkStopped(wire, manifest, sources, index, offset, written, reply, patience, error.value, refused)
  {
    chunk, refused := TransferChunk(manifest.id, index, offset, []), None;
    if written >= patience {
      return chunk, Some(SendCancelled), None;
    }
    var read := ReadTransferChunk(sources[index], offset, MAX_CHUNK);
    if read.value == [] {
      return chunk, Some(SourceChanged), None;
    }
    chunk := TransferChunk(manifest.id, index, offset, read.value);
    if written >= reply.after {
      return chunk, Some(Answer(manifest, reply.message)), None;
    }
    var frame := Frame.EncodeFrame(wire, ChunkMessage(chunk));
    if frame.Err? {
      return chunk, Some(FrameFailed(frame.error)), Some(chunk);
    }
    return chunk, None, None;
  }

  // ---------- the sender's state as a function of the chunks ----------

  predicate ResumeValid(manifest: Manifest, resume: seq<nat>) {
    |resume| == |manifest.entries| && forall i :: 0 <= i < |resume| ==> resume[i] <= manifest.entries[i].size
  }

  function Starting(manifest: Manifest, resume: seq<nat>): Sending
    requires |resume| == |manifest.entries|
  {
    Report(manifest, Sending([], [], Sum(resume), FullCount(manifest.entries, resume)), TotalSize(manifest.entries))
  }

  /** Count one more entry if it was completed. */
  function Counted(manifest: Manifest, sending: Sending, completed: bool): Sending {
    if completed then Report(manifest, sending.(files := sending.files + 1), TotalSize(manifest.entries)) else sending
  }

  predicate Completes(manifest: Manifest, chunk: TransferChunk) {
    chunk.entryIndex < |manifest.entries|
    && chunk.offset + |chunk.bytes| == manifest.entries[chunk.entryIndex].size
  }

  /** The state after the chunks: each is written and reported, and counts its entry if it completes it. */
  function Sent(manifest: Manifest, resume: seq<nat>, chunks: seq<TransferChunk>): (sending: Sending)
    requires |resume| == |manifest.entries|
    ensures sending.chunks == chunks
    decreases |chunks|
  {
    if chunks == [] then Starting(manifest, resume)
    else
      var last := chunks[|chunks| - 1];
      var earlier := Sent(manifest, resume, chunks[..|chunks| - 1]);
      Counted(manifest, Wrote(manifest, earlier, last, TotalSize(manifest.entries)), Completes(manifest, last))
  }

  lemma SentOneMore(manifest: Manifest, resume: seq<nat>, chunks: seq<TransferChunk>, chunk: TransferChunk)
    requires |resume| == |manifest.entries|
    ensures Sent(manifest, resume, chunks + [chunk])
         == Counted(manifest, Wrote(manifest, Sent(manifest, resume, chunks), chunk, TotalSize(manifest.entries)),
                    Completes(manifest, chunk))
  {
    assert (chunks + [chunk])[..|chunks|] == chunks;
  }

  lemma {:induction false} CarriesSplit(manifest: Manifest, sources: seq<seq<byte>>, offsets: seq<nat>,
                                        chunks: seq<TransferChunk>, chunk: TransferChunk, ends: seq<nat>)
    returns (middle: seq<nat>)
    requires Carries(manifest, sources, offsets, chunks + [chunk], ends)
    ensures Carries(manifest, sources, offsets, chunks, middle) && Continues(manifest, sources, middle, chunk)
    ensures ends == Advanced(middle, chunk)
    decreases |chunks|
  {
    if chunks == [] {
      assert chunks + [chunk] == [chunk] && [chunk][1..] == [];
      middle := offsets;
    } else {
      assert (chunks + [chunk])[1..] == chunks[1..] + [chunk];
      middle := CarriesSplit(manifest, sources, Advanced(offsets, chunks[0]), chunks[1..], chunk, ends);
    }
  }

  lemma {:induction false} StartingSound(manifest: Manifest, sources: seq<seq<byte>>, resume: seq<nat>)
    requires ResumeValid(manifest, resume)
    ensures SendingSound(manifest, sources, resume, resume, Starting(manifest, resume))
  {
    SumWithin(manifest.entries, resume);
    FullCountWithin(manifest.entries, resume);
    var first := Snapshot(TotalSize(manifest.entries), Sum(resume), FullCount(manifest.entries, resume));
    MonotoneAppend(manifest, [], first);
    assert [] + [first] == [first] && [first][..0] == [];
  }

  lemma {:induction false} CompletedReports(manifest: Manifest, sources: seq<seq<byte>>, resume: seq<nat>,
                                            offsets: seq<nat>, sending: Sending)
    requires Carries(manifest, sources, resume, sending.chunks, offsets)
    requires Reports(manifest, resume, sending) && sending.bytes == Sum(offsets)
    ensures Reports(manifest, resume, Counted(manifest, sending, true))
  {
    var next := Snapshot(TotalSize(manifest.entries), sending.bytes, sending.files + 1);
    assert Counted(manifest, sending, true)
        == Sending(sending.chunks, sending.snapshots + [next], sending.bytes, sending.files + 1);
    TracedFiles(manifest, sources, resume, sending.chunks, offsets, sending.files + 1, sending.files);
    StepsReplace(sending.snapshots, Traced(manifest, resume, sending.chunks, sending.files), next);
    assert next == Shot(manifest, offsets, sending.files + 1);
  }

  lemma {:induction false} CompletedSound(manifest: Manifest, sources: seq<seq<byte>>, resume: seq<nat>,
                                          offsets: seq<nat>, sending: Sending)
    requires SendingSound(manifest, sources, resume, offsets, sending)
    requires sending.files < FullCount(manifest.entries, offsets)
    ensures SendingSound(manifest, sources, resume, offsets, Counted(manifest, sending, true))
  {
    SumWithin(manifest.entries, offsets);
    FullCountWithin(manifest.entries, offsets);
    var next := Snapshot(TotalSize(manifest.entries), sending.bytes, sending.files + 1);
    MonotoneAppend(manifest, sending.snapshots, next);
    CompletedReports(manifest, sources, resume, offsets, sending);
  }

  /** After chunks that carry the entries from `resume` to `offsets`, the counters and the reports are right. */
  lemma {:induction false} SentSound(manifest: Manifest, sources: seq<seq<byte>>, resume: seq<nat>,
                                     offsets: seq<nat>, chunks: seq<TransferChunk>)
    requires Unchanged(manifest, sources) && ResumeValid(manifest, resume)
    requires Carries(manifest, sources, resume, chunks, offsets)
    ensures SendingSound(manifest, sources, resume, offsets, Sent(manifest, resume, chunks))
    ensures Sent(manifest, resume, chunks).files == FullCount(manifest.entries, offsets)
    decreases |chunks|
  {
    if chunks == [] {
      StartingSound(manifest, sources, resume);
    } else {
      var earlier, last := chunks[..|chunks| - 1], chunks[|chunks| - 1];
      assert chunks == earlier + [last];
      var middle := CarriesSplit(manifest, sources, resume, earlier, last, offsets);
      SentSound(manifest, sources, resume, middle, earlier);
      SentSoundStep(manifest, sources, resume, middle, Sent(manifest, resume, earlier), last);
    }
  }

  lemma {:induction false} SentSoundStep(manifest: Manifest, sources: seq<seq<byte>>, resume: seq<nat>,
                                         middle: seq<nat>, earlier: Sending, last: TransferChunk)
    requires Unchanged(manifest, sources) && Continues(manifest, sources, middle, last)
    requires SendingSound(manifest, sources, resume, middle, earlier)
    requires earlier.files == FullCount(manifest.entries, middle)
    ensures var offsets := Advanced(middle, last);
            var sending := Counted(manifest, Wrote(manifest, earlier, last, TotalSize(manifest.entries)),
                                   Completes(manifest, last));
            && SendingSound(manifest, sources, resume, offsets, sending)
            && |offsets| == |manifest.entries| && sending.files == FullCount(manifest.entries, offsets)
  {
    var wrote := Wrote(manifest, earlier, last, TotalSize(manifest.entries));
    WroteSound(manifest, sources, resume, middle, earlier, last);
    FullCountUpdate(manifest.entries, middle, last.entryIndex, last.offset + |last.bytes|);
    if Completes(manifest, last) {
      CompletedSound(manifest, sources, resume, Advanced(middle, last), wrote);
    } else {
      assert Counted(manifest, wrote, false) == wrote;
    }
  }

  lemma {:induction false} SentBytes(manifest: Manifest, sources: seq<seq<byte>>, resume: seq<nat>,
                                     offsets: seq<nat>, chunks: seq<TransferChunk>, chunk: TransferChunk)
    requires Unchanged(manifest, sources) && ResumeValid(manifest, resume)
    requires Carries(manifest, sources, resume, chunks, offsets) && Continues(manifest, sources, offsets, chunk)
    ensures Sent(manifest, resume, chunks).bytes + |chunk.bytes| <= TotalSize(manifest.entries)
  {
    SentSound(manifest, sources, resume, offsets, chunks);
    WroteCounts(manifest, offsets, chunk, Sum(offsets), 0);
  }

  lemma {:induction false} EndingSound(manifest: Manifest, sources: seq<seq<byte>>, resume: seq<nat>,
                                       offsets: seq<nat>, sending: Sending)
    requires SendingSound(manifest, sources, resume, offsets, sending)
    requires sending.files == FullCount(manifest.entries, offsets)
    requires forall i :: 0 <= i < |offsets| ==> offsets[i] == manifest.entries[i].size
    ensures offsets == Sizes(manifest.entries)
    ensures sending.bytes == TotalSize(manifest.entries) && sending.files == |manifest.entries|
  {
    assert offsets == Sizes(manifest.entries);
    SumWithin(manifest.entries, offsets);
    FullCountWithin(manifest.entries, offsets);
  }

  // ---------- the sending loops ----------

  /** Part way through one entry that started at `start`: the chunks lead up to `offset` in it, and it is
      counted only once it is complete. */
  ghost predicate Partway(manifest: Manifest, sources: seq<seq<byte>>, resume: seq<nat>, offsets: seq<nat>, index: nat,
                          start: nat, offset: nat, sending: Sending)
    requires |resume| == |manifest.entries| == |offsets| && index < |offsets|
  {
    && start <= offset <= manifest.entries[index].size
    && Carries(manifest, sources, resume, sending.chunks, offsets[index := offset])
    && Counted(manifest, sending, start < offset && offset == manifest.entries[index].size)
       == Sent(manifest, resume, sending.chunks)
  }

  /** Writing the next chunk leads on. */
  lemma {:induction false} ChunkSent(manifest: Manifest, sources: seq<seq<byte>>, resume: seq<nat>,
                                     offsets: seq<nat>, index: nat, start: nat, offset: nat, sending: Sending,
                                     chunk: TransferChunk)
    requires |resume| == |manifest.entries| == |offsets| && index < |offsets|
    requires Unchanged(manifest, sources) && Partway(manifest, sources, resume, offsets, index, start, offset, sending)
    requires offset < manifest.entries[index].size && ReadsAt(manifest, sources, index, offset, chunk)
    ensures Partway(manifest, sources, resume, offsets, index, start, offset + |chunk.bytes|,
                    Wrote(manifest, sending, chunk, TotalSize(manifest.entries)))
  {
    var next, wrote := offset + |chunk.bytes|, Wrote(manifest, sending, chunk, TotalSize(manifest.entries));
    assert wrote.chunks == sending.chunks + [chunk];
    assert Carries(manifest, sources, resume, wrote.chunks, offsets[index := next]) by {
      CarriesOneMore(manifest, sources, resume, sending.chunks, offsets[index := offset], chunk);
      assert Advanced(offsets[index := offset], chunk) == offsets[index := next];
    }
    assert Counted(manifest, wrote, next == manifest.entries[index].size) == Sent(manifest, resume, wrote.chunks) by {
      SentOneMore(manifest, resume, sending.chunks, chunk);
    }
  }

  lemma WroteFramable(wire: Wire, manifest: Manifest, sending: Sending, chunk: TransferChunk, total: nat)
    requires AllFramable(wire, sending.chunks) && Framable(wire, ChunkMessage(chunk))
    ensures AllFramable(wire, Wrote(manifest, sending, chunk, total).chunks)
  {
  }

  /** Why no chunk was written at `offset`. */
  predicate NotSent(wire: Wire, manifest: Manifest, sources: seq<seq<byte>>, index: nat, offset: nat, before: Sending,
                    reply: Reply, patience: nat, chunk: TransferChunk, error: SendError,
                    refused: Option<TransferChunk>)
    requires index < |sources|
  {
    || ChunkStopped(wire, manifest, sources, index, offset, |before.chunks|, reply, patience, error, refused)
    || (&& error == SendOverflow && refused == None && ReadsAt(manifest, sources, index, offset, chunk)
        && before.bytes + |chunk.bytes| > MAX_U64)
  }

  /** The running total stays within the sizes, which the announcement bounds. */
  lemma {:induction false} NoOverflow(manifest: Manifest, sources: seq<seq<byte>>, resume: seq<nat>, offsets: seq<nat>,
                                      index: nat, start: nat, offset: nat, sending: Sending, chunk: TransferChunk)
    requires |resume| == |manifest.entries| == |offsets| && index < |offsets| && ResumeValid(manifest, resume)
    requires Unchanged(manifest, sources) && Partway(manifest, sources, resume, offsets, index, start, offset, sending)
    requires offset < manifest.entries[index].size && TotalSize(manifest.entries) <= MAX_U64
    requires ReadsAt(manifest, sources, index, offset, chunk)
    ensures sending.bytes + |chunk.bytes| <= MAX_U64
  {
    SentBytes(manifest, sources, resume, offsets[index := offset], sending.chunks, chunk);
  }

  /** With an unchanged source only an outside reason stops an entry, and then what was sent is counted. */
  lemma {:induction false} EntryStops(wire: Wire, manifest: Manifest, sources: seq<seq<byte>>, resume: seq<nat>,
                                      offsets: seq<nat>, index: nat, start: nat, offset: nat, sending: Sending,
                                      reply: Reply, patience: nat, chunk: TransferChunk, error: SendError,
                                      refused: Option<TransferChunk>)
    requires |resume| == |manifest.entries| == |offsets| && index < |offsets| && ResumeValid(manifest, resume)
    requires Unchanged(manifest, sources) && Partway(manifest, sources, resume, offsets, index, start, offset, sending)
    requires offset < manifest.entries[index].size && TotalSize(manifest.entries) <= MAX_U64
    requires NotSent(wire, manifest, sources, index, offset, sending, reply, patience, chunk, error, refused)
    ensures Halted(wire, manifest, sources, resume, offsets[index := offset], sending, reply, patience, error, refused)
  {
    if ReadsAt(manifest, sources, index, offset, chunk) {
      NoOverflow(manifest, sources, resume, offsets, index, start, offset, sending, chunk);
    }
  }

  /** What was sent is right as far as it got, and only an outside reason stopped it. */
  ghost predicate Halted(wire: Wire, manifest: Manifest, sources: seq<seq<byte>>, resume: seq<nat>, reached: seq<nat>,
                         sending: Sending, reply: Reply, patience: nat, error: SendError,
                         refused: Option<TransferChunk>)
    requires |resume| == |manifest.entries|
  {
    && Carries(manifest, sources, resume, sending.chunks, reached)
    && sending == Sent(manifest, resume, sending.chunks)
    && Stopped(wire, manifest, sources, reached, sending, reply, patience, error, refused)
  }

  /** While an entry is streamed: every chunk has a frame, and with an unchanged source the state is the one
      after the chunks. */
  ghost predicate Streaming(wire: Wire, manifest: Manifest, sources: seq<seq<byte>>, resume: seq<nat>,
                            offsets: seq<nat>, index: nat, start: nat, offset: nat, sending: Sending)
    requires |resume| == |manifest.entries| == |offsets| && index < |offsets|
  {
    && AllFramable(wire, sending.chunks)
    && (Intact(manifest, sources, resume) ==>
          Partway(manifest, sources, resume, offsets, index, start, offset, sending))
  }

  ghost predicate Intact(manifest: Manifest, sources: seq<seq<byte>>, resume: seq<nat>) {
    Unchanged(manifest, sources) && ResumeValid(manifest, resume)
  }

  /** What came of an entry: the stream at its end, or what stopped it. */
  ghost predicate EntryOutcome(wire: Wire, manifest: Manifest, sources: seq<seq<byte>>, resume: seq<nat>,
                               offsets: seq<nat>, index: nat, start: nat, sending: Sending, error: Option<SendError>,
                               reached: seq<nat>, reply: Reply, patience: nat, refused: Option<TransferChunk>)
    requires |resume| == |manifest.entries| == |offsets| && index < |offsets|
  {
    && AllFramable(wire, sending.chunks) && error != Some(InvalidResume)
    && match error
       case None =>
         && refused == None && reached == offsets[index := manifest.entries[index].size]
         && (Intact(manifest, sources, resume) ==>
               Partway(manifest, sources, resume, offsets, index, start, manifest.entries[index].size, sending))
       case Some(reason) =>
         Intact(manifest, sources, resume) ==>
           Halted(wire, manifest, sources, resume, reached, sending, reply, patience, reason, refused)
  }

  lemma {:induction false} StreamsOn(wire: Wire, manifest: Manifest, sources: seq<seq<byte>>, resume: seq<nat>,
                                     offsets: seq<nat>, index: nat, start: nat, offset: nat, sending: Sending,
                                     chunk: TransferChunk, next: nat, after: Sending)
    requires |resume| == |manifest.entries| == |offsets| == |sources| && index < |offsets|
    requires Streaming(wire, manifest, sources, resume, offsets, index, start, offset, sending)
    requires offset < manifest.entries[index].size && ReadsAt(manifest, sources, index, offset, chunk)
    requires Framable(wire, ChunkMessage(chunk))
    requires next == offset + |chunk.bytes| && after == Wrote(manifest, sending, chunk, TotalSize(manifest.entries))
    ensures offset < next && Streaming(wire, manifest, sources, resume, offsets, index, start, next, after)
  {
    WroteFramable(wire, manifest, sending, chunk, TotalSize(manifest.entries));
    if Intact(manifest, sources, resume) {
      ChunkSent(manifest, sources, resume, offsets, index, start, offset, sending, chunk);
    }
  }

  lemma {:induction false} StreamStops(wire: Wire, manifest: Manifest, sources: seq<seq<byte>>, resume: seq<nat>,
                                       offsets: seq<nat>, index: nat, start: nat, offset: nat, sending: Sending,
                                       reply: Reply, patience: nat, chunk: TransferChunk, error: SendError,
                                       refused: Option<TransferChunk>)
    requires |resume| == |manifest.entries| == |offsets| == |sources| && index < |offsets|
    requires Streaming(wire, manifest, sources, resume, offsets, index, start, offset, sending)
    requires offset < manifest.entries[index].size && TotalSize(manifest.entries) <= MAX_U64 && error != InvalidResume
    requires NotSent(wire, manifest, sources, index, offset, sending, reply, patience, chunk, error, refused)
    ensures EntryOutcome(wire, manifest, sources, resume, offsets, index, start, sending, Some(error),
                         offsets[index := offset], reply, patience, refused)
  {
    if Intact(manifest, sources, resume) {
      EntryStops(wire, manifest, sources, resume, offsets, index, start, offset, sending, reply, patience, chunk, error,
                 refused);
    }
  }

  lemma {:induction false} StreamEnds(wire: Wire, manifest: Manifest, sources: seq<seq<byte>>, resume: seq<nat>,
                                      offsets: seq<nat>, index: nat, start: nat, offset: nat, sending: Sending,
                                      reply: Reply, patience: nat)
    requires |resume| == |manifest.entries| == |offsets| == |sources| && index < |offsets|
    requires Streaming(wire, manifest, sources, resume, offsets, index, start, offset, sending)
    requires offset >= manifest.entries[index].size
    ensures EntryOutcome(wire, manifest, sources, resume, offsets, index, start, sending, None,
                         offsets[index := manifest.entries[index].size], reply, patience, None)
  {
  }

  /** Write one chunk and report it, unless something stops the stream. */
  method SendChunk(wire: Wire, manifest: Manifest, sources: seq<seq<byte>>, index: nat, ghost start: nat, offset: nat,
                   total: nat, reply: Reply, patience: nat, before: Sending, ghost resume: seq<nat>,
                   ghost offsets: seq<nat>)
    returns (sending: Sending, next: nat, error: Option<SendError>, ghost refused: Option<TransferChunk>)
    requires index < |manifest.entries| == |sources| == |resume| == |offsets|
    requires offset < manifest.entries[index].size && total == TotalSize(manifest.entries) <= MAX_U64
    requires Streaming(wire, manifest, sources, resume, offsets, index, start, offset, before)
    ensures error.None? ==>
              offset < next && Streaming(wire, manifest, sources, resume, offsets, index, start, next, sending)
    ensures error.Some? ==>
              EntryOutcome(wire, manifest, sources, resume, offsets, index, start, sending, error,
                           offsets[index := offset], reply, patience, refused)
  {
    var chunk;
    sending, next := before, offset;
    chunk, error, refused := NextChunk(wire, manifest, sources, index, offset, |before.chunks|, reply, patience);
    if error.None? && before.bytes + |chunk.bytes| > MAX_U64 {
      error := Some(SendOverflow);
    }
    if error.Some? {
      StreamStops(wire, manifest, sources, resume, offsets, index, start, offset, before, reply, patience, chunk,
                  error.value, refused);
    } else {
      sending, next := Wrote(manifest, before, chunk, total), offset + |chunk.bytes|;
      StreamsOn(wire, manifest, sources, resume, offsets, index, start, offset, before, chunk, next,
                sending);
    }
  }

  /** Stream one entry from `start` on. At most `patience` chunks are written before cancellation shows. */
  method SendEntry(wire: Wire, manifest: Manifest, sources: seq<seq<byte>>, index: nat, start: nat, total: nat,
                   reply: Reply, patience: nat, before: Sending, ghost resume: seq<nat>, ghost offsets: seq<nat>)
    returns (sending: Sending, error: Option<SendError>, ghost reached: seq<nat>, ghost refused: Option<TransferChunk>)
    requires index < |manifest.entries| == |sources| == |resume| == |offsets|
    requires total == TotalSize(manifest.entries) <= MAX_U64
    requires Streaming(wire, manifest, sources, resume, offsets, index, start, start, before)
    ensures EntryOutcome(wire, manifest, sources, resume, offsets, index, start, sending, error, reached, reply,
                         patience, refused)
  {
    var size := manifest.entries[index].size;
    var offset: nat := start;
    sending := before;
    while offset < size
      invariant Streaming(wire, manifest, sources, resume, offsets, index, start, offset, sending)
      decreases size - offset
    {
      var next;
      sending, next, error, refused :=
        SendChunk(wire, manifest, sources, index, start, offset, total, reply, patience, sending, resume, offsets);
      if error.Some? {
        reached := offsets[index := offset];
        return;
      }
      offset := next;
    }
    error, reached, refused := None, offsets[index := size], None;
    StreamEnds(wire, manifest, sources, resume, offsets, index, start, offset, sending, reply, patience);
  }

  /** Between two entries: those before `index` are complete, the others are where the receiver was. */
  ghost predicate SentUpTo(manifest: Manifest, sources: seq<seq<byte>>, resume: seq<nat>, offsets: seq<nat>, index: nat,
                           sending: Sending) {
    && |resume| == |manifest.entries| == |offsets|
    && Carries(manifest, sources, resume, sending.chunks, offsets)
    && sending == Sent(manifest, resume, sending.chunks)
    && (forall i :: 0 <= i < index && i < |offsets| ==> offsets[i] == manifest.entries[i].size)
    && (forall i :: index <= i < |offsets| ==> offsets[i] == resume[i])
  }

  lemma {:induction false} EntryStarts(manifest: Manifest, sources: seq<seq<byte>>, resume: seq<nat>,
                                       offsets: seq<nat>, index: nat, sending: Sending)
    requires SentUpTo(manifest, sources, resume, offsets, index, sending) && ResumeValid(manifest, resume)
    requires index < |manifest.entries|
    ensures Partway(manifest, sources, resume, offsets, index, resume[index], resume[index], sending)
  {
    assert offsets[index := resume[index]] == offsets;
  }

  lemma {:induction false} EntrySent(manifest: Manifest, sources: seq<seq<byte>>, resume: seq<nat>,
                                     offsets: seq<nat>, index: nat, before: Sending, sending: Sending)
    requires index < |manifest.entries| && SentUpTo(manifest, sources, resume, offsets, index, before)
    requires Partway(manifest, sources, resume, offsets, index, resume[index], manifest.entries[index].size, sending)
    ensures SentUpTo(manifest, sources, resume, offsets[index := manifest.entries[index].size], index + 1,
                     Counted(manifest, sending, resume[index] < manifest.entries[index].size))
  {
  }

  /** What the sender did is right, as far as it got. */
  ghost predicate SentTo(manifest: Manifest, sources: seq<seq<byte>>, resume: seq<nat>, reached: seq<nat>,
                         sending: Sending) {
    SendingSound(manifest, sources, resume, reached, sending) && sending.files == FullCount(manifest.entries, reached)
  }

  lemma {:induction false} EntriesSent(manifest: Manifest, sources: seq<seq<byte>>, resume: seq<nat>,
                                       reached: seq<nat>, sending: Sending)
    requires Unchanged(manifest, sources) && ResumeValid(manifest, resume)
    requires SentUpTo(manifest, sources, resume, reached, |manifest.entries|, sending)
    ensures SentTo(manifest, sources, resume, reached, sending)
    ensures reached == Sizes(manifest.entries)
    ensures sending.bytes == TotalSize(manifest.entries) && sending.files == |manifest.entries|
  {
    SentSound(manifest, sources, resume, reached, sending.chunks);
    EndingSound(manifest, sources, resume, reached, sending);
  }

  /** Stream every entry from the receiver's offsets. */
  method SendEntries(wire: Wire, manifest: Manifest, sources: seq<seq<byte>>, resume: seq<nat>, reply: Reply,
                     patience: nat)
    returns (sending: Sending, error: Option<SendError>, ghost reached: seq<nat>, ghost refused: Option<TransferChunk>)
    requires |sources| == |manifest.entries|
    ensures error == Some(InvalidResume) <==> !ResumeValid(manifest, resume)
    ensures error == Some(InvalidResume) ==> sending.chunks == []
    ensures ResumeValid(manifest, resume) && TotalSize(manifest.entries) > MAX_U64 ==> error == Some(SendOverflow)
    ensures AllFramable(wire, sending.chunks)
    ensures Unchanged(manifest, sources) && ResumeValid(manifest, resume) && TotalSize(manifest.entries) <= MAX_U64 ==>
              && SentTo(manifest, sources, resume, reached, sending)
              && (error.None? ==> reached == Sizes(manifest.entries) && sending.bytes == TotalSize(manifest.entries)
                                  && sending.files == |manifest.entries| && refused.None?)
              && (error.Some? ==>
                   Stopped(wire, manifest, sources, reached, sending, reply, patience, error.value, refused))
  {
    sending, reached, refused := Sending([], [], 0, 0), resume, None;
    if !ResumeValid(manifest, resume) {
      return sending, Some(InvalidResume), reached, refused;
    }
    var total := TotalSize(manifest.entries);
    if total > MAX_U64 {
      return sending, Some(SendOverflow), reached, refused;
    }
    sending := Starting(manifest, resume);
    var index := 0;
    while index < |manifest.entries|
      invariant index <= |manifest.entries| == |reached| && AllFramable(wire, sending.chunks)
      invariant Intact(manifest, sources, resume) ==>
                  SentUpTo(manifest, sources, resume, reached, index, sending)
    {
      ghost var offsets, before := reached, sending;
      if Intact(manifest, sources, resume) {
        EntryStarts(manifest, sources, resume, offsets, index, before);
      }
      sending, error, reached, refused :=
        SendEntry(wire, manifest, sources, index, resume[index], total, reply, patience, sending, resume, offsets);
      if error.Some? {
        if Intact(manifest, sources, resume) {
          SentSound(manifest, sources, resume, reached, sending.chunks);
        }
        return sending, error, reached, refused;
      }
      if Intact(manifest, sources, resume) {
        EntrySent(manifest, sources, resume, offsets, index, before, sending);
      }
      sending := Counted(manifest, sending, resume[index] < manifest.entries[index].size);
      index := index + 1;
    }
    if Intact(manifest, sources, resume) {
      EntriesSent(manifest, sources, resume, reached, sending);
    }
    return sending, None, reached, None;
  }

  /** The offsets of a resume message for this transfer. */
  predicate Resumes(manifest: Manifest, message: Message) {
    message.ResumeMessage? && message.id == manifest.id && ResumeValid(manifest, message.offsets)
  }

  /** The sending side of one session: offer, wait for the resume offsets, stream, wait for the
      acknowledgement. With an unchanged source whose sizes add up it succeeds exactly when the offer has a
      frame, the receiver answers with offsets for this transfer, nothing stops the stream, and the
      receiver's reply after it is the acknowledgement. */
  method SendTransfer(wire: Wire, manifest: Manifest, sources: seq<seq<byte>>, resumed: Message, reply: Reply,
                      patience: nat)
    returns (sending: Sending, error: Option<SendError>, ghost reached: seq<nat>, ghost refused: Option<TransferChunk>)
    requires |sources| == |manifest.entries|
    ensures AllFramable(wire, sending.chunks)
    ensures !Framable(wire, OfferMessage(manifest)) ==> sending.chunks == [] && error.Some? && error.value.FrameFailed?
    ensures Framable(wire, OfferMessage(manifest)) && !Resumes(manifest, resumed) ==>
              && sending.chunks == []
              && error == Some(if resumed == CancelMessage(manifest.id) then SendCancelled
                               else if resumed.ResumeMessage? then InvalidResume else UnexpectedReply)
    ensures Framable(wire, OfferMessage(manifest)) && Resumes(manifest, resumed)
            && Unchanged(manifest, sources) && TotalSize(manifest.entries) <= MAX_U64 ==>
              && SendingSound(manifest, sources, resumed.offsets, reached, sending)
              && (error.None? ==> reached == Sizes(manifest.entries) && reply.message == AcknowledgeMessage(manifest.id)
                                  && sending.bytes == TotalSize(manifest.entries)
                                  && sending.files == |manifest.entries|)
              && (error.Some? ==>
                    || Stopped(wire, manifest, sources, reached, sending, reply, patience, error.value, refused)
                    || (reached == Sizes(manifest.entries) && reply.message != AcknowledgeMessage(manifest.id)
                                      && error == Some(Answer(manifest, reply.message))))
  {
    sending, reached, refused := Sending([], [], 0, 0), [], None;
    var offer := Frame.EncodeFrame(wire, OfferMessage(manifest));
    if offer.Err? {
      return sending, Some(FrameFailed(offer.error)), reached, refused;
    }
    if resumed == CancelMessage(manifest.id) {
      return sending, Some(SendCancelled), reached, refused;
    }
    if !resumed.ResumeMessage? {
      return sending, Some(UnexpectedReply), reached, refused;
    }
    if resumed.id != manifest.id {
      return sending, Some(InvalidResume), reached, refused;
    }
    sending, error, reached, refused := SendEntries(wire, manifest, sources, resumed.offsets, reply, patience);
    if error.None? && reply.message != AcknowledgeMessage(manifest.id) {
      error := Some(Answer(manifest, reply.message));
    }
  }
}

/** Restart-safe transfer of one content-addressed blob (crates/network/src/blob.rs): the receiver and
    the reader as functions over the files on disk, with every disk change listed in order. */
module Blob {
  import opened Bytes
  import opened Transfer

  datatype BlobId = BlobId(hash: Hash, size: FileSize)

  datatype BlobChunk = BlobChunk(hash: Hash, offset: nat, bytes: seq<byte>, complete: bool)

  datatype BlobError =
    | ExistingContentMismatch
    | InvalidPartial
    | NoSpace
    | WrongBlob
    | WrongBlobOffset
    | InvalidChunk
    | IncompleteBlob
    | WrongContent

  predicate IsBlob(hash: HashFunction, blob: BlobId, bytes: seq<byte>) {
    |bytes| == blob.size && hash(bytes) == blob.hash
  }

  // ---------- disk changes ----------

  datatype Change = Create | Extend(bytes: seq<byte>) | Finalize | Remove

  function After(slot: Slot, change: Change): Slot {
    match change
    case Create => slot.(partial := Some([]))
    case Extend(bytes) => slot.(partial := Some(Held(slot) + bytes))
    case Finalize => Slot(None, Some(Held(slot)))
    case Remove => slot.(partial := None)
  }

  function AfterAll(slot: Slot, changes: seq<Change>): Slot
    decreases |changes|
  {
    if changes == [] then slot else AfterAll(After(slot, changes[0]), changes[1..])
  }

  lemma {:induction false} AfterConcat(slot: Slot, a: seq<Change>, b: seq<Change>)
    ensures AfterAll(slot, a + b) == AfterAll(AfterAll(slot, a), b)
    decreases |a|
  {
    if a == [] {
      assert a + b == b;
    } else {
      assert (a + b)[1..] == a[1..] + b;
      AfterConcat(After(slot, a[0]), a[1..], b);
    }
  }

  lemma AfterOne(slot: Slot, change: Change)
    ensures AfterAll(slot, [change]) == After(slot, change)
  {
    assert [change][1..] == [];
  }

  lemma AfterTwo(slot: Slot, first: Change, second: Change)
    ensures AfterAll(slot, [first, second]) == After(After(slot, first), second)
  {
    assert [first, second][1..] == [second];
    AfterOne(After(slot, first), second);
  }

  // ---------- the receiver ----------

  datatype BlobState = BlobState(received: nat, complete: bool, open: bool)

  datatype BlobBegun = BlobBegun(changes: seq<Change>, result: Result<BlobState, BlobError>)

  function BeginBlob(hash: HashFunction, blob: BlobId, slot: Slot, space: nat): BlobBegun {
    if slot.final.Some? then
      if IsBlob(hash, blob, slot.final.value) then BlobBegun([], Ok(BlobState(blob.size, true, false)))
      else BlobBegun([], Err(ExistingContentMismatch))
    else if |Held(slot)| > blob.size then BlobBegun([], Err(InvalidPartial))
    else if space < blob.size - |Held(slot)| + SPACE_MARGIN then BlobBegun([], Err(NoSpace))
    else
      var created := if slot.partial.None? then [Create] else [];
      if |Held(slot)| < blob.size then BlobBegun(created, Ok(BlobState(|Held(slot)|, false, true)))
      else if hash(Held(slot)) == blob.hash then BlobBegun(created + [Finalize], Ok(BlobState(blob.size, true, false)))
      else BlobBegun(created + [Remove], Err(WrongContent))
  }

  datatype BlobAccepted = BlobAccepted(state: BlobState, changes: seq<Change>, result: Result<(), BlobError>)

  /** Append one ordered segment, and finalize on the last one. */
  function AcceptBlob(hash: HashFunction, blob: BlobId, state: BlobState, slot: Slot, chunk: BlobChunk): BlobAccepted {
    if state.complete || chunk.hash != blob.hash then BlobAccepted(state, [], Err(WrongBlob))
    else if chunk.offset != state.received then BlobAccepted(state, [], Err(WrongBlobOffset))
    else if chunk.bytes == [] || |chunk.bytes| > MAX_CHUNK then BlobAccepted(state, [], Err(InvalidChunk))
    else
      var ending := state.received + |chunk.bytes|;
      if ending > blob.size || chunk.complete != (ending == blob.size) then BlobAccepted(state, [], Err(InvalidChunk))
      else if !state.open then BlobAccepted(state, [], Err(IncompleteBlob))
      else if !chunk.complete then BlobAccepted(state.(received := ending), [Extend(chunk.bytes)], Ok(()))
      else if hash(Held(slot) + chunk.bytes) == blob.hash then
        BlobAccepted(BlobState(ending, true, false), [Extend(chunk.bytes), Finalize], Ok(()))
      else
        BlobAccepted(BlobState(0, false, false), [Extend(chunk.bytes), Remove], Err(WrongContent))
  }

  /** Memory and disk agree. */
  ghost predicate BlobConsistent(hash: HashFunction, blob: BlobId, state: BlobState, slot: Slot) {
    if state.complete then !state.open && slot.final.Some? && IsBlob(hash, blob, slot.final.value)
    else if state.open then
      slot.final.None? && slot.partial.Some? && |slot.partial.value| == state.received < blob.size
    else slot == Slot(None, None) && state.received == 0
  }

  lemma BeginBlobConsistent(hash: HashFunction, blob: BlobId, slot: Slot, space: nat)
    ensures var begun := BeginBlob(hash, blob, slot, space);
            begun.result.Ok? ==> BlobConsistent(hash, blob, begun.result.value, AfterAll(slot, begun.changes))
  {
    AfterOne(slot, Create);
    AfterOne(slot, Finalize);
    AfterTwo(slot, Create, Finalize);
  }

  lemma AcceptBlobConsistent(hash: HashFunction, blob: BlobId, state: BlobState, slot: Slot, chunk: BlobChunk)
    requires BlobConsistent(hash, blob, state, slot)
    ensures var accepted := AcceptBlob(hash, blob, state, slot, chunk);
            BlobConsistent(hash, blob, accepted.state, AfterAll(slot, accepted.changes))
  {
    AfterOne(slot, Extend(chunk.bytes));
    AfterTwo(slot, Extend(chunk.bytes), Finalize);
    AfterTwo(slot, Extend(chunk.bytes), Remove);
  }

  // ---------- one attempt ----------

  datatype BlobMessage = BlobMessage(chunk: BlobChunk) | SomethingElse

  datatype FetchError = BlobFailed(error: BlobError) | BlobStreamClosed | UnexpectedBlobMessage

  datatype Fetched = Fetched(changes: seq<Change>, used: nat, result: Result<(), FetchError>)

  /** The request loop: accept chunks until one is marked complete, then finish. */
  function Consume(hash: HashFunction, blob: BlobId, state: BlobState, slot: Slot, messages: seq<BlobMessage>): Fetched
    decreases |messages|
  {
    if messages == [] then Fetched([], 0, Err(BlobStreamClosed))
    else if messages[0].SomethingElse? then Fetched([], 1, Err(UnexpectedBlobMessage))
    else
      var accepted := AcceptBlob(hash, blob, state, slot, messages[0].chunk);
      if accepted.result.Err? then Fetched(accepted.changes, 1, Err(BlobFailed(accepted.result.error)))
      else if messages[0].chunk.complete then
        Fetched(accepted.changes, 1, if accepted.state.complete then Ok(()) else Err(BlobFailed(IncompleteBlob)))
      else
        var rest := Consume(hash, blob, accepted.state, AfterAll(slot, accepted.changes), messages[1..]);
        Fetched(accepted.changes + rest.changes, 1 + rest.used, rest.result)
  }

  function Attempt(hash: HashFunction, blob: BlobId, slot: Slot, space: nat, messages: seq<BlobMessage>): Fetched {
    var begun := BeginBlob(hash, blob, slot, space);
    match begun.result
    case Err(error) => Fetched(begun.changes, 0, Err(BlobFailed(error)))
    case Ok(state) =>
      if state.complete then Fetched(begun.changes, 0, Ok(()))
      else
        var rest := Consume(hash, blob, state, AfterAll(slot, begun.changes), messages);
        Fetched(begun.changes + rest.changes, rest.used, rest.result)
  }

  // ---------- what a server sends ----------

  /** `chunks` stream `content` from `offset` to its end; only the last one is marked complete. */
  ghost predicate Streams(content: seq<byte>, blobHash: Hash, offset: nat, chunks: seq<BlobChunk>)
    decreases |chunks|
  {
    chunks != [] &&
    var chunk := chunks[0];
    var ending := offset + |chunk.bytes|;
    && chunk.hash == blobHash && chunk.offset == offset
    && 0 < |chunk.bytes| <= MAX_CHUNK && ending <= |content| && chunk.bytes == content[offset..ending]
    && chunk.complete == (ending == |content|)
    && (if chunk.complete then |chunks| == 1 else Streams(content, blobHash, ending, chunks[1..]))
  }

  function Framed(chunks: seq<BlobChunk>): (messages: seq<BlobMessage>)
    ensures |messages| == |chunks| && forall i :: 0 <= i < |chunks| ==> messages[i] == BlobMessage(chunks[i])
  {
    seq(|chunks|, i requires 0 <= i < |chunks| => BlobMessage(chunks[i]))
  }

  /** The partial file with the rest of the content after it. */
  function Assembled(held: seq<byte>, content: seq<byte>): (whole: seq<byte>)
    requires |held| <= |content|
    ensures |whole| == |content|
  {
    held + content[|held|..]
  }

  /** Against a server that streams the right content, every chunk is accepted until the last one, where
      both sides see `complete`; the outcome depends only on what was held before. */
  lemma {:induction false} ConsumeExact(hash: HashFunction, blob: BlobId, state: BlobState, slot: Slot,
                                        content: seq<byte>, chunks: seq<BlobChunk>)
    requires BlobConsistent(hash, blob, state, slot) && state.open && IsBlob(hash, blob, content)
    requires Streams(content, blob.hash, state.received, chunks)
    ensures var fetched := Consume(hash, blob, state, slot, Framed(chunks));
            var whole := Assembled(Held(slot), content);
            && fetched.used == |chunks|
            && fetched.result == (if hash(whole) == blob.hash then Ok(()) else Err(BlobFailed(WrongContent)))
            && AfterAll(slot, fetched.changes)
                 == (if hash(whole) == blob.hash then Slot(None, Some(whole)) else Slot(None, None))
    decreases |chunks|
  {
    var chunk := chunks[0];
    var accepted := AcceptBlob(hash, blob, state, slot, chunk);
    if chunk.complete {
      assert Assembled(Held(slot), content) == Held(slot) + chunk.bytes;
      AfterTwo(slot, Extend(chunk.bytes), Finalize);
      AfterTwo(slot, Extend(chunk.bytes), Remove);
    } else {
      AfterOne(slot, Extend(chunk.bytes));
      var next := AfterAll(slot, accepted.changes);
      assert Assembled(Held(next), content) == Assembled(Held(slot), content);
      assert Framed(chunks)[1..] == Framed(chunks[1..]);
      ConsumeExact(hash, blob, accepted.state, next, content, chunks[1..]);
      AfterConcat(slot, accepted.changes, Consume(hash, blob, accepted.state, next, Framed(chunks[1..])).changes);
    }
  }

  /** A partial file no longer than the blob, nothing final yet, and room for the rest. */
  predicate Resumable(blob: BlobId, slot: Slot, space: nat) {
    slot.final.None? && |Held(slot)| <= blob.size && space >= blob.size + SPACE_MARGIN
  }

  /** A full attempt against the right content: it publishes the partial file completed with the rest of
      the content if that has the right hash, and otherwise fails and deletes the partial file. */
  lemma AttemptExact(hash: HashFunction, blob: BlobId, slot: Slot, space: nat, content: seq<byte>,
                     chunks: seq<BlobChunk>)
    requires Resumable(blob, slot, space) && IsBlob(hash, blob, content)
    requires |Held(slot)| < blob.size ==> Streams(content, blob.hash, |Held(slot)|, chunks)
    ensures var fetched := Attempt(hash, blob, slot, space, Framed(chunks));
            var whole := Assembled(Held(slot), content);
            && fetched.used == (if |Held(slot)| < blob.size then |chunks| else 0)
            && fetched.result == (if hash(whole) == blob.hash then Ok(()) else Err(BlobFailed(WrongContent)))
            && AfterAll(slot, fetched.changes)
                 == (if hash(whole) == blob.hash then Slot(None, Some(whole)) else Slot(None, None))
  {
    var begun := BeginBlob(hash, blob, slot, space);
    BeginBlobConsistent(hash, blob, slot, space);
    if |Held(slot)| < blob.size {
      AfterOne(slot, Create);
      var ready := AfterAll(slot, begun.changes);
      assert Held(ready) == Held(slot);
      ConsumeExact(hash, blob, begun.result.value, ready, content, chunks);
      AfterConcat(slot, begun.changes, Consume(hash, blob, begun.result.value, ready, Framed(chunks)).changes);
    } else {
      assert Assembled(Held(slot), content) == Held(slot);
      AfterOne(slot, Finalize);
      AfterOne(slot, Remove);
      AfterTwo(slot, Create, Finalize);
      AfterTwo(slot, Create, Remove);
    }
  }

  /** Nothing final, and what is held is the beginning of the content. */
  predicate GoodPrefix(content: seq<byte>, slot: Slot) {
    slot.final.None? && Held(slot) <= content
  }

  lemma PrefixAssembles(content: seq<byte>, slot: Slot)
    requires GoodPrefix(content, slot)
    ensures Assembled(Held(slot), content) == content
  {
  }

  /** From any correct durable prefix, one attempt ends with exactly the content. */
  lemma PrefixAttemptExact(hash: HashFunction, blob: BlobId, slot: Slot, space: nat, content: seq<byte>,
                           chunks: seq<BlobChunk>)
    requires GoodPrefix(content, slot) && IsBlob(hash, blob, content) && space >= blob.size + SPACE_MARGIN
    requires |Held(slot)| < blob.size ==> Streams(content, blob.hash, |Held(slot)|, chunks)
    ensures var fetched := Attempt(hash, blob, slot, space, Framed(chunks));
            fetched.result == Ok(()) && AfterAll(slot, fetched.changes) == Slot(None, Some(content))
  {
    PrefixAssembles(content, slot);
    AttemptExact(hash, blob, slot, space, content, chunks);
  }

  /** From any partial file no longer than the blob, however corrupt, at most one attempt fails: it deletes
      the partial file, and the next one starts at offset 0 and ends with exactly the content. */
  lemma HealsInTwo(hash: HashFunction, blob: BlobId, slot: Slot, space: nat, content: seq<byte>, first: seq<BlobChunk>,
                   second: seq<BlobChunk>)
    requires Resumable(blob, slot, space) && IsBlob(hash, blob, content)
    requires |Held(slot)| < blob.size ==> Streams(content, blob.hash, |Held(slot)|, first)
    requires blob.size > 0 ==> Streams(content, blob.hash, 0, second)
    ensures var failed := Attempt(hash, blob, slot, space, Framed(first));
            var between := AfterAll(slot, failed.changes);
            if failed.result.Ok? then between.final.Some? && IsBlob(hash, blob, between.final.value)
            else
              var retried := Attempt(hash, blob, between, space, Framed(second));
              && between == Slot(None, None)
              && retried.result == Ok(()) && AfterAll(between, retried.changes) == Slot(None, Some(content))
  {
    AttemptExact(hash, blob, slot, space, content, first);
    var between := AfterAll(slot, Attempt(hash, blob, slot, space, Framed(first)).changes);
    if between == Slot(None, None) {
      PrefixAttemptExact(hash, blob, between, space, content, second);
    }
  }

  /** The attempt failed on a file that no attempt changes. */
  predicate Stuck(fetched: Fetched) {
    fetched.result == Err(BlobFailed(InvalidPartial)) || fetched.result == Err(BlobFailed(ExistingContentMismatch))
  }

  /** That covers everything a retry can heal: a partial file longer than the blob, and final content with
      another size or hash, make every later attempt fail and stay as they are. */
  lemma StuckIff(hash: HashFunction, blob: BlobId, slot: Slot, space: nat, messages: seq<BlobMessage>)
    ensures var fetched := Attempt(hash, blob, slot, space, messages);
            (Stuck(fetched) <==>
              if slot.final.Some? then !IsBlob(hash, blob, slot.final.value) else |Held(slot)| > blob.size)
            && (Stuck(fetched) ==>
                  AfterAll(slot, fetched.changes) == slot)
  {
    var begun := BeginBlob(hash, blob, slot, space);
    if begun.result.Ok? && !begun.result.value.complete {
      ConsumeErrors(hash, blob, begun.result.value, AfterAll(slot, begun.changes), messages);
    }
  }

  lemma {:induction false} ConsumeErrors(hash: HashFunction, blob: BlobId, state: BlobState, slot: Slot,
                                         messages: seq<BlobMessage>)
    ensures var result := Consume(hash, blob, state, slot, messages).result;
            result.Err? ==>
              result.error != BlobFailed(InvalidPartial) && result.error != BlobFailed(ExistingContentMismatch)
    decreases |messages|
  {
    if messages != [] && messages[0].BlobMessage? {
      var accepted := AcceptBlob(hash, blob, state, slot, messages[0].chunk);
      if accepted.result.Ok? && !messages[0].chunk.complete {
        ConsumeErrors(hash, blob, accepted.state, AfterAll(slot, accepted.changes), messages[1..]);
      }
    }
  }
}

/** The two sides of a blob request as they run: the receiver over its files, the reader with short reads,
    the serving loop and the requesting loop (crates/network/src/blob.rs, crates/network/src/session.rs:
    210-231, 411-443). */
module BlobSession {
  import opened Bytes
  import opened Transfer
  import opened Blob

  /** The partial and final file of one content hash. */
  class BlobStore {
    var slot: Slot

    constructor (slot: Slot)
      ensures this.slot == slot
    {
      this.slot := slot;
    }

    method Perform(change: Change)
      modifies this
      ensures slot == After(old(slot), change)
    {
      match change
      case Create => slot := Slot(Some([]), slot.final);
      case Extend(bytes) => slot := Slot(Some(Held(slot) + bytes), slot.final);
      case Finalize => slot := Slot(None, Some(Held(slot)));
      case Remove => slot := Slot(None, slot.final);
    }
  }

  class BlobReceiver {
    const hash: HashFunction
    const blob: BlobId
    const store: BlobStore
    var received: nat
    var complete: bool
    var open: bool

    ghost predicate Valid()
      reads this, store
    {
      BlobConsistent(hash, blob, State(), store.slot)
    }

    ghost function State(): BlobState
      reads this
    {
      BlobState(received, complete, open)
    }

    constructor (hash: HashFunction, blob: BlobId, store: BlobStore, state: BlobState)
      ensures this.hash == hash && this.blob == blob && this.store == store && State() == state
    {
      this.hash := hash;
      this.blob := blob;
      this.store := store;
      this.received := state.received;
      this.complete := state.complete;
      this.open := state.open;
    }

    /** Verify a full partial file: rename it to its content address, or delete it and start over. */
    method FinalizePartial() returns (result: Result<(), BlobError>)
      requires store.slot.partial.Some?
      modifies this, store
      ensures var matches := hash(old(Held(store.slot))) == blob.hash;
              && result == (if matches then Ok(()) else Err(WrongContent))
              && store.slot == After(old(store.slot), if matches then Finalize else Remove)
              && State()
                   == BlobState(if matches then old(received) else 0, if matches then true else old(complete), false)
    {
      open := false;
      if hash(store.slot.partial.value) != blob.hash {
        store.Perform(Remove);
        received := 0;
        return Err(WrongContent);
      }
      store.Perform(Finalize);
      complete := true;
      return Ok(());
    }

    method Accept(chunk: BlobChunk) returns (result: Result<(), BlobError>)
      requires Valid()
      modifies this, store
      ensures Valid()
      ensures var specified := AcceptBlob(hash, blob, old(State()), old(store.slot), chunk);
              && result == specified.result && State() == specified.state
              && store.slot == AfterAll(old(store.slot), specified.changes)
    {
      AcceptBlobConsistent(hash, blob, State(), store.slot, chunk);
      AfterOne(store.slot, Extend(chunk.bytes));
      AfterTwo(store.slot, Extend(chunk.bytes), Finalize);
      AfterTwo(store.slot, Extend(chunk.bytes), Remove);
      if complete || chunk.hash != blob.hash {
        return Err(WrongBlob);
      }
      if chunk.offset != received {
        return Err(WrongBlobOffset);
      }
      if chunk.bytes == [] || |chunk.bytes| > MAX_CHUNK {
        return Err(InvalidChunk);
      }
      var ending := received + |chunk.bytes|;
      if ending > blob.size || chunk.complete != (ending == blob.size) {
        return Err(InvalidChunk);
      }
      if !open {
        return Err(IncompleteBlob);
      }
      store.Perform(Extend(chunk.bytes));
      received := ending;
      if chunk.complete {
        result := FinalizePartial();
        return result;
      }
      return Ok(());
    }

    /** Publishing needs the verified file; it yields its bytes. */
    method Finish() returns (result: Result<seq<byte>, BlobError>)
      requires Valid()
      ensures if complete then result.Ok? && store.slot.final == Some(result.value) && IsBlob(hash, blob, result.value)
              else result == Err(IncompleteBlob)
    {
      if !complete {
        return Err(IncompleteBlob);
      }
      return Ok(store.slot.final.value);
    }
  }

  method BeginReceiver(hash: HashFunction, blob: BlobId, store: BlobStore, space: nat)
    returns (result: Result<BlobReceiver, BlobError>)
    modifies store
    ensures var specified := BeginBlob(hash, blob, old(store.slot), space);
            && store.slot == AfterAll(old(store.slot), specified.changes)
            && (result.Ok? <==> specified.result.Ok?)
            && (result.Err? ==> result.error == specified.result.error)
            && (result.Ok? ==>
                  && fresh(result.value) && result.value.store == store && result.value.blob == blob
                  && result.value.hash == hash && result.value.Valid()
                  && result.value.State() == specified.result.value)
  {
    BeginBlobConsistent(hash, blob, store.slot, space);
    AfterOne(store.slot, Create);
    AfterOne(store.slot, Finalize);
    AfterOne(store.slot, Remove);
    AfterTwo(store.slot, Create, Finalize);
    AfterTwo(store.slot, Create, Remove);
    var receiver: BlobReceiver;
    if store.slot.final.Some? {
      if !IsBlob(hash, blob, store.slot.final.value) {
        return Err(ExistingContentMismatch);
      }
      receiver := new BlobReceiver(hash, blob, store, BlobState(blob.size, true, false));
      return Ok(receiver);
    }
    var durable := |Held(store.slot)|;
    if durable > blob.size {
      return Err(InvalidPartial);
    }
    if space < blob.size - durable + SPACE_MARGIN {
      return Err(NoSpace);
    }
    if store.slot.partial.None? {
      store.Perform(Create);
    }
    receiver := new BlobReceiver(hash, blob, store, BlobState(durable, false, true));
    if durable == blob.size {
      var finalized := receiver.FinalizePartial();
      if finalized.Err? {
        return Err(finalized.error);
      }
    }
    return Ok(receiver);
  }

  // ---------- the serving side ----------

  /** Read one chunk at an offset; the operating system may return fewer bytes than asked for, but at
      least one. The chunk is marked complete exactly when it reaches the end. */
  method ReadBlobChunk(content: seq<byte>, blobHash: Hash, offset: nat, requested: nat)
    returns (result: Result<BlobChunk, BlobError>)
    ensures requested == 0 ==> result == Err(InvalidChunk)
    ensures requested > 0 && offset >= |content| ==> result == Err(WrongBlobOffset)
    ensures requested > 0 && offset < |content| ==>
              && result.Ok? && result.value.hash == blobHash && result.value.offset == offset
              && 0 < |result.value.bytes| <= requested && |result.value.bytes| <= MAX_CHUNK
              && offset + |result.value.bytes| <= |content|
              && result.value.bytes == content[offset..offset + |result.value.bytes|]
              && (result.value.complete <==> offset + |result.value.bytes| == |content|)
  {
    if requested == 0 {
      return Err(InvalidChunk);
    }
    if offset >= |content| {
      return Err(WrongBlobOffset);
    }
    var wanted := if requested < MAX_CHUNK then requested else MAX_CHUNK;
    var available := if wanted < |content| - offset then wanted else |content| - offset;
    var length :| 1 <= length <= available;
    return Ok(BlobChunk(blobHash, offset, content[offset..offset + length], offset + length == |content|));
  }

  /** `chunks` stream the content from `offset` up to `reached`, none of them marked complete. */
  ghost predicate StreamsUpTo(content: seq<byte>, blobHash: Hash, offset: nat, chunks: seq<BlobChunk>, reached: nat)
    decreases |chunks|
  {
    if chunks == [] then reached == offset
    else
      var chunk := chunks[0];
      var ending := offset + |chunk.bytes|;
      && chunk.hash == blobHash && chunk.offset == offset
      && 0 < |chunk.bytes| <= MAX_CHUNK && ending < |content| && chunk.bytes == content[offset..ending]
      && !chunk.complete && StreamsUpTo(content, blobHash, ending, chunks[1..], reached)
  }

  lemma {:induction false} StreamsOneMore(content: seq<byte>, blobHash: Hash, offset: nat, chunks: seq<BlobChunk>,
                                          reached: nat, chunk: BlobChunk)
    requires StreamsUpTo(content, blobHash, offset, chunks, reached)
    requires chunk.hash == blobHash && chunk.offset == reached && 0 < |chunk.bytes| <= MAX_CHUNK
    requires reached + |chunk.bytes| <= |content| && chunk.bytes == content[reached..reached + |chunk.bytes|]
    requires chunk.complete <==> reached + |chunk.bytes| == |content|
    ensures if chunk.complete then Streams(content, blobHash, offset, chunks + [chunk])
            else StreamsUpTo(content, blobHash, offset, chunks + [chunk], reached + |chunk.bytes|)
    decreases |chunks|
  {
    var all := chunks + [chunk];
    if chunks == [] {
      assert all[1..] == [];
    } else {
      assert all[1..] == chunks[1..] + [chunk];
      StreamsOneMore(content, blobHash, offset + |chunks[0].bytes|, chunks[1..], reached, chunk);
    }
  }

  /** Stream a blob from the requested offset; the loop ends because every chunk moves at least one byte. */
  method Serve(content: seq<byte>, blobHash: Hash, offset: nat)
    returns (chunks: seq<BlobChunk>, error: Option<BlobError>)
    ensures if offset < |content| then error == None && Streams(content, blobHash, offset, chunks)
            else chunks == [] && error == Some(WrongBlobOffset)
  {
    chunks := [];
    var reached := offset;
    while true
      invariant StreamsUpTo(content, blobHash, offset, chunks, reached)
      invariant offset < |content| ==> reached < |content|
      invariant offset >= |content| ==> chunks == [] && reached == offset
      decreases |content| - reached
    {
      var read := ReadBlobChunk(content, blobHash, reached, MAX_CHUNK);
      if read.Err? {
        return chunks, Some(read.error);
      }
      StreamsOneMore(content, blobHash, offset, chunks, reached, read.value);
      chunks := chunks + [read.value];
      if read.value.complete {
        return chunks, None;
      }
      reached := reached + |read.value.bytes|;
    }
  }

  // ---------- the requesting side ----------

  /** After `used` messages and the changes `done`, the rest of the loop ends as the whole loop does. */
  ghost predicate Proceeds(specified: Fetched, hash: HashFunction, blob: BlobId, state: BlobState, slot: Slot,
                           messages: seq<BlobMessage>, used: nat, done: seq<Change>)
    requires used <= |messages|
  {
    var rest := Consume(hash, blob, state, slot, messages[used..]);
    specified == Fetched(done + rest.changes, used + rest.used, rest.result)
  }

  lemma ProceedsOne(specified: Fetched, hash: HashFunction, blob: BlobId, state: BlobState, slot: Slot,
                    messages: seq<BlobMessage>, used: nat, done: seq<Change>)
    requires used < |messages| && Proceeds(specified, hash, blob, state, slot, messages, used, done)
    requires messages[used].BlobMessage?
    ensures var accepted := AcceptBlob(hash, blob, state, slot, messages[used].chunk);
            if accepted.result.Err? then
              specified == Fetched(done + accepted.changes, used + 1, Err(BlobFailed(accepted.result.error)))
            else if messages[used].chunk.complete then
              specified == Fetched(done + accepted.changes, used + 1,
                                   if accepted.state.complete then Ok(()) else Err(BlobFailed(IncompleteBlob)))
            else
              Proceeds(specified, hash, blob, accepted.state, AfterAll(slot, accepted.changes), messages, used + 1,
                done + accepted.changes)
  {
    assert messages[used..][0] == messages[used] && messages[used..][1..] == messages[used + 1..];
    var accepted := AcceptBlob(hash, blob, state, slot, messages[used].chunk);
    var rest := Consume(hash, blob, accepted.state, AfterAll(slot, accepted.changes), messages[used + 1..]);
    assert done + (accepted.changes + rest.changes) == (done + accepted.changes) + rest.changes;
  }

  /** Accept the messages of one request until a chunk is marked complete. */
  method ConsumeMessages(receiver: BlobReceiver, messages: seq<BlobMessage>)
    returns (used: nat, error: Option<FetchError>)
    requires receiver.Valid()
    modifies receiver, receiver.store
    ensures receiver.Valid()
    ensures var specified := Consume(receiver.hash, receiver.blob, old(receiver.State()), old(receiver.store.slot),
                                     messages);
            && used == specified.used
            && receiver.store.slot == AfterAll(old(receiver.store.slot), specified.changes)
            && specified.result == (if error.Some? then Err(error.value) else if receiver.complete then Ok(())
                                    else Err(BlobFailed(IncompleteBlob)))
  {
    ghost var start := receiver.store.slot;
    ghost var specified := Consume(receiver.hash, receiver.blob, receiver.State(), start, messages);
    ghost var done := [];
    used := 0;
    assert messages[0..] == messages;
    while used < |messages|
      invariant receiver.Valid() && used <= |messages|
      invariant Proceeds(specified, receiver.hash, receiver.blob, receiver.State(), receiver.store.slot, messages,
                  used, done)
      invariant receiver.store.slot == AfterAll(start, done)
    {
      if messages[used].SomethingElse? {
        assert messages[used..][0] == messages[used] && done + [] == done;
        return used + 1, Some(UnexpectedBlobMessage);
      }
      var chunk := messages[used].chunk;
      ProceedsOne(specified, receiver.hash, receiver.blob, receiver.State(), receiver.store.slot, messages, used, done);
      ghost var changes :=
        AcceptBlob(receiver.hash, receiver.blob, receiver.State(), receiver.store.slot, chunk).changes;
      AfterConcat(start, done, changes);
      var result := receiver.Accept(chunk);
      used := used + 1;
      done := done + changes;
      if result.Err? {
        return used, Some(BlobFailed(result.error));
      }
      if chunk.complete {
        return used, None;
      }
    }
    assert messages[used..] == [] && done + [] == done;
    return used, Some(BlobStreamClosed);
  }

  /** Request a blob from a server that holds `content` under this hash. The server's own size and hash need
      not be right; when they are, the outcome is exact. */
  method RequestBlob(hash: HashFunction, blob: BlobId, store: BlobStore, space: nat, content: seq<byte>)
    returns (result: Result<seq<byte>, FetchError>)
    modifies store
    ensures result.Ok? ==> store.slot.final == Some(result.value) && IsBlob(hash, blob, result.value)
    ensures IsBlob(hash, blob, content) && Resumable(blob, old(store.slot), space) ==>
              var whole := Assembled(old(Held(store.slot)), content);
              if hash(whole) == blob.hash then result == Ok(whole) && store.slot == Slot(None, Some(whole))
              else result == Err(BlobFailed(WrongContent)) && store.slot == Slot(None, None)
    ensures IsBlob(hash, blob, content) && GoodPrefix(content, old(store.slot)) && space >= blob.size + SPACE_MARGIN ==>
              result == Ok(content)
  {
    ghost var slot := store.slot;
    var begun := BeginReceiver(hash, blob, store, space);
    if begun.Err? {
      AttemptWhen(hash, blob, slot, space, content, []);
      return Err(BlobFailed(begun.error));
    }
    var receiver := begun.value;
    if receiver.complete {
      AttemptWhen(hash, blob, slot, space, content, []);
      var finished := receiver.Finish();
      return Ok(finished.value);
    }
    var chunks, refused := Serve(content, blob.hash, receiver.received);
    AttemptWhen(hash, blob, slot, space, content, chunks);
    ghost var state, ready := receiver.State(), store.slot;
    ghost var changes := BeginBlob(hash, blob, slot, space).changes;
    AfterConcat(slot, changes, Consume(hash, blob, state, ready, Framed(chunks)).changes);
    var used, error := ConsumeMessages(receiver, Framed(chunks));
    if error.Some? {
      return Err(error.value);
    }
    var finished := receiver.Finish();
    return if finished.Ok? then Ok(finished.value) else Err(BlobFailed(finished.error));
  }

  /** What is known of an attempt when the server's content is right. */
  lemma AttemptWhen(hash: HashFunction, blob: BlobId, slot: Slot, space: nat, content: seq<byte>,
                    chunks: seq<BlobChunk>)
    ensures IsBlob(hash, blob, content) && Resumable(blob, slot, space)
            && (|Held(slot)| < blob.size ==> Streams(content, blob.hash, |Held(slot)|, chunks)) ==>
              var fetched := Attempt(hash, blob, slot, space, Framed(chunks));
              var whole := Assembled(Held(slot), content);
              && fetched.result == (if hash(whole) == blob.hash then Ok(()) else Err(BlobFailed(WrongContent)))
              && AfterAll(slot, fetched.changes)
                   == (if hash(whole) == blob.hash then Slot(None, Some(whole)) else Slot(None, None))
              && (GoodPrefix(content, slot) ==> whole == content)
  {
    if IsBlob(hash, blob, content) && Resumable(blob, slot, space)
       && (|Held(slot)| < blob.size ==> Streams(content, blob.hash, |Held(slot)|, chunks)) {
      AttemptExact(hash, blob, slot, space, content, chunks);
      if GoodPrefix(content, slot) {
        PrefixAssembles(content, slot);
      }
    }
  }
}

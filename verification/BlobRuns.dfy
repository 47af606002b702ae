/** Any number of blob requests, each cut off anywhere by a crash or a lost connection and each against any
    server (crates/network/src/blob.rs:32-178). */
module BlobRuns {
  import opened Bytes
  import opened Transfer
  import opened Blob

  /** What the store may hold: a verified final file or a partial file that is not too long, not both. */
  ghost predicate StoreSound(hash: HashFunction, blob: BlobId, slot: Slot) {
    && (slot.final.Some? ==> IsBlob(hash, blob, slot.final.value) && slot.partial.None?)
    && |Held(slot)| <= blob.size
  }

  /** What each change needs to keep it so. */
  ghost predicate Permitted(hash: HashFunction, blob: BlobId, slot: Slot, change: Change) {
    match change
    case Create => slot == Slot(None, None)
    case Extend(bytes) => slot.partial.Some? && |slot.partial.value| + |bytes| <= blob.size
    case Finalize => slot.partial.Some? && IsBlob(hash, blob, slot.partial.value)
    case Remove => slot.partial.Some? && slot.final.None? && hash(slot.partial.value) != blob.hash
  }

  ghost predicate AllPermitted(hash: HashFunction, blob: BlobId, slot: Slot, changes: seq<Change>)
    decreases |changes|
  {
    changes == []
      || (Permitted(hash, blob, slot, changes[0]) && AllPermitted(hash, blob, After(slot, changes[0]), changes[1..]))
  }

  lemma {:induction false} PermittedConcat(hash: HashFunction, blob: BlobId, slot: Slot, a: seq<Change>, b: seq<Change>)
    requires AllPermitted(hash, blob, slot, a) && AllPermitted(hash, blob, AfterAll(slot, a), b)
    ensures AllPermitted(hash, blob, slot, a + b)
    decreases |a|
  {
    if a == [] {
      assert a + b == b;
    } else {
      assert (a + b)[1..] == a[1..] + b;
      PermittedConcat(hash, blob, After(slot, a[0]), a[1..], b);
    }
  }

  lemma PermittedOne(hash: HashFunction, blob: BlobId, slot: Slot, change: Change)
    requires Permitted(hash, blob, slot, change)
    ensures AllPermitted(hash, blob, slot, [change])
  {
    assert [change][1..] == [];
  }

  lemma PermittedTwo(hash: HashFunction, blob: BlobId, slot: Slot, first: Change, second: Change)
    requires Permitted(hash, blob, slot, first) && Permitted(hash, blob, After(slot, first), second)
    ensures AllPermitted(hash, blob, slot, [first, second])
  {
    assert [first, second][1..] == [second];
    PermittedOne(hash, blob, After(slot, first), second);
  }

  // ---------- the receiver makes only such changes, whatever the server sends ----------

  lemma BeginPermitted(hash: HashFunction, blob: BlobId, slot: Slot, space: nat)
    requires StoreSound(hash, blob, slot)
    ensures AllPermitted(hash, blob, slot, BeginBlob(hash, blob, slot, space).changes)
  {
    var changes := BeginBlob(hash, blob, slot, space).changes;
    match |changes| {
      case 1 => PermittedOne(hash, blob, slot, changes[0]);
      case 2 => PermittedTwo(hash, blob, slot, changes[0], changes[1]);
      case _ =>
    }
  }

  lemma AcceptPermitted(hash: HashFunction, blob: BlobId, state: BlobState, slot: Slot, chunk: BlobChunk)
    requires BlobConsistent(hash, blob, state, slot)
    ensures AllPermitted(hash, blob, slot, AcceptBlob(hash, blob, state, slot, chunk).changes)
  {
    var changes := AcceptBlob(hash, blob, state, slot, chunk).changes;
    match |changes| {
      case 1 => PermittedOne(hash, blob, slot, changes[0]);
      case 2 => PermittedTwo(hash, blob, slot, changes[0], changes[1]);
      case _ =>
    }
  }

  lemma {:induction false} ConsumePermitted(hash: HashFunction, blob: BlobId, state: BlobState, slot: Slot,
                                            messages: seq<BlobMessage>)
    requires BlobConsistent(hash, blob, state, slot)
    ensures var fetched := Consume(hash, blob, state, slot, messages);
            && AllPermitted(hash, blob, slot, fetched.changes)
            && (fetched.result.Ok? ==> AfterAll(slot, fetched.changes).final.Some?)
    decreases |messages|
  {
    if messages != [] && messages[0].BlobMessage? {
      var chunk := messages[0].chunk;
      var accepted := AcceptBlob(hash, blob, state, slot, chunk);
      AcceptBlobConsistent(hash, blob, state, slot, chunk);
      AcceptPermitted(hash, blob, state, slot, chunk);
      if accepted.result.Ok? && !chunk.complete {
        var next := AfterAll(slot, accepted.changes);
        ConsumePermitted(hash, blob, accepted.state, next, messages[1..]);
        var rest := Consume(hash, blob, accepted.state, next, messages[1..]);
        PermittedConcat(hash, blob, slot, accepted.changes, rest.changes);
        AfterConcat(slot, accepted.changes, rest.changes);
      }
    }
  }

  lemma AttemptPermitted(hash: HashFunction, blob: BlobId, slot: Slot, space: nat, messages: seq<BlobMessage>)
    requires StoreSound(hash, blob, slot)
    ensures var fetched := Attempt(hash, blob, slot, space, messages);
            && AllPermitted(hash, blob, slot, fetched.changes)
            && (fetched.result.Ok? ==> AfterAll(slot, fetched.changes).final.Some?)
  {
    var begun := BeginBlob(hash, blob, slot, space);
    BeginPermitted(hash, blob, slot, space);
    BeginBlobConsistent(hash, blob, slot, space);
    if begun.result.Ok? && !begun.result.value.complete {
      var ready := AfterAll(slot, begun.changes);
      ConsumePermitted(hash, blob, begun.result.value, ready, messages);
      var rest := Consume(hash, blob, begun.result.value, ready, messages);
      PermittedConcat(hash, blob, slot, begun.changes, rest.changes);
      AfterConcat(slot, begun.changes, rest.changes);
    }
  }

  // ---------- cut anywhere ----------

  /** The first `count` changes, with the next write cut after `partway` bytes. */
  function CutChanges(changes: seq<Change>, count: nat, partway: nat): seq<Change> {
    if count >= |changes| then changes
    else
      changes[..count] +
      match changes[count]
      case Extend(bytes) => [Extend(if partway < |bytes| then bytes[..partway] else bytes)]
      case _ => []
  }

  lemma {:induction false} CutPermitted(hash: HashFunction, blob: BlobId, slot: Slot, changes: seq<Change>, count: nat,
                                        partway: nat)
    requires AllPermitted(hash, blob, slot, changes)
    ensures AllPermitted(hash, blob, slot, CutChanges(changes, count, partway))
    decreases |changes|
  {
    if count < |changes| {
      var cut := CutChanges(changes, count, partway);
      if count == 0 {
        if cut != [] {
          assert cut[1..] == [];
        }
      } else {
        CutPermitted(hash, blob, After(slot, changes[0]), changes[1..], count - 1, partway);
        assert changes[..count][1..] == changes[1..][..count - 1];
        assert cut[1..] == CutChanges(changes[1..], count - 1, partway);
      }
    }
  }

  lemma {:induction false} PermittedKeepsStore(hash: HashFunction, blob: BlobId, slot: Slot, changes: seq<Change>)
    requires StoreSound(hash, blob, slot) && AllPermitted(hash, blob, slot, changes)
    ensures var after := AfterAll(slot, changes);
            && StoreSound(hash, blob, after)
            && (slot.final.Some? ==> after == slot)
    decreases |changes|
  {
    if changes != [] {
      PermittedKeepsStore(hash, blob, After(slot, changes[0]), changes[1..]);
    }
  }

  // ---------- whole runs ----------

  datatype Request = Request(space: nat, messages: seq<BlobMessage>, cut: Option<(nat, nat)>)

  /** The store after one request, which may be cut. */
  function Requested(hash: HashFunction, blob: BlobId, slot: Slot, request: Request): Slot {
    var changes := Attempt(hash, blob, slot, request.space, request.messages).changes;
    match request.cut
    case None => AfterAll(slot, changes)
    case Some((count, partway)) => AfterAll(slot, CutChanges(changes, count, partway))
  }

  function RequestedAll(hash: HashFunction, blob: BlobId, slot: Slot, requests: seq<Request>): Slot
    decreases |requests|
  {
    if requests == [] then slot else RequestedAll(hash, blob, Requested(hash, blob, slot, requests[0]), requests[1..])
  }

  lemma RequestedSound(hash: HashFunction, blob: BlobId, slot: Slot, request: Request)
    requires StoreSound(hash, blob, slot)
    ensures var after := Requested(hash, blob, slot, request);
            && StoreSound(hash, blob, after)
            && (slot.final.Some? ==> after == slot)
  {
    AttemptPermitted(hash, blob, slot, request.space, request.messages);
    var changes := Attempt(hash, blob, slot, request.space, request.messages).changes;
    if request.cut.Some? {
      CutPermitted(hash, blob, slot, changes, request.cut.value.0, request.cut.value.1);
      PermittedKeepsStore(hash, blob, slot, CutChanges(changes, request.cut.value.0, request.cut.value.1));
    } else {
      PermittedKeepsStore(hash, blob, slot, changes);
    }
  }

  /** Over any run of requests against any servers, cut anywhere: the final file is absent or has exactly
      the announced size and hash, once it is there nothing changes it, and the partial file stays short
      enough to be resumed. */
  lemma {:induction false} BlobRunSound(hash: HashFunction, blob: BlobId, slot: Slot, requests: seq<Request>)
    requires StoreSound(hash, blob, slot)
    ensures var after := RequestedAll(hash, blob, slot, requests);
            && StoreSound(hash, blob, after)
            && (slot.final.Some? ==> after == slot)
    decreases |requests|
  {
    if requests != [] {
      RequestedSound(hash, blob, slot, requests[0]);
      BlobRunSound(hash, blob, Requested(hash, blob, slot, requests[0]), requests[1..]);
    }
  }

  /** So whatever happened before, from an empty store, two uninterrupted requests to a server with the
      right content leave a verified final file. */
  lemma RunThenHeals(hash: HashFunction, blob: BlobId, requests: seq<Request>, space: nat, content: seq<byte>,
                     first: seq<BlobChunk>, second: seq<BlobChunk>)
    requires IsBlob(hash, blob, content) && space >= blob.size + SPACE_MARGIN
    requires var held := |Held(RequestedAll(hash, blob, Slot(None, None), requests))|;
             held < blob.size ==> Streams(content, blob.hash, held, first)
    requires blob.size > 0 ==> Streams(content, blob.hash, 0, second)
    ensures var slot := RequestedAll(hash, blob, Slot(None, None), requests);
            var between := Requested(hash, blob, slot, Request(space, Framed(first), None));
            var after := Requested(hash, blob, between, Request(space, Framed(second), None));
            after.final.Some? && IsBlob(hash, blob, after.final.value)
  {
    BlobRunSound(hash, blob, Slot(None, None), requests);
    var slot := RequestedAll(hash, blob, Slot(None, None), requests);
    var between := Requested(hash, blob, slot, Request(space, Framed(first), None));
    RequestedSound(hash, blob, slot, Request(space, Framed(first), None));
    RequestedSound(hash, blob, between, Request(space, Framed(second), None));
    if slot.final.None? {
      HealsInTwo(hash, blob, slot, space, content, first, second);
    }
  }

  // ---------- one hash announced with two sizes ----------

  /** Requests for a blob whose partial file is too long change nothing and all fail. */
  lemma {:induction false} TooLongForever(hash: HashFunction, blob: BlobId, slot: Slot, requests: seq<Request>)
    requires slot.final.None? && |Held(slot)| > blob.size
    ensures RequestedAll(hash, blob, slot, requests) == slot
    ensures forall request :: request in requests ==>
              Attempt(hash, blob, slot, request.space, request.messages).result == Err(BlobFailed(InvalidPartial))
    decreases |requests|
  {
    if requests != [] {
      var request := requests[0];
      assert Attempt(hash, blob, slot, request.space, request.messages)
          == Fetched([], 0, Err(BlobFailed(InvalidPartial)));
      assert Requested(hash, blob, slot, request) == slot;
      TooLongForever(hash, blob, slot, requests[1..]);
    }
  }

  /** For instance: a peer announces a hash with two bytes and sends them, and the receiver stops before it
      verifies the file. Announced again with the right size of one byte, the blob is never received: no later
      request changes the partial file, which has the name of the hash alone. */
  lemma TooLongExample(hash: HashFunction, blobHash: Hash, later: seq<Request>)
    ensures var chunk := BlobChunk(blobHash, 0, [0, 0], true);
            var first := Request(SPACE_MARGIN + 2, [BlobMessage(chunk)], Some((2, 0)));
            var slot := Requested(hash, BlobId(blobHash, 2), Slot(None, None), first);
            && slot == Slot(Some([0, 0]), None)
            && RequestedAll(hash, BlobId(blobHash, 1), slot, later) == slot
  {
    var blob := BlobId(blobHash, 2);
    var chunk := BlobChunk(blobHash, 0, [0, 0], true);
    var first := Request(SPACE_MARGIN + 2, [BlobMessage(chunk)], Some((2, 0)));
    var open := BlobState(0, false, true);
    var created := Slot(Some([]), None);
    AfterOne(Slot(None, None), Create);
    assert BeginBlob(hash, blob, Slot(None, None), first.space) == BlobBegun([Create], Ok(open));
    var last := if hash([] + [0, 0]) == blobHash then Finalize else Remove;
    assert AcceptBlob(hash, blob, open, created, chunk).changes == [Extend([0, 0]), last];
    assert Consume(hash, blob, open, created, first.messages).changes == [Extend([0, 0]), last];
    var changes := Attempt(hash, blob, Slot(None, None), first.space, first.messages).changes;
    assert changes == [Create, Extend([0, 0]), last];
    assert CutChanges(changes, 2, 0) == [Create, Extend([0, 0])];
    AfterTwo(Slot(None, None), Create, Extend([0, 0]));
    assert [] + [0, 0] == [0, 0];
    TooLongForever(hash, BlobId(blobHash, 1), Slot(Some([0, 0]), None), later);
  }
}

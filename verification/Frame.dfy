/** Length-prefixed frames on a byte stream (crates/network/src/frame.rs:14-52, 71-87). */
module Frame {
  import opened Bytes

  const MAX_FRAME: nat := 512 * 1024
  const LENGTH_BYTES: nat := 4

  datatype FrameError = TooLarge | Truncated | TrailingData | CodecFailed | ReadFailed

  /** The message format (CBOR), which is not part of this model. */
  datatype Codec<!M> = Codec(encode: M -> Option<seq<byte>>, decode: seq<byte> -> Option<M>)

  ghost predicate RoundTrips<M(!new)>(codec: Codec<M>) {
    forall message: M :: codec.encode(message).Some? ==> codec.decode(codec.encode(message).value) == Some(message)
  }

  function EncodeFrame<M>(codec: Codec<M>, message: M): Result<seq<byte>, FrameError> {
    match codec.encode(message)
    case None => Err(CodecFailed)
    case Some(payload) =>
      if |payload| > MAX_FRAME then Err(TooLarge) else Ok(BigEndian(|payload|, LENGTH_BYTES) + payload)
  }

  /** Decode exactly one complete frame. */
  function DecodeFrame<M>(codec: Codec<M>, frame: seq<byte>): Result<M, FrameError> {
    if |frame| < LENGTH_BYTES then Err(Truncated)
    else
      var length := FromBigEndian(frame[..LENGTH_BYTES]);
      if length > MAX_FRAME then Err(TooLarge)
      else if |frame| != LENGTH_BYTES + length then
        Err(if |frame| < LENGTH_BYTES + length then Truncated else TrailingData)
      else
        match codec.decode(frame[LENGTH_BYTES..])
        case None => Err(CodecFailed)
        case Some(message) => Ok(message)
  }

  /** `frame` is a length prefix with exactly that much payload, and the payload is `message`. */
  ghost predicate Frames<M>(codec: Codec<M>, frame: seq<byte>, message: M) {
    exists payload ::
      && |payload| <= MAX_FRAME && codec.decode(payload) == Some(message)
      && frame == BigEndian(|payload|, LENGTH_BYTES) + payload
  }

  lemma PrefixReads(payload: seq<byte>, rest: seq<byte>)
    requires |payload| <= MAX_FRAME
    ensures FromBigEndian((BigEndian(|payload|, LENGTH_BYTES) + payload + rest)[..LENGTH_BYTES]) == |payload|
  {
    Widths();
    BigEndianRoundTrip(|payload|, LENGTH_BYTES);
    assert (BigEndian(|payload|, LENGTH_BYTES) + payload + rest)[..LENGTH_BYTES] == BigEndian(|payload|, LENGTH_BYTES);
  }

  lemma DecodedIsFrame<M>(codec: Codec<M>, frame: seq<byte>, message: M)
    requires DecodeFrame(codec, frame) == Ok(message)
    ensures Frames(codec, frame, message)
  {
    var payload := frame[LENGTH_BYTES..];
    FromBigEndianRoundTrip(frame[..LENGTH_BYTES]);
    assert frame == BigEndian(|payload|, LENGTH_BYTES) + payload;
  }

  lemma FrameIsDecoded<M>(codec: Codec<M>, frame: seq<byte>, message: M)
    requires Frames(codec, frame, message)
    ensures DecodeFrame(codec, frame) == Ok(message)
  {
    var payload :| |payload| <= MAX_FRAME && codec.decode(payload) == Some(message)
                   && frame == BigEndian(|payload|, LENGTH_BYTES) + payload;
    PrefixReads(payload, []);
    assert BigEndian(|payload|, LENGTH_BYTES) + payload + [] == frame;
    assert frame[LENGTH_BYTES..] == payload;
  }

  /** The accepted byte strings are exactly the frames of their messages. */
  lemma DecodesIff<M>(codec: Codec<M>, frame: seq<byte>, message: M)
    ensures DecodeFrame(codec, frame) == Ok(message) <==> Frames(codec, frame, message)
  {
    if DecodeFrame(codec, frame) == Ok(message) {
      DecodedIsFrame(codec, frame, message);
    }
    if Frames(codec, frame, message) {
      FrameIsDecoded(codec, frame, message);
    }
  }

  lemma EncodedFrames<M(!new)>(codec: Codec<M>, message: M)
    requires RoundTrips(codec) && EncodeFrame(codec, message).Ok?
    ensures Frames(codec, EncodeFrame(codec, message).value, message)
  {
    var payload := codec.encode(message).value;
    assert EncodeFrame(codec, message).value == BigEndian(|payload|, LENGTH_BYTES) + payload;
  }

  lemma FrameRoundTrip<M(!new)>(codec: Codec<M>, message: M)
    requires RoundTrips(codec) && EncodeFrame(codec, message).Ok?
    ensures DecodeFrame(codec, EncodeFrame(codec, message).value) == Ok(message)
  {
    EncodedFrames(codec, message);
    FrameIsDecoded(codec, EncodeFrame(codec, message).value, message);
  }

  // ---------- streams ----------

  datatype Read<M> = Read(result: Result<M, FrameError>, rest: seq<byte>)

  /** Read one frame from the front of a stream; a read that comes up short uses up what there is. */
  function ReadFrame<M>(codec: Codec<M>, stream: seq<byte>): (read: Read<M>)
    ensures read.result.Ok? ==> |read.rest| < |stream|
  {
    if |stream| < LENGTH_BYTES then Read(Err(ReadFailed), [])
    else
      var length := FromBigEndian(stream[..LENGTH_BYTES]);
      if length > MAX_FRAME then Read(Err(TooLarge), stream[LENGTH_BYTES..])
      else if |stream| < LENGTH_BYTES + length then Read(Err(ReadFailed), [])
      else
        var rest := stream[LENGTH_BYTES + length..];
        match codec.decode(stream[LENGTH_BYTES..LENGTH_BYTES + length])
        case None => Read(Err(CodecFailed), rest)
        case Some(message) => Read(Ok(message), rest)
  }

  /** Reading takes exactly one accepted frame off the stream, and nothing of what follows. */
  lemma ReadsOne<M>(codec: Codec<M>, frame: seq<byte>, message: M, rest: seq<byte>)
    requires Frames(codec, frame, message)
    ensures ReadFrame(codec, frame + rest) == Read(Ok(message), rest)
  {
    var payload :| |payload| <= MAX_FRAME && codec.decode(payload) == Some(message)
                   && frame == BigEndian(|payload|, LENGTH_BYTES) + payload;
    PrefixReads(payload, rest);
    var stream := frame + rest;
    assert stream[LENGTH_BYTES..LENGTH_BYTES + |payload|] == payload;
    assert stream[LENGTH_BYTES + |payload|..] == rest;
  }

  /** And only such frames are read. */
  lemma ReadsFrame<M>(codec: Codec<M>, stream: seq<byte>) returns (frame: seq<byte>)
    requires ReadFrame(codec, stream).result.Ok?
    ensures var read := ReadFrame(codec, stream);
            Frames(codec, frame, read.result.value) && stream == frame + read.rest
  {
    var length := FromBigEndian(stream[..LENGTH_BYTES]);
    var payload := stream[LENGTH_BYTES..LENGTH_BYTES + length];
    frame := stream[..LENGTH_BYTES + length];
    FromBigEndianRoundTrip(stream[..LENGTH_BYTES]);
    assert frame == BigEndian(|payload|, LENGTH_BYTES) + payload;
  }

  /** A frame that is cut short is never read as anything: only the end of the stream is reported. */
  lemma CutFrameFails<M>(codec: Codec<M>, frame: seq<byte>, message: M, cut: nat)
    requires Frames(codec, frame, message) && cut < |frame|
    ensures ReadFrame(codec, frame[..cut]) == Read(Err(ReadFailed), [])
  {
    var payload :| |payload| <= MAX_FRAME && codec.decode(payload) == Some(message)
                   && frame == BigEndian(|payload|, LENGTH_BYTES) + payload;
    if cut >= LENGTH_BYTES {
      PrefixReads(payload, []);
      assert BigEndian(|payload|, LENGTH_BYTES) + payload + [] == frame;
      assert frame[..cut][..LENGTH_BYTES] == frame[..LENGTH_BYTES];
    }
  }

  // ---------- repeated reads ----------

  datatype Reading<M> = Reading(messages: seq<M>, error: Option<FrameError>)

  /** Read frames until the stream ends or one fails. */
  function ReadAll<M>(codec: Codec<M>, stream: seq<byte>): Reading<M>
    decreases |stream|
  {
    if stream == [] then Reading([], None)
    else
      var read := ReadFrame(codec, stream);
      match read.result
      case Err(error) => Reading([], Some(error))
      case Ok(message) =>
        var later := ReadAll(codec, read.rest);
        Reading([message] + later.messages, later.error)
  }

  /** The frames of the messages, one after the other. */
  function EncodeAll<M>(codec: Codec<M>, messages: seq<M>): Result<seq<byte>, FrameError> {
    if messages == [] then Ok([])
    else
      match EncodeFrame(codec, messages[0])
      case Err(error) => Err(error)
      case Ok(frame) =>
        match EncodeAll(codec, messages[1..])
        case Err(error) => Err(error)
        case Ok(later) => Ok(frame + later)
  }

  /** One frame at the front is one message at the front. */
  lemma ReadAllOneMore<M>(codec: Codec<M>, frame: seq<byte>, message: M, rest: seq<byte>)
    requires Frames(codec, frame, message)
    ensures var later := ReadAll(codec, rest);
            ReadAll(codec, frame + rest) == Reading([message] + later.messages, later.error)
  {
    ReadsOne(codec, frame, message, rest);
    assert frame != [];
  }

  predicate PrefixOf<M(==)>(read: Reading<M>, messages: seq<M>, whole: bool) {
    && read.messages <= messages
    && read.error in {None, Some(ReadFailed)}
    && (whole ==> read == Reading(messages, None))
  }

  /** `stream` is one frame for each message. */
  ghost predicate FramedAs<M>(codec: Codec<M>, stream: seq<byte>, messages: seq<M>)
    decreases |messages|
  {
    if messages == [] then stream == []
    else
      exists frame, rest ::
        stream == frame + rest && Frames(codec, frame, messages[0]) && FramedAs(codec, rest, messages[1..])
  }

  lemma FramedOneMore<M>(codec: Codec<M>, frame: seq<byte>, message: M, rest: seq<byte>, messages: seq<M>)
    requires Frames(codec, frame, message) && FramedAs(codec, rest, messages)
    ensures FramedAs(codec, frame + rest, [message] + messages)
  {
    var all := [message] + messages;
    assert all[1..] == messages;
    assert frame + rest == frame + rest && Frames(codec, frame, all[0]) && FramedAs(codec, rest, all[1..]);
  }

  lemma {:induction false} EncodedIsFramed<M(!new)>(codec: Codec<M>, messages: seq<M>)
    requires RoundTrips(codec) && EncodeAll(codec, messages).Ok?
    ensures FramedAs(codec, EncodeAll(codec, messages).value, messages)
    decreases |messages|
  {
    if messages != [] {
      EncodedFrames(codec, messages[0]);
      EncodedIsFramed(codec, messages[1..]);
    }
  }

  lemma DeliversOneMore<M>(codec: Codec<M>, frame: seq<byte>, rest: seq<byte>, messages: seq<M>, whole: bool)
    requires messages != [] && Frames(codec, frame, messages[0])
    requires PrefixOf(ReadAll(codec, rest), messages[1..], whole)
    ensures PrefixOf(ReadAll(codec, frame + rest), messages, whole)
  {
    ReadAllOneMore(codec, frame, messages[0], rest);
    assert messages == [messages[0]] + messages[1..];
  }

  lemma CutStreamFails<M>(codec: Codec<M>, frame: seq<byte>, message: M, messages: seq<M>, cut: nat)
    requires Frames(codec, frame, message) && cut < |frame|
    ensures PrefixOf(ReadAll(codec, frame[..cut]), messages, false)
  {
    CutFrameFails(codec, frame, message, cut);
  }

  lemma FramedSplit<M>(codec: Codec<M>, stream: seq<byte>, messages: seq<M>) returns (frame: seq<byte>, rest: seq<byte>)
    requires FramedAs(codec, stream, messages) && messages != []
    ensures stream == frame + rest && Frames(codec, frame, messages[0]) && FramedAs(codec, rest, messages[1..])
  {
    frame, rest :| stream == frame + rest && Frames(codec, frame, messages[0]) && FramedAs(codec, rest, messages[1..]);
  }

  /** What arrives of a frame and what follows it: part of the frame, or the frame and part of the rest. */
  lemma DeliversCut<M>(codec: Codec<M>, frame: seq<byte>, rest: seq<byte>, messages: seq<M>, part: seq<byte>)
    requires messages != [] && Frames(codec, frame, messages[0]) && part <= frame + rest
    requires |part| >= |frame| ==> PrefixOf(ReadAll(codec, part[|frame|..]), messages[1..], part == frame + rest)
    ensures PrefixOf(ReadAll(codec, part), messages, part == frame + rest)
  {
    if |part| < |frame| {
      assert part == frame[..|part|];
      CutStreamFails(codec, frame, messages[0], messages, |part|);
    } else {
      assert part == frame + part[|frame|..];
      DeliversOneMore(codec, frame, part[|frame|..], messages, part == frame + rest);
    }
  }

  lemma RestOfPart(frame: seq<byte>, rest: seq<byte>, part: seq<byte>) returns (later: seq<byte>)
    requires part <= frame + rest && |part| >= |frame|
    ensures later == part[|frame|..] && later <= rest && (later == rest <==> part == frame + rest)
  {
    later := part[|frame|..];
    assert part == frame + later;
  }

  /** Whatever part of a stream of frames arrives, the reader gets the messages in order, none altered and
      none invented; the whole stream gives all of them. */
  lemma {:induction false} StreamDelivers<M>(codec: Codec<M>, stream: seq<byte>, messages: seq<M>, part: seq<byte>)
    requires FramedAs(codec, stream, messages) && part <= stream
    ensures PrefixOf(ReadAll(codec, part), messages, part == stream)
    decreases |messages|
  {
    if messages != [] {
      var frame, rest := FramedSplit(codec, stream, messages);
      if |part| >= |frame| {
        var later := RestOfPart(frame, rest, part);
        StreamDelivers(codec, rest, messages[1..], later);
      }
      DeliversCut(codec, frame, rest, messages, part);
    }
  }

  /** Any concatenation of encoded frames is read back as exactly the messages, however many there are. */
  lemma EncodedIsRead<M(!new)>(codec: Codec<M>, messages: seq<M>)
    requires RoundTrips(codec) && EncodeAll(codec, messages).Ok?
    ensures ReadAll(codec, EncodeAll(codec, messages).value) == Reading(messages, None)
  {
    var stream := EncodeAll(codec, messages).value;
    EncodedIsFramed(codec, messages);
    StreamDelivers(codec, stream, messages, stream);
  }

  /** The other way round: a stream read to its end without an error is the frames of what was read, and
      so it stands for one message sequence only. */
  lemma {:induction false} ReadIsFramed<M>(codec: Codec<M>, stream: seq<byte>)
    requires ReadAll(codec, stream).error.None?
    ensures FramedAs(codec, stream, ReadAll(codec, stream).messages)
    decreases |stream|
  {
    if stream != [] {
      var read := ReadFrame(codec, stream);
      var frame := ReadsFrame(codec, stream);
      ReadIsFramed(codec, read.rest);
      FramedOneMore(codec, frame, read.result.value, read.rest, ReadAll(codec, read.rest).messages);
    }
  }

  // ---------- the stream as it is used ----------

  class Stream {
    var pending: seq<byte>

    constructor ()
      ensures pending == []
    {
      pending := [];
    }

    /** Take exactly `count` bytes, or fail and use up what is there. */
    method ReadExact(count: nat) returns (bytes: Option<seq<byte>>)
      modifies this
      ensures if |old(pending)| < count then bytes == None && pending == []
              else bytes == Some(old(pending)[..count]) && pending == old(pending)[count..]
    {
      if |pending| < count {
        pending := [];
        return None;
      }
      bytes := Some(pending[..count]);
      pending := pending[count..];
    }

    method WriteFrame<M>(codec: Codec<M>, message: M) returns (result: Result<(), FrameError>)
      modifies this
      ensures match EncodeFrame(codec, message)
              case Err(error) => result == Err(error) && pending == old(pending)
              case Ok(frame) => result == Ok(()) && pending == old(pending) + frame
    {
      var encoded := codec.encode(message);
      if encoded.None? {
        return Err(CodecFailed);
      }
      var payload := encoded.value;
      if |payload| > MAX_FRAME {
        return Err(TooLarge);
      }
      pending := pending + (BigEndian(|payload|, LENGTH_BYTES) + payload);
      return Ok(());
    }

    method ReadFrameFrom<M>(codec: Codec<M>) returns (result: Result<M, FrameError>)
      modifies this
      ensures ReadFrame(codec, old(pending)) == Read(result, pending)
    {
      var prefix := ReadExact(LENGTH_BYTES);
      if prefix.None? {
        return Err(ReadFailed);
      }
      var length := FromBigEndian(prefix.value);
      if length > MAX_FRAME {
        return Err(TooLarge);
      }
      assert old(pending)[LENGTH_BYTES..][..] == old(pending)[LENGTH_BYTES..];
      var payload := ReadExact(length);
      if payload.None? {
        return Err(ReadFailed);
      }
      assert payload.value == old(pending)[LENGTH_BYTES..LENGTH_BYTES + length];
      assert pending == old(pending)[LENGTH_BYTES + length..];
      match codec.decode(payload.value) {
        case None => return Err(CodecFailed);
        case Some(message) => return Ok(message);
      }
    }
  }
}

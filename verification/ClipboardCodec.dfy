/** Encoding of clipboard values for the wire and for history (crates/sync/src/lib.rs). */
module ClipboardCodec {
  import opened Bytes
  import opened LossyText
  import opened ClipboardValue

  datatype Format = TextFormat | HtmlFormat | RtfFormat | PngFormat | FilesFormat

  datatype CodecError =
    | FilesRequireTransfer
    | UnexpectedContent
    | InvalidText
    | InvalidImage
    | ImageTooLarge
    | InvalidFiles
    | TextTooLarge
    | InvalidContent

  datatype Encoded = Encoded(format: Format, bytes: seq<byte>)

  datatype Pixels = Pixels(width: Usize, height: Usize, rgba: seq<byte>)

  /** The PNG library, as two functions. `decode` yields an RGBA8 image or nothing. */
  datatype PngCodec = PngCodec(encode: Pixels -> Option<seq<byte>>, decode: seq<byte> -> Option<Pixels>)

  /** What is taken from the library: an encoded image decodes to the same pixels. */
  ghost predicate Lossless(png: PngCodec) {
    forall pixels: Pixels, bytes: seq<byte> ::
      png.encode(pixels) == Some(bytes) ==> png.decode(bytes) == Some(pixels)
  }

  const MAX_DECODED_IMAGE_BYTES: nat := 128 * 1024 * 1024
  const MAX_U32: nat := 0xFFFF_FFFF

  // ---------- rich text ----------

  function EncodeRich(plain: Text, rich: Text): Result<seq<byte>, CodecError> {
    if plain == [] || rich == [] then Err(InvalidText)
    else if |plain| > MAX_U32 then Err(TextTooLarge)
    else Ok(LittleEndian(|plain|, 4) + plain + rich)
  }

  function DecodeRich(bytes: seq<byte>): Result<(Text, Text), CodecError> {
    if |bytes| < 4 then Err(InvalidText)
    else
      var boundary := 4 + FromLittleEndian(bytes[..4]);
      if boundary > |bytes| || !IsText(bytes[4..boundary]) || !IsText(bytes[boundary..]) then Err(InvalidText)
      else if bytes[4..boundary] == [] || bytes[boundary..] == [] then Err(InvalidText)
      else Ok((bytes[4..boundary], bytes[boundary..]))
  }

  /** Decoding inverts every successful encoding, and nothing else is accepted: an accepted byte
      string is the encoding of what it decodes to. */
  lemma RichRoundTrip(plain: Text, rich: Text, bytes: seq<byte>)
    ensures EncodeRich(plain, rich) == Ok(bytes) <==> DecodeRich(bytes) == Ok((plain, rich))
  {
    Widths();
    if EncodeRich(plain, rich) == Ok(bytes) {
      assert bytes[..4] == LittleEndian(|plain|, 4);
      LittleEndianRoundTrip(|plain|, 4);
      assert bytes[4..4 + |plain|] == plain;
      assert bytes[4 + |plain|..] == rich;
    }
    if DecodeRich(bytes) == Ok((plain, rich)) {
      FromLittleEndianRoundTrip(bytes[..4]);
      assert bytes == bytes[..4] + plain + rich;
    }
  }

  // ---------- file lists ----------

  function PathRecords(paths: seq<Path>): seq<byte> {
    Fields(TextsOf(paths))
  }

  /** The reader of a record list: `None` when a record is cut short, is not UTF-8 or is relative. */
  function ReadRecords(bytes: seq<byte>): Option<seq<Text>>
    decreases |bytes|
  {
    if bytes == [] then Some([])
    else if |bytes| < 8 then None
    else
      var end := 8 + FromLittleEndian(bytes[..8]);
      if end > |bytes| || !IsText(bytes[8..end]) || !Absolute(bytes[8..end]) then None
      else
        match ReadRecords(bytes[end..])
        case None => None
        case Some(rest) => Some([bytes[8..end]] + rest)
  }

  function Prepend(paths: seq<Text>, tail: Option<seq<Text>>): Option<seq<Text>> {
    match tail
    case None => None
    case Some(rest) => Some(paths + rest)
  }

  lemma PrependMore(paths: seq<Text>, next: Text, tail: Option<seq<Text>>)
    ensures Prepend(paths, Prepend([next], tail)) == Prepend(paths + [next], tail)
  {
    if tail.Some? {
      assert paths + ([next] + tail.value) == (paths + [next]) + tail.value;
    }
  }

  lemma FirstRecord(paths: seq<Path>)
    requires paths != []
    ensures PathRecords(paths) == LittleEndian(|TextOf(paths[0])|, 8) + TextOf(paths[0]) + PathRecords(paths[1..])
  {
    assert TextsOf(paths)[1..] == TextsOf(paths[1..]);
  }

  lemma NextRecord(bytes: seq<byte>, paths: seq<Path>, i: nat, text: Text)
    requires i < |paths| && text == TextOf(paths[i])
    requires bytes + PathRecords(paths[i..]) == PathRecords(paths)
    ensures bytes + LittleEndian(|text|, 8) + text + PathRecords(paths[i + 1..]) == PathRecords(paths)
  {
    assert paths[i..][1..] == paths[i + 1..];
    FirstRecord(paths[i..]);
    JoinFour(bytes, LittleEndian(|text|, 8), text, PathRecords(paths[i + 1..]));
  }

  lemma JoinFour(a: seq<byte>, b: seq<byte>, c: seq<byte>, d: seq<byte>)
    ensures a + (b + c + d) == a + b + c + d
  {
  }

  /** Build the record list of a file value; other values encode as nothing. */
  method EncodePaths(value: Value) returns (bytes: seq<byte>)
    ensures bytes == if value.Files? then PathRecords(value.paths) else []
  {
    bytes := [];
    if !value.Files? {
      return;
    }
    var paths, i := value.paths, 0;
    while i < |paths|
      invariant 0 <= i <= |paths|
      invariant bytes + PathRecords(paths[i..]) == PathRecords(paths)
    {
      var text := TextOf(paths[i]);
      NextRecord(bytes, paths, i, text);
      bytes := bytes + LittleEndian(|text|, 8);
      bytes := bytes + text;
      i := i + 1;
    }
    assert paths[i..] == [];
  }

  function DecodedPaths(bytes: seq<byte>): Result<Value, CodecError> {
    match ReadRecords(bytes)
    case None => Err(InvalidFiles)
    case Some(texts) => if Valid(Files(PathsOf(texts))) then Ok(Files(PathsOf(texts))) else Err(InvalidFiles)
  }

  /** The record at the front: the path and what follows it. */
  method DecodeRecord(bytes: seq<byte>, offset: nat) returns (record: Option<(Text, nat)>)
    requires offset < |bytes|
    ensures record.Some? ==> offset < record.value.1 <= |bytes|
    ensures ReadRecords(bytes[offset..])
         == if record.Some? then Prepend([record.value.0], ReadRecords(bytes[record.value.1..])) else None
  {
    ghost var here := bytes[offset..];
    if offset + 8 > |bytes| {
      return None;
    }
    assert here[..8] == bytes[offset..offset + 8];
    var length := FromLittleEndian(bytes[offset..offset + 8]);
    var end := offset + 8 + length;
    if end > |bytes| {
      return None;
    }
    assert here[8..8 + length] == bytes[offset + 8..end];
    assert here[8 + length..] == bytes[end..];
    if !IsText(bytes[offset + 8..end]) {
      return None;
    }
    var text: Text := bytes[offset + 8..end];
    return if Absolute(text) then Some((text, end)) else None;
  }

  method DecodePaths(bytes: seq<byte>) returns (result: Result<Value, CodecError>)
    ensures result == DecodedPaths(bytes)
  {
    var texts: seq<Text> := [];
    var offset := 0;
    assert bytes[0..] == bytes && forall tail: seq<Text> :: [] + tail == tail;
    while offset < |bytes|
      invariant 0 <= offset <= |bytes|
      invariant ReadRecords(bytes) == Prepend(texts, ReadRecords(bytes[offset..]))
      decreases |bytes| - offset
    {
      var record := DecodeRecord(bytes, offset);
      if record.None? {
        return Err(InvalidFiles);
      }
      PrependMore(texts, record.value.0, ReadRecords(bytes[record.value.1..]));
      texts := texts + [record.value.0];
      offset := record.value.1;
    }
    assert bytes[offset..] == [] && texts + [] == texts;
    var value := Files(PathsOf(texts));
    if !Valid(value) {
      return Err(InvalidFiles);
    }
    return Ok(value);
  }

  lemma {:induction false} RecordsAreRead(paths: seq<Text>)
    requires forall p :: p in paths ==> Absolute(p)
    ensures ReadRecords(Fields(paths)) == Some(paths)
    decreases |paths|
  {
    if paths != [] {
      var rest := Fields(paths[1..]);
      RecordsAreRead(paths[1..]);
      RecordIsRead(paths[0], rest);
      assert Fields(paths) == LittleEndian(|paths[0]|, 8) + paths[0] + rest;
      assert paths == [paths[0]] + paths[1..];
    }
  }

  lemma RecordIsRead(path: Text, rest: seq<byte>)
    requires Absolute(path)
    ensures ReadRecords(LittleEndian(|path|, 8) + path + rest) == Prepend([path], ReadRecords(rest))
  {
    Widths();
    var bytes := LittleEndian(|path|, 8) + path + rest;
    assert bytes[..8] == LittleEndian(|path|, 8);
    LittleEndianRoundTrip(|path|, 8);
    assert bytes[8..8 + |path|] == path;
    assert bytes[8 + |path|..] == rest;
  }

  /** What is read from the front is a record, and the rest is read after it. */
  lemma ReadIsRecord(bytes: seq<byte>) returns (path: Text, rest: seq<byte>)
    requires bytes != [] && ReadRecords(bytes).Some?
    ensures bytes == LittleEndian(|path|, 8) + path + rest && |rest| < |bytes|
    ensures ReadRecords(rest).Some? && ReadRecords(bytes).value == [path] + ReadRecords(rest).value
  {
    var end := 8 + FromLittleEndian(bytes[..8]);
    path, rest := bytes[8..end], bytes[end..];
    FromLittleEndianRoundTrip(bytes[..8]);
    assert bytes == bytes[..8] + bytes[8..end] + bytes[end..];
  }

  lemma {:induction false} ReadIsRecords(bytes: seq<byte>)
    requires ReadRecords(bytes).Some?
    ensures Fields(ReadRecords(bytes).value) == bytes
    decreases |bytes|
  {
    if bytes != [] {
      var path, rest := ReadIsRecord(bytes);
      ReadIsRecords(rest);
      RecordFirst(path, ReadRecords(rest).value);
    }
  }

  lemma RecordFirst(path: Text, paths: seq<Text>)
    ensures Fields([path] + paths) == LittleEndian(|path|, 8) + path + Fields(paths)
  {
    assert ([path] + paths)[1..] == paths;
  }

  lemma RecordsRoundTrip(paths: seq<Text>, bytes: seq<byte>)
    requires forall p :: p in paths ==> Absolute(p)
    ensures Fields(paths) == bytes <==> ReadRecords(bytes) == Some(paths)
  {
    RecordsAreRead(paths);
    if ReadRecords(bytes).Some? {
      ReadIsRecords(bytes);
    }
  }

  lemma ShownIsValid(value: Value)
    requires value.Files? && Valid(value)
    ensures Valid(Shown(value)) && forall t :: t in TextsOf(value.paths) ==> Absolute(t)
  {
    forall i | 0 <= i < |value.paths| ensures Absolute(TextsOf(value.paths)[i]) {
      assert value.paths[i] in value.paths;
      RootStays(value.paths[i]);
    }
    forall p | p in Shown(value).paths ensures Absolute(p) {
      var i :| 0 <= i < |value.paths| && Shown(value).paths[i] == p;
    }
  }

  /** A byte string is accepted as a file list exactly when it is the encoding of that list and every path
      in it is text. */
  lemma PathsRoundTrip(value: Value, bytes: seq<byte>)
    requires value.Files?
    ensures DecodedPaths(bytes) == Ok(value) <==>
            Valid(value) && AllText(value.paths) && PathRecords(value.paths) == bytes
  {
    var texts := TextsOf(value.paths);
    TextsArePathsIff(value.paths);
    if Valid(value) {
      ShownIsValid(value);
      RecordsRoundTrip(texts, bytes);
    }
    if DecodedPaths(bytes) == Ok(value) {
      ReadIsRecords(bytes);
      TextsOfPaths(ReadRecords(bytes).value);
    }
  }

  /** What an encoded file list decodes to: the same list exactly when every path is text, and otherwise
      the list of the texts that stand for the paths. */
  lemma PathsSurviveIff(value: Value)
    requires value.Files? && Valid(value)
    ensures DecodedPaths(PathRecords(value.paths)) == Ok(Shown(value))
    ensures DecodedPaths(PathRecords(value.paths)) == Ok(value) <==> AllText(value.paths)
  {
    ShownIsValid(value);
    TextsOfPaths(TextsOf(value.paths));
    PathsRoundTrip(Shown(value), PathRecords(value.paths));
    ShownIffText(value);
  }

  // ---------- all inline formats ----------

  function EncodeValue(png: PngCodec, value: Value): Result<Encoded, CodecError> {
    match value
    case Text(text) => Ok(Encoded(TextFormat, text))
    case Html(plain, html) =>
      (match EncodeRich(plain, html)
       case Ok(bytes) => Ok(Encoded(HtmlFormat, bytes))
       case Err(error) => Err(error))
    case Rtf(plain, rtf) =>
      (match EncodeRich(plain, rtf)
       case Ok(bytes) => Ok(Encoded(RtfFormat, bytes))
       case Err(error) => Err(error))
    case Image(width, height, rgba) =>
      if !Valid(value) then Err(InvalidContent)
      else if width > MAX_U32 || height > MAX_U32 then Err(ImageTooLarge)
      else
        (match png.encode(Pixels(width, height, rgba))
         case Some(bytes) => Ok(Encoded(PngFormat, bytes))
         case None => Err(InvalidImage))
    case Files(_) => Err(FilesRequireTransfer)
  }

  function DecodePng(png: PngCodec, bytes: seq<byte>): Result<Value, CodecError> {
    match png.decode(bytes)
    case None => Err(InvalidImage)
    case Some(pixels) =>
      if |pixels.rgba| > MAX_DECODED_IMAGE_BYTES then Err(ImageTooLarge)
      else
        var value := Image(pixels.width, pixels.height, pixels.rgba);
        if Valid(value) then Ok(value) else Err(InvalidContent)
  }

  function DecodeValue(png: PngCodec, format: Format, bytes: seq<byte>): Result<Value, CodecError> {
    match format
    case TextFormat =>
      if !IsText(bytes) || bytes == [] then Err(InvalidText) else Ok(Text(bytes))
    case HtmlFormat =>
      (match DecodeRich(bytes)
       case Ok(pair) => Ok(Html(pair.0, pair.1))
       case Err(error) => Err(error))
    case RtfFormat =>
      (match DecodeRich(bytes)
       case Ok(pair) => Ok(Rtf(pair.0, pair.1))
       case Err(error) => Err(error))
    case PngFormat => DecodePng(png, bytes)
    case FilesFormat => Err(UnexpectedContent)
  }

  /** Images this large can be sent but are refused by every receiver. */
  predicate Oversized(value: Value) {
    value.Image? && |value.rgba| > MAX_DECODED_IMAGE_BYTES
  }

  /** What one device encodes, another decodes to the same value, exactly unless it is an image
      over the receiver's decoding limit. */
  lemma DecodeInvertsEncode(png: PngCodec, value: Value, encoded: Encoded)
    requires Lossless(png)
    requires Valid(value) && EncodeValue(png, value) == Ok(encoded)
    ensures DecodeValue(png, encoded.format, encoded.bytes) == Ok(value) <==> !Oversized(value)
  {
    match value {
      case Text(_) =>
      case Html(plain, html) => RichRoundTrip(plain, html, encoded.bytes);
      case Rtf(plain, rtf) => RichRoundTrip(plain, rtf, encoded.bytes);
      case Image(width, height, rgba) =>
        var pixels := Pixels(width, height, rgba);
        assert png.encode(pixels) == Some(encoded.bytes);
        assert png.decode(encoded.bytes) == Some(pixels);
    }
  }

  /** Only values with a digest are ever decoded. */
  lemma DecodedIsValid(png: PngCodec, format: Format, bytes: seq<byte>)
    ensures DecodeValue(png, format, bytes).Ok? ==> Valid(DecodeValue(png, format, bytes).value)
    ensures DecodeValue(png, format, bytes).Ok? ==> !DecodeValue(png, format, bytes).value.Files?
  {
  }
}

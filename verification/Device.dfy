/** One device's clipboard coordinator as state transformers (crates/sync/src/lib.rs over
    crates/platform/src/clipboard.rs and crates/network/src/replication.rs). `Coordinator` carries
    them out in place. */
module Device {
  import opened Bytes
  import opened LossyText
  import opened Clock
  import opened ClipboardValue
  import opened ClipboardCodec
  import opened Events
  import opened HistoryStore
  import Ledger

  datatype SyncError =
    | ClipboardUnavailable
    | InvalidClipboard
    | StorageFailed
    | BlobFailed
    | ReplicationFailed
    | FilesNeedTransfer
    | UnexpectedEvent
    | ContentMismatch
    | Codec(error: CodecError)

  /** The privacy decision for one capture. */
  datatype Disposition = Exclude | Normal | Sensitive

  /** The environment's choices for one call: which of the fallible services fail. */
  datatype Faults = Faults(read: bool, write: bool, blob: bool, history: bool)

  /** Deployment constants: the PNG library, and whether `debug_assert_eq!` arguments are evaluated. */
  datatype Build = Build(png: PngCodec, debugAssertions: bool)

  datatype Device = Device(
    ledger: Ledger.State,
    clipboard: Option<Value>,
    lastDigest: Option<Digest>,
    history: Entries,
    blobs: set<ContentHash>)

  datatype Published = Published(id: TransferId, origin: DeviceId, destination: Path)

  datatype SyncOutcome =
    | Applied
    | Duplicate
    | Superseded
    | NeedsBlob(hash: ContentHash, size: nat)
    | NeedsTransfer(id: TransferId)

  /** The outcomes after which the event is not owed to this device any more. */
  predicate ShouldAcknowledge(outcome: SyncOutcome) {
    outcome.Applied? || outcome.Duplicate? || outcome.Superseded?
  }

  const MAX_INLINE: nat := 384 * 1024
  const MAX_CREATED: nat := 0x7FFF_FFFF_FFFF_FFFF

  function New(local: DeviceId, physical: Millis, capacity: nat, clipboard: Option<Value>): Device {
    Device(Ledger.NewState(local, physical, capacity), clipboard, None, map[], {})
  }

  // ---------- clipboard monitor ----------

  /** The digest remembered after a poll, and the value when it is a new edge. */
  function Observe(clipboard: Option<Value>, lastDigest: Option<Digest>, readFails: bool)
    : (Option<Digest>, Result<Option<Value>, SyncError>)
  {
    if readFails then (lastDigest, Err(ClipboardUnavailable))
    else if clipboard.None? then (lastDigest, Ok(None))
    else
      match DigestOf(clipboard.value)
      case None => (lastDigest, Err(InvalidClipboard))
      case Some(digest) =>
        if lastDigest == Some(digest) then (lastDigest, Ok(None))
        else (Some(digest), Ok(clipboard))
  }

  /** Writing a remote value also remembers its digest, so that it is not captured again. */
  function Overwrite(device: Device, value: Value, writeFails: bool): (Device, Result<(), SyncError>) {
    match DigestOf(value)
    case None => (device, Err(InvalidClipboard))
    case Some(digest) =>
      if writeFails then (device, Err(ClipboardUnavailable))
      else (device.(clipboard := Some(value), lastDigest := Some(digest)), Ok(()))
  }

  // ---------- history ----------

  datatype Row = Row(kind: Kind, text: Option<Text>, storesBlob: bool)

  function RowFor(png: PngCodec, format: Format, bytes: seq<byte>, decoded: Option<Value>): Result<Row, SyncError> {
    match format
    case TextFormat =>
      if decoded.Some? && decoded.value.Text? then Ok(Row(TextKind, Some(decoded.value.text), false))
      else if IsText(bytes) then Ok(Row(TextKind, Some(bytes), false))
      else Err(Codec(InvalidText))
    case HtmlFormat => RichRow(png, format, HtmlKind, bytes, decoded)
    case RtfFormat => RichRow(png, format, RtfKind, bytes, decoded)
    case PngFormat => Ok(Row(ImageKind, None, true))
    case FilesFormat => Ok(Row(FilesKind, None, true))
  }

  function RichRow(png: PngCodec, format: Format, kind: Kind, bytes: seq<byte>, decoded: Option<Value>)
    : Result<Row, SyncError>
  {
    var value: Result<Value, CodecError> :=
      if decoded.Some? then Ok(decoded.value) else DecodeValue(png, format, bytes);
    match value
    case Err(error) => Err(Codec(error))
    case Ok(Html(plain, _)) => Ok(Row(kind, Some(plain), true))
    case Ok(Rtf(plain, _)) => Ok(Row(kind, Some(plain), true))
    case Ok(_) => Err(UnexpectedEvent)
  }

  /** Store the content blob when the row needs one, then insert the row unless its id is present. */
  function Persist(build: Build, device: Device, event: ClipboardEvent, bytes: seq<byte>, decoded: Option<Value>,
                   application: Option<string>, sensitive: bool, faults: Faults)
    : (Device, Result<(), SyncError>)
  {
    match RowFor(build.png, event.format, bytes, decoded)
    case Err(error) => (device, Err(error))
    case Ok(row) =>
      if row.storesBlob && faults.blob then (device, Err(BlobFailed))
      else
        var stored := if row.storesBlob then device.(blobs := device.blobs + {bytes}) else device;
        var entry := EntryOf(device.ledger.local, event, row, bytes, application, sensitive);
        if faults.history || !Storable(entry) then (stored, Err(StorageFailed))
        else (stored.(history := Inserted(stored.history, event.id, entry)), Ok(()))
  }

  function EntryOf(local: DeviceId, event: ClipboardEvent, row: Row, bytes: seq<byte>, application: Option<string>,
                   sensitive: bool): Entry
  {
    var created := if event.timestamp.physical <= MAX_CREATED then event.timestamp.physical else MAX_CREATED;
    Entry(row.kind, row.text, if row.storesBlob then Some(bytes) else None, application,
          if event.origin != local then Some(event.origin) else None, created, None, sensitive)
  }

  // ---------- local capture ----------

  function ContentFor(bytes: seq<byte>): Content {
    if |bytes| <= MAX_INLINE then Inline(bytes) else Blob(bytes, |bytes|)
  }

  datatype Capture = Capture(
    now: Millis,
    peers: seq<DeviceId>,
    expiresAt: int,
    disposition: Disposition,
    application: Option<string>,
    id: Uuid,
    faults: Faults)

  /** Capture a physical local copy: persist it, and queue it for the peers unless it is sensitive. */
  function PollLocal(build: Build, device: Device, capture: Capture)
    : (Device, Result<Option<ClipboardEvent>, SyncError>)
  {
    var (digest, observed) := Observe(device.clipboard, device.lastDigest, capture.faults.read);
    var polled := device.(lastDigest := digest);
    match observed
    case Err(error) => (polled, Err(error))
    case Ok(None) => (polled, Ok(None))
    case Ok(Some(value)) =>
      if capture.disposition.Exclude? then (polled, Ok(None))
      else if value.Files? then (polled, Err(FilesNeedTransfer))
      else
        match EncodeValue(build.png, value)
        case Err(error) => (polled, Err(Codec(error)))
        case Ok(encoded) => CaptureEncoded(build, polled, capture, value, encoded)
  }

  function CaptureEncoded(build: Build, device: Device, capture: Capture, value: Value, encoded: Encoded)
    : (Device, Result<Option<ClipboardEvent>, SyncError>)
  {
    var ticked := device.(ledger := Ledger.NextTimestamp(device.ledger, capture.now));
    var event := ClipboardEvent(capture.id, device.ledger.local, ticked.ledger.clock, encoded.format,
                                ContentFor(encoded.bytes));
    var sensitive := capture.disposition.Sensitive?;
    var (persisted, result) :=
      Persist(build, ticked, event, encoded.bytes, Some(value), capture.application, sensitive, capture.faults);
    match result
    case Err(error) => (persisted, Err(error))
    case Ok(_) =>
      if sensitive then (persisted, Ok(None))
      else
        (persisted.(ledger := Ledger.RecordLocal(persisted.ledger, event, capture.peers, capture.expiresAt)),
         Ok(Some(event)))
  }

  /** Record copied files once the transfer service has made their manifest. */
  function RecordFiles(build: Build, device: Device, capture: Capture, paths: seq<Path>, transferId: TransferId)
    : (Device, Result<ClipboardEvent, SyncError>)
  {
    if !Valid(Files(paths)) then (device, Err(InvalidClipboard))
    else
      var ticked := device.(ledger := Ledger.NextTimestamp(device.ledger, capture.now));
      var event := ClipboardEvent(capture.id, device.ledger.local, ticked.ledger.clock, FilesFormat,
                                  Transfer(transferId));
      var (persisted, result) :=
        Persist(build, ticked, event, PathRecords(paths), None, None, false, capture.faults);
      match result
      case Err(error) => (persisted, Err(error))
      case Ok(_) =>
        (persisted.(ledger := Ledger.RecordLocal(persisted.ledger, event, capture.peers, capture.expiresAt)), Ok(event))
  }

  // ---------- remote events ----------

  /** Decide, apply, persist and commit one resolved event. The commit of an applied event is the
      argument of a debug assertion. */
  function ApplyReady(build: Build, device: Device, event: ClipboardEvent, value: Value, bytes: seq<byte>, now: Millis,
                      faults: Faults)
    : (Device, Result<SyncOutcome, SyncError>)
  {
    var committed := (d: Device) => d.(ledger := Ledger.Receive(d.ledger, event, now));
    match Ledger.Preview(device.ledger, event)
    case Duplicate => (committed(device), Ok(Duplicate))
    case Superseded =>
      var (persisted, result) := Persist(build, committed(device), event, bytes, Some(value), None, false, faults);
      (persisted, if result.Ok? then Ok(Superseded) else Err(result.error))
    case Apply =>
      var (written, writing) := Overwrite(device, value, faults.write);
      if writing.Err? then (written, Err(writing.error))
      else
        var (persisted, result) := Persist(build, written, event, bytes, Some(value), None, false, faults);
        if result.Err? then (persisted, Err(result.error))
        else (if build.debugAssertions then committed(persisted) else persisted, Ok(Applied))
  }

  function ApplyBytes(build: Build, device: Device, event: ClipboardEvent, bytes: seq<byte>, now: Millis,
                      faults: Faults)
    : (Device, Result<SyncOutcome, SyncError>)
  {
    match DecodeValue(build.png, event.format, bytes)
    case Err(error) => (device, Err(Codec(error)))
    case Ok(value) => ApplyReady(build, device, event, value, bytes, now, faults)
  }

  function Receive(build: Build, device: Device, event: ClipboardEvent, now: Millis, faults: Faults)
    : (Device, Result<SyncOutcome, SyncError>)
  {
    match event.content
    case Inline(bytes) => ApplyBytes(build, device, event, bytes, now, faults)
    case Blob(hash, size) => (device, Ok(NeedsBlob(hash, size)))
    case Transfer(id) => (device, Ok(NeedsTransfer(id)))
  }

  function ReceiveBlob(build: Build, device: Device, event: ClipboardEvent, bytes: seq<byte>, now: Millis,
                       faults: Faults)
    : (Device, Result<SyncOutcome, SyncError>)
  {
    match event.content
    case Blob(hash, size) =>
      if |bytes| != size || bytes != hash then (device, Err(ContentMismatch))
      else ApplyBytes(build, device, event, bytes, now, faults)
    case _ => (device, Err(UnexpectedEvent))
  }

  function ReceiveFiles(build: Build, device: Device, event: ClipboardEvent, transfer: Published, now: Millis,
                        faults: Faults)
    : (Device, Result<SyncOutcome, SyncError>)
  {
    if event.format != FilesFormat || event.origin != transfer.origin || event.content != Transfer(transfer.id) then
      (device, Err(UnexpectedEvent))
    else
      var value := Files([transfer.destination]);
      if !Valid(value) then (device, Err(InvalidClipboard))
      else ApplyReady(build, device, event, value, PathRecords(value.paths), now, faults)
  }
}

/** The clipboard coordinator and its monitor as mutable objects (crates/sync/src/lib.rs,
    crates/platform/src/clipboard.rs). Each method leaves the object where `Device` takes it. */
module Coordinator {
  import opened Bytes
  import opened LossyText
  import opened Clock
  import opened ClipboardValue
  import opened ClipboardCodec
  import opened Events
  import H = HistoryStore
  import Ledger
  import Replication
  import D = Device

  /** An OS clipboard: reading returns what was last written. */
  class Backend {
    var value: Option<Value>

    constructor (initial: Option<Value>)
      ensures value == initial
    {
      value := initial;
    }

    method Read(fails: bool) returns (result: Result<Option<Value>, D.SyncError>)
      ensures result == if fails then Err(D.ClipboardUnavailable) else Ok(value)
    {
      result := if fails then Err(D.ClipboardUnavailable) else Ok(value);
    }

    method Write(next: Value, fails: bool) returns (ok: bool)
      modifies this
      ensures ok == !fails
      ensures value == if fails then old(value) else Some(next)
    {
      if !fails {
        value := Some(next);
      }
      ok := !fails;
    }
  }

  /** Edge-triggered monitor with suppression of remotely applied values. */
  class ClipboardMonitor {
    const backend: Backend
    var lastDigest: Option<Digest>

    constructor (backend: Backend)
      ensures this.backend == backend && lastDigest == None
    {
      this.backend := backend;
      lastDigest := None;
    }

    method Poll(readFails: bool) returns (result: Result<Option<Value>, D.SyncError>)
      modifies this
      ensures (lastDigest, result) == D.Observe(backend.value, old(lastDigest), readFails)
    {
      var reading := backend.Read(readFails);
      if reading.Err? {
        return Err(reading.error);
      }
      if reading.value.None? {
        return Ok(None);
      }
      var digest := DigestOf(reading.value.value);
      if digest.None? {
        return Err(D.InvalidClipboard);
      }
      if lastDigest == digest {
        return Ok(None);
      }
      lastDigest := digest;
      return Ok(reading.value);
    }

    method ApplyRemote(value: Value, writeFails: bool) returns (result: Result<(), D.SyncError>)
      modifies this, backend
      ensures result.Ok? <==> Valid(value) && !writeFails
      ensures result.Err? ==> result.error == if Valid(value) then D.ClipboardUnavailable else D.InvalidClipboard
      ensures result.Err? ==> lastDigest == old(lastDigest) && backend.value == old(backend.value)
      ensures result.Ok? ==> lastDigest == DigestOf(value) && backend.value == Some(value)
    {
      var digest := DigestOf(value);
      if digest.None? {
        return Err(D.InvalidClipboard);
      }
      var written := backend.Write(value, writeFails);
      if !written {
        return Err(D.ClipboardUnavailable);
      }
      lastDigest := digest;
      return Ok(());
    }
  }

  class ClipboardSync {
    const build: D.Build
    const monitor: ClipboardMonitor
    const ledger: Replication.ReplicationLedger
    const history: H.ClipboardStore
    var blobs: set<ContentHash>

    ghost predicate Valid()
      reads this, ledger
    {
      ledger.Valid()
    }

    ghost function Abstract(): D.Device
      reads this, monitor, monitor.backend, ledger, history
    {
      D.Device(ledger.Abstract(), monitor.backend.value, monitor.lastDigest, history.entries, blobs)
    }

    /** A coordinator over a history and blobs that may already hold entries. */
    constructor (build: D.Build, local: DeviceId, physical: Millis, backend: Backend, history: H.ClipboardStore,
                 blobs: set<ContentHash>)
      ensures Valid() && fresh(monitor) && fresh(ledger) && monitor.backend == backend && this.history == history
      ensures Abstract() == D.New(local, physical, Ledger.SEEN_CAPACITY, backend.value)
                             .(history := history.entries, blobs := blobs)
    {
      this.build := build;
      monitor := new ClipboardMonitor(backend);
      ledger := new Replication.ReplicationLedger(local, physical);
      this.history := history;
      this.blobs := blobs;
    }

    method PollLocal(capture: D.Capture) returns (result: Result<Option<ClipboardEvent>, D.SyncError>)
      requires Valid()
      modifies this, monitor, ledger, history
      ensures Valid()
      ensures (Abstract(), result) == D.PollLocal(build, old(Abstract()), capture)
    {
      var observed := monitor.Poll(capture.faults.read);
      if observed.Err? {
        return Err(observed.error);
      }
      if observed.value.None? || capture.disposition.Exclude? {
        return Ok(None);
      }
      var value := observed.value.value;
      if value.Files? {
        return Err(D.FilesNeedTransfer);
      }
      var encoded := EncodeValue(build.png, value);
      if encoded.Err? {
        return Err(D.Codec(encoded.error));
      }
      var timestamp := ledger.NextTimestamp(capture.now);
      var event := ClipboardEvent(capture.id, ledger.localDevice, timestamp, encoded.value.format,
                                  D.ContentFor(encoded.value.bytes));
      var persisted := Persist(event, encoded.value.bytes, Some(value), capture.application,
                               capture.disposition.Sensitive?, capture.faults);
      if persisted.Err? {
        return Err(persisted.error);
      }
      if capture.disposition.Sensitive? {
        return Ok(None);
      }
      var recorded := ledger.RecordLocal(event, capture.peers, capture.expiresAt);
      return Ok(Some(event));
    }

    method RecordLocalFiles(capture: D.Capture, paths: seq<Path>, transferId: TransferId)
      returns (result: Result<ClipboardEvent, D.SyncError>)
      requires Valid()
      modifies this, ledger, history
      ensures Valid()
      ensures (Abstract(), result) == D.RecordFiles(build, old(Abstract()), capture, paths, transferId)
    {
      var value := Files(paths);
      if DigestOf(value).None? {
        return Err(D.InvalidClipboard);
      }
      var bytes := EncodePaths(value);
      var timestamp := ledger.NextTimestamp(capture.now);
      var event := ClipboardEvent(capture.id, ledger.localDevice, timestamp, FilesFormat, Transfer(transferId));
      var persisted := Persist(event, bytes, None, None, false, capture.faults);
      if persisted.Err? {
        return Err(persisted.error);
      }
      var recorded := ledger.RecordLocal(event, capture.peers, capture.expiresAt);
      return Ok(event);
    }

    method Receive(event: ClipboardEvent, now: Millis, faults: D.Faults)
      returns (result: Result<D.SyncOutcome, D.SyncError>)
      requires Valid()
      modifies this, monitor, monitor.backend, ledger, history
      ensures Valid()
      ensures (Abstract(), result) == D.Receive(build, old(Abstract()), event, now, faults)
    {
      match event.content {
        case Inline(bytes) => result := ApplyBytes(event, bytes, now, faults);
        case Blob(hash, size) => result := Ok(D.NeedsBlob(hash, size));
        case Transfer(id) => result := Ok(D.NeedsTransfer(id));
      }
    }

    method ReceiveBlob(event: ClipboardEvent, bytes: seq<byte>, now: Millis, faults: D.Faults)
      returns (result: Result<D.SyncOutcome, D.SyncError>)
      requires Valid()
      modifies this, monitor, monitor.backend, ledger, history
      ensures Valid()
      ensures (Abstract(), result) == D.ReceiveBlob(build, old(Abstract()), event, bytes, now, faults)
    {
      if !event.content.Blob? {
        return Err(D.UnexpectedEvent);
      }
      if |bytes| != event.content.size || bytes != event.content.hash {
        return Err(D.ContentMismatch);
      }
      result := ApplyBytes(event, bytes, now, faults);
    }

    method ReceiveFiles(event: ClipboardEvent, transfer: D.Published, now: Millis, faults: D.Faults)
      returns (result: Result<D.SyncOutcome, D.SyncError>)
      requires Valid()
      modifies this, monitor, monitor.backend, ledger, history
      ensures Valid()
      ensures (Abstract(), result) == D.ReceiveFiles(build, old(Abstract()), event, transfer, now, faults)
    {
      if event.format != FilesFormat || event.origin != transfer.origin || event.content != Transfer(transfer.id) {
        return Err(D.UnexpectedEvent);
      }
      var value := Files([transfer.destination]);
      if DigestOf(value).None? {
        return Err(D.InvalidClipboard);
      }
      var bytes := EncodePaths(value);
      result := ApplyReady(event, value, bytes, now, faults);
    }

    method PendingFor(peer: DeviceId, now: int) returns (events: seq<ClipboardEvent>)
      requires Valid()
      modifies ledger
      ensures Valid()
      ensures Abstract() == old(Abstract()).(ledger := Ledger.PendingFor(old(ledger.Abstract()), peer, now))
      ensures events == Ledger.EventsOf(Ledger.Unexpired(Ledger.Queue(old(ledger.pending), peer), now))
    {
      events := ledger.PendingFor(peer, now);
    }

    method Acknowledge(peer: DeviceId, id: Uuid) returns (removed: bool)
      requires Valid()
      modifies ledger
      ensures Valid()
      ensures Abstract() == old(Abstract()).(ledger := Ledger.Acknowledge(old(ledger.Abstract()), peer, id))
      ensures removed <==> exists i :: 0 <= i < |Ledger.Queue(old(ledger.pending), peer)|
                                       && Ledger.Queue(old(ledger.pending), peer)[i].event.id == id
    {
      removed := ledger.Acknowledge(peer, id);
    }

    method ApplyBytes(event: ClipboardEvent, bytes: seq<byte>, now: Millis, faults: D.Faults)
      returns (result: Result<D.SyncOutcome, D.SyncError>)
      requires Valid()
      modifies this, monitor, monitor.backend, ledger, history
      ensures Valid()
      ensures (Abstract(), result) == D.ApplyBytes(build, old(Abstract()), event, bytes, now, faults)
    {
      var decoded := DecodeValue(build.png, event.format, bytes);
      if decoded.Err? {
        return Err(D.Codec(decoded.error));
      }
      result := ApplyReady(event, decoded.value, bytes, now, faults);
    }

    method ApplyReady(event: ClipboardEvent, value: Value, bytes: seq<byte>, now: Millis, faults: D.Faults)
      returns (result: Result<D.SyncOutcome, D.SyncError>)
      requires Valid()
      modifies this, monitor, monitor.backend, ledger, history
      ensures Valid()
      ensures (Abstract(), result) == D.ApplyReady(build, old(Abstract()), event, value, bytes, now, faults)
    {
      var preview := ledger.Preview(event);
      match preview {
        case Duplicate =>
          var decision := ledger.Receive(event, now);
          result := Ok(D.Duplicate);
        case Superseded =>
          var decision := ledger.Receive(event, now);
          var persisted := Persist(event, bytes, Some(value), None, false, faults);
          result := if persisted.Ok? then Ok(D.Superseded) else Err(persisted.error);
        case Apply =>
          result := ApplyNewer(event, value, bytes, now, faults);
      }
    }

    /** Show the newer value, store it, and commit the receipt in a build with debug assertions. */
    method ApplyNewer(event: ClipboardEvent, value: Value, bytes: seq<byte>, now: Millis, faults: D.Faults)
      returns (result: Result<D.SyncOutcome, D.SyncError>)
      requires Valid() && Ledger.Preview(Abstract().ledger, event).Apply?
      modifies this, monitor, monitor.backend, ledger, history
      ensures Valid()
      ensures (Abstract(), result) == D.ApplyReady(build, old(Abstract()), event, value, bytes, now, faults)
    {
      var applied := monitor.ApplyRemote(value, faults.write);
      if applied.Err? {
        return Err(applied.error);
      }
      var persisted := Persist(event, bytes, Some(value), None, false, faults);
      if persisted.Err? {
        return Err(persisted.error);
      }
      if build.debugAssertions {
        var decision := ledger.Receive(event, now);
        assert decision == Ledger.Apply;
      }
      result := Ok(D.Applied);
    }

    method Persist(event: ClipboardEvent, bytes: seq<byte>, decoded: Option<Value>, application: Option<string>,
                   sensitive: bool, faults: D.Faults)
      returns (result: Result<(), D.SyncError>)
      modifies this, history
      ensures (Abstract(), result)
            == D.Persist(build, old(Abstract()), event, bytes, decoded, application, sensitive, faults)
    {
      var row := D.RowFor(build.png, event.format, bytes, decoded);
      if row.Err? {
        return Err(row.error);
      }
      if row.value.storesBlob {
        if faults.blob {
          return Err(D.BlobFailed);
        }
        blobs := blobs + {bytes};
      }
      var entry := D.EntryOf(ledger.localDevice, event, row.value, bytes, application, sensitive);
      var inserted := history.Insert(event.id, entry, faults.history);
      return if inserted.Ok? then Ok(()) else Err(D.StorageFailed);
    }
  }
}

/** Clipboard events and their deterministic total order (crates/protocol/src/message.rs,
    crates/network/src/replication.rs). */
module Events {
  import opened Bytes
  import opened Clock
  import opened ClipboardCodec

  const UUID_LIMIT: nat := 0x1_0000_0000_0000_0000_0000_0000_0000_0000

  type Uuid = n: nat | n < UUID_LIMIT
  type DeviceId = Uuid
  type TransferId = Uuid

  /** A content hash is represented by the hashed bytes: a hash without collisions. */
  type ContentHash = seq<byte>

  datatype Content =
    | Inline(bytes: seq<byte>)
    | Blob(hash: ContentHash, size: nat)
    | Transfer(transferId: TransferId)

  datatype ClipboardEvent = ClipboardEvent(
    id: Uuid,
    origin: DeviceId,
    timestamp: HybridTimestamp,
    format: Format,
    content: Content)

  /** What conflict resolution compares: timestamp, then origin, then event identity. */
  datatype Stamp = Stamp(timestamp: HybridTimestamp, origin: DeviceId, id: Uuid)

  function StampOf(event: ClipboardEvent): Stamp {
    Stamp(event.timestamp, event.origin, event.id)
  }

  predicate Before(a: Stamp, b: Stamp) {
    || Clock.Less(a.timestamp, b.timestamp)
    || (a.timestamp == b.timestamp && (a.origin < b.origin || (a.origin == b.origin && a.id < b.id)))
  }

  predicate NotAfter(a: Stamp, b: Stamp) {
    a == b || Before(a, b)
  }

  /** Conflict resolution is a strict total order, so every finite set of events has one winner. */
  lemma StampsTotallyOrdered(a: Stamp, b: Stamp, c: Stamp)
    ensures !Before(a, a)
    ensures a == b || Before(a, b) || Before(b, a)
    ensures !(Before(a, b) && Before(b, a))
    ensures Before(a, b) && Before(b, c) ==> Before(a, c)
  {
  }
}

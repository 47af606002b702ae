/** The durable clipboard history (crates/storage/src/clipboard.rs): one row for each event identity, kept
    until it is removed or pruned. */
module HistoryStore {
  import opened Bytes
  import opened Events

  datatype Kind = TextKind | HtmlKind | RtfKind | ImageKind | FilesKind

  datatype Entry = Entry(
    kind: Kind,
    text: Option<Text>,
    blob: Option<ContentHash>,
    application: Option<string>,
    device: Option<DeviceId>,
    createdAt: nat,
    pinnedAt: Option<int>,
    sensitive: bool)

  type Entries = map<Uuid, Entry>

  datatype Retention = Before(cutoff: int) | Forever

  datatype StorageError = DatabaseFailed | InvalidEntry

  /** A row needs text or a blob. */
  predicate Storable(entry: Entry) {
    (entry.text.Some? && entry.text.value != []) || entry.blob.Some?
  }

  /** An identity that is present keeps its row. */
  function Inserted(entries: Entries, id: Uuid, entry: Entry): Entries {
    if id in entries then entries else entries[id := entry]
  }

  function PinSet(entries: Entries, id: Uuid, pinnedAt: Option<int>): Entries {
    if id in entries then entries[id := entries[id].(pinnedAt := pinnedAt)] else entries
  }

  /** Unpinned rows from before the cutoff. */
  predicate Prunable(retention: Retention, entry: Entry) {
    retention.Before? && entry.pinnedAt.None? && entry.createdAt < retention.cutoff
  }

  function PrunedIds(entries: Entries, retention: Retention): set<Uuid> {
    set id | id in entries && Prunable(retention, entries[id])
  }

  class ClipboardStore {
    var entries: Entries

    constructor (entries: Entries)
      ensures this.entries == entries
    {
      this.entries := entries;
    }

    /** Insert a new event once; `fails` is a database failure. */
    method Insert(id: Uuid, entry: Entry, fails: bool) returns (result: Result<bool, StorageError>)
      modifies this
      ensures result == if !Storable(entry) then Err(InvalidEntry) else if fails then Err(DatabaseFailed)
                        else Ok(id !in old(entries))
      ensures entries == if result.Ok? then Inserted(old(entries), id, entry) else old(entries)
    {
      if !Storable(entry) {
        return Err(InvalidEntry);
      }
      if fails {
        return Err(DatabaseFailed);
      }
      var changed := id !in entries;
      if changed {
        entries := entries[id := entry];
      }
      return Ok(changed);
    }

    method SetPinned(id: Uuid, pinnedAt: Option<int>) returns (changed: bool)
      modifies this
      ensures entries == PinSet(old(entries), id, pinnedAt) && entries.Keys == old(entries).Keys
      ensures changed <==> id in old(entries)
    {
      changed := id in entries;
      if changed {
        entries := entries[id := entries[id].(pinnedAt := pinnedAt)];
      }
    }

    /** Remove one row and return its blob identity. */
    method Remove(id: Uuid) returns (blob: Option<ContentHash>)
      modifies this
      ensures entries == old(entries) - {id} && id !in entries
      ensures blob == if id in old(entries) then old(entries)[id].blob else None
    {
      blob := if id in entries then entries[id].blob else None;
      entries := entries - {id};
    }

    /** Delete the unpinned rows from before the cutoff: pinned and newer rows stay as they are. */
    method Prune(retention: Retention) returns (deleted: nat)
      modifies this
      ensures entries == old(entries) - PrunedIds(old(entries), retention)
      ensures deleted == |old(entries)| - |entries|
      ensures forall id :: id in old(entries) && !Prunable(retention, old(entries)[id]) ==>
                id in entries && entries[id] == old(entries)[id]
    {
      var stale := PrunedIds(entries, retention);
      assert (entries - stale).Keys == entries.Keys - stale;
      assert stale <= entries.Keys;
      deleted := |stale|;
      entries := entries - stale;
    }
  }
}

/** The mutable replication ledger (crates/network/src/replication.rs). */
module Replication {
  import opened Bytes
  import opened Clock
  import opened Events
  import opened Ledger

  /** The mutable ledger. Every method leaves `Abstract()` where the state transformer of the same
      operation takes it. */
  class ReplicationLedger {
    const localDevice: DeviceId
    const seenCapacity: nat
    var clock: HybridTimestamp
    var seen: set<Uuid>
    var seenOrder: seq<Uuid>
    var current: Option<Stamp>
    var pending: Queues

    ghost function Abstract(): State
      reads this
    {
      State(localDevice, clock, seen, seenOrder, current, pending, seenCapacity)
    }

    ghost predicate Valid()
      reads this
    {
      Windowed(Abstract())
    }

    constructor (local: DeviceId, physical: Millis)
      ensures Valid()
      ensures Abstract() == NewState(local, physical, SEEN_CAPACITY)
    {
      localDevice := local;
      seenCapacity := SEEN_CAPACITY;
      clock := Clock.New(physical);
      seen := {};
      seenOrder := [];
      current := None;
      pending := map[];
    }

    method RecordLocal(event: ClipboardEvent, peers: seq<DeviceId>, expiresAt: int)
      returns (result: Result<(), ReplicationError>)
      requires Valid()
      modifies this
      ensures Valid()
      ensures result == if event.origin == localDevice then Ok(()) else Err(ForeignLocalOrigin)
      ensures Abstract() == if event.origin == localDevice
                            then Ledger.RecordLocal(old(Abstract()), event, peers, expiresAt)
                            else old(Abstract())
    {
      if event.origin != localDevice {
        return Err(ForeignLocalOrigin);
      }
      ghost var before := Abstract();
      clock := Clock.Receive(clock, event.timestamp, event.timestamp.physical);
      MarkSeen(event.id);
      current := Some(StampOf(event));
      var item := PendingEvent(event, expiresAt);
      ghost var marked := Abstract();
      var i := 0;
      while i < |peers|
        invariant 0 <= i <= |peers|
        invariant Enqueue(pending, localDevice, peers[i..], item) == Enqueue(before.pending, localDevice, peers, item)
        invariant Abstract() == marked.(pending := pending)
      {
        assert peers[i..][1..] == peers[i + 1..];
        if peers[i] != localDevice {
          pending := pending[peers[i] := Queue(pending, peers[i]) + [item]];
        }
        i := i + 1;
      }
      assert peers[i..] == [];
      result := Ok(());
    }

    method Receive(event: ClipboardEvent, now: Millis) returns (decision: ApplyDecision)
      requires Valid()
      modifies this
      ensures Valid()
      ensures decision == Ledger.Preview(old(Abstract()), event)
      ensures Abstract() == Ledger.Receive(old(Abstract()), event, now)
    {
      clock := Clock.Receive(clock, event.timestamp, now);
      decision := Preview(event);
      if decision == Duplicate {
        return;
      }
      MarkSeen(event.id);
      if decision == Apply {
        current := Some(StampOf(event));
      }
    }

    /** Classify an inbound event without changing anything. */
    method Preview(event: ClipboardEvent) returns (decision: ApplyDecision)
      ensures decision == Ledger.Preview(Abstract(), event)
    {
      if event.id in seen {
        return Duplicate;
      }
      if current.Some? && NotAfter(StampOf(event), current.value) {
        return Superseded;
      }
      return Apply;
    }

    /** Drop expired entries and return what is still owed, oldest first. */
    method PendingFor(peer: DeviceId, now: int) returns (events: seq<ClipboardEvent>)
      requires Valid()
      modifies this`pending
      ensures Valid()
      ensures Abstract() == Ledger.PendingFor(old(Abstract()), peer, now)
      ensures events == EventsOf(Unexpired(Queue(old(pending), peer), now))
    {
      var queue := Unexpired(Queue(pending, peer), now);
      pending := pending[peer := queue];
      events := EventsOf(queue);
    }

    method Acknowledge(peer: DeviceId, id: Uuid) returns (removed: bool)
      requires Valid()
      modifies this`pending
      ensures Valid()
      ensures Abstract() == Ledger.Acknowledge(old(Abstract()), peer, id)
      ensures removed <==>
                exists i :: 0 <= i < |Queue(old(pending), peer)| && Queue(old(pending), peer)[i].event.id == id
    {
      if peer !in pending {
        return false;
      }
      var before := pending[peer];
      pending := pending[peer := Unacknowledged(before, id)];
      removed := |pending[peer]| != |before|;
      UnacknowledgedLength(before, id);
      assert before == Queue(old(pending), peer);
    }

    method NextTimestamp(now: Millis) returns (timestamp: HybridTimestamp)
      requires Valid()
      modifies this`clock
      ensures Valid()
      ensures Abstract() == Ledger.NextTimestamp(old(Abstract()), now) && timestamp == clock
    {
      clock := Clock.Tick(clock, now);
      timestamp := clock;
    }

    method MarkSeen(id: Uuid)
      requires Valid()
      modifies this`seen, this`seenOrder
      ensures Valid()
      ensures Abstract() == Ledger.MarkSeen(old(Abstract()), id)
    {
      if id in seen {
        return;
      }
      seen := seen + {id};
      seenOrder := seenOrder + [id];
      ghost var all := seenOrder;
      while |seenOrder| > seenCapacity
        invariant Newest(seenOrder, seenCapacity) == Newest(all, seenCapacity)
        invariant Distinct(seenOrder) && seen == Elements(seenOrder)
      {
        DropOldest(seenOrder, seenCapacity);
        var oldest := seenOrder[0];
        seenOrder := seenOrder[1..];
        seen := seen - {oldest};
      }
    }
  }

  /** Dropping the oldest identity of a window that is too long keeps its newest ones. */
  lemma DropOldest(order: seq<Uuid>, capacity: nat)
    requires Distinct(order) && |order| > capacity
    ensures Newest(order[1..], capacity) == Newest(order, capacity)
    ensures Distinct(order[1..]) && Elements(order[1..]) == Elements(order) - {order[0]}
  {
    forall id ensures id in Elements(order[1..]) <==> id in Elements(order) - {order[0]} {
      if id in Elements(order) - {order[0]} {
        var i :| 0 <= i < |order| && order[i] == id;
        assert order[1..][i - 1] == id;
      }
    }
  }
}

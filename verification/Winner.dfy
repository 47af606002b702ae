/** What one ledger knows about the events it handled: its `current` is their maximum, whatever the
    order, the duplicates and the evictions from the seen window were. */
module Winner {
  import opened Bytes
  import opened Clock
  import opened ClipboardCodec
  import opened Events
  import Ledger

  /** All events created so far, by identity. */
  type EventLog = map<Uuid, ClipboardEvent>

  ghost predicate Keyed(events: EventLog) {
    forall id :: id in events ==> events[id].id == id
  }

  ghost predicate Extends(events: EventLog, larger: EventLog) {
    forall id :: id in events ==> id in larger && larger[id] == events[id]
  }

  /** `winner` is the greatest stamp among `ids`. */
  ghost predicate IsMaximum(events: EventLog, ids: set<Uuid>, winner: Stamp)
    requires forall id :: id in ids ==> id in events
  {
    && winner.id in ids && StampOf(events[winner.id]) == winner
    && forall id :: id in ids ==> NotAfter(StampOf(events[id]), winner)
  }

  ghost predicate Tracks(events: EventLog, handled: set<Uuid>, ledger: Ledger.State) {
    && Keyed(events)
    && (forall id :: id in handled ==> id in events)
    && (ledger.current.None? <==> handled == {})
    && (ledger.current.Some? ==>
          && IsMaximum(events, handled, ledger.current.value)
          && AtMost(ledger.current.value.timestamp, ledger.clock))
    && (forall id :: id in ledger.seen ==>
          id in events && ledger.current.Some? && NotAfter(StampOf(events[id]), ledger.current.value))
  }

  lemma MaximumUnique(events: EventLog, ids: set<Uuid>, a: Stamp, b: Stamp)
    requires forall id :: id in ids ==> id in events
    requires IsMaximum(events, ids, a) && IsMaximum(events, ids, b)
    ensures a == b
  {
    assert NotAfter(StampOf(events[a.id]), b) && NotAfter(StampOf(events[b.id]), a);
  }

  lemma TracksExtends(events: EventLog, larger: EventLog, handled: set<Uuid>, ledger: Ledger.State)
    requires Tracks(events, handled, ledger) && Extends(events, larger) && Keyed(larger)
    ensures Tracks(larger, handled, ledger)
  {
  }

  /** A receipt keeps `current` at the maximum; only an event that was superseded or seen before may
      be left out of the handled set. */
  lemma ReceiveTracks(events: EventLog, handled: set<Uuid>, ledger: Ledger.State, event: ClipboardEvent, now: Millis)
    requires Tracks(events, handled, ledger) && Ledger.Windowed(ledger)
    requires event.id in events && events[event.id] == event
    ensures Tracks(events, handled + {event.id}, Ledger.Receive(ledger, event, now))
    ensures !Ledger.Preview(ledger, event).Apply? ==> Tracks(events, handled, Ledger.Receive(ledger, event, now))
  {
    var clocked := ledger.(clock := Clock.Receive(ledger.clock, event.timestamp, now));
    Ledger.MarkSeenKeepsWindow(clocked, event.id);
    ReceiveAdvances(ledger.clock, event.timestamp, now);
    if ledger.current.Some? {
      StampsTotallyOrdered(StampOf(event), ledger.current.value, StampOf(event));
    }
    if Ledger.Preview(ledger, event).Apply? {
      forall id | id in handled + {event.id} ensures NotAfter(StampOf(events[id]), StampOf(event)) {
        if id in handled {
          StampsTotallyOrdered(StampOf(events[id]), ledger.current.value, StampOf(event));
        }
      }
      forall id | id in ledger.seen ensures NotAfter(StampOf(events[id]), StampOf(event)) {
        StampsTotallyOrdered(StampOf(events[id]), ledger.current.value, StampOf(event));
      }
    }
  }

  lemma TickTracks(events: EventLog, handled: set<Uuid>, ledger: Ledger.State, now: Millis)
    requires Tracks(events, handled, ledger)
    ensures Tracks(events, handled, Ledger.NextTimestamp(ledger, now))
  {
    TickAdvances(ledger.clock, now);
  }

  /** A recorded local event overwrites `current` unconditionally; that is the maximum because its
      timestamp was drawn from the clock just before, while the counter is not used up. */
  lemma RecordTracks(events: EventLog, handled: set<Uuid>, ledger: Ledger.State, event: ClipboardEvent, now: Millis,
                     peers: seq<DeviceId>, expiresAt: int)
    requires Tracks(events, handled, ledger) && Ledger.Windowed(ledger)
    requires event.origin == ledger.local && event.timestamp == Tick(ledger.clock, now)
    requires ledger.clock.logical < MAX_LOGICAL
    ensures Tracks(events[event.id := event], handled + {event.id},
                   Ledger.RecordLocal(Ledger.NextTimestamp(ledger, now), event, peers, expiresAt))
    ensures forall id :: id in handled ==> Less(events[id].timestamp, event.timestamp)
  {
    var ticked := Ledger.NextTimestamp(ledger, now);
    var clocked := ticked.(clock := Clock.Receive(ticked.clock, event.timestamp, event.timestamp.physical));
    Ledger.MarkSeenKeepsWindow(clocked, event.id);
    TickAdvances(ledger.clock, now);
    ReceiveAdvances(ticked.clock, event.timestamp, event.timestamp.physical);
    if ledger.current.Some? {
      assert Less(ledger.current.value.timestamp, event.timestamp);
      assert Before(ledger.current.value, StampOf(event));
      forall id | id in handled + ledger.seen
        ensures Less(events[id].timestamp, event.timestamp)
      {
        assert NotAfter(StampOf(events[id]), ledger.current.value);
      }
    }
  }

  /** Recording moves `current` forward exactly when the tick does, or the clock is ahead of
      `current`, or the tie is broken by origin and identity: an exhausted counter can move it back. */
  lemma RecordAdvancesCurrent(ledger: Ledger.State, event: ClipboardEvent, now: Millis, peers: seq<DeviceId>,
                              expiresAt: int)
    requires ledger.current.Some? && AtMost(ledger.current.value.timestamp, ledger.clock)
    requires event.origin == ledger.local && event.timestamp == Tick(ledger.clock, now)
    ensures var current := ledger.current.value;
            Before(current,
                   Ledger.RecordLocal(Ledger.NextTimestamp(ledger, now), event, peers, expiresAt).current.value)
            <==> || ledger.clock.logical < MAX_LOGICAL
                 || now > ledger.clock.physical
                 || current.timestamp != ledger.clock
                 || current.origin < event.origin
                 || (current.origin == event.origin && current.id < event.id)
  {
    TickAdvances(ledger.clock, now);
  }

  /** For instance: a new ledger receives an event whose counter is used up, and then records a local one at
      the same physical time; the winner moves back to it. */
  lemma ExhaustedMovesBack(format: Format, content: Content)
    ensures var remote := ClipboardEvent(9, 2, HybridTimestamp(5, MAX_LOGICAL), format, content);
            var received := Ledger.Receive(Ledger.NewState(1, 5, 10), remote, 5);
            var ticked := Ledger.NextTimestamp(received, 5);
            var event := ClipboardEvent(1, 1, ticked.clock, format, content);
            var recorded := Ledger.RecordLocal(ticked, event, [2], 0);
            && received.current == Some(StampOf(remote)) && recorded.current == Some(StampOf(event))
            && Before(StampOf(event), StampOf(remote))
  {
  }
}

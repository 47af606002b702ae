/** The hybrid logical clock that orders clipboard events (crates/protocol/src/clock.rs). */
module Clock {

  const MAX_LOGICAL: nat := 0xFFFF_FFFF
  const MAX_PHYSICAL: nat := 0xFFFF_FFFF_FFFF_FFFF

  type Logical = n: nat | n <= MAX_LOGICAL
  type Millis = n: nat | n <= MAX_PHYSICAL

  datatype HybridTimestamp = HybridTimestamp(physical: Millis, logical: Logical)

  function New(physical: Millis): HybridTimestamp {
    HybridTimestamp(physical, 0)
  }

  /** `saturating_add(1)` on the 32-bit logical counter. */
  function Bump(logical: Logical): Logical {
    if logical == MAX_LOGICAL then logical else logical + 1
  }

  function Max(a: nat, b: nat): nat {
    if a < b then b else a
  }

  /** The derived lexicographic order. */
  predicate Less(a: HybridTimestamp, b: HybridTimestamp) {
    a.physical < b.physical || (a.physical == b.physical && a.logical < b.logical)
  }

  predicate AtMost(a: HybridTimestamp, b: HybridTimestamp) {
    a == b || Less(a, b)
  }

  /** Advance for a local event observed at `now`. */
  function Tick(clock: HybridTimestamp, now: Millis): HybridTimestamp {
    if now > clock.physical then New(now)
    else clock.(logical := Bump(clock.logical))
  }

  /** Merge a remote timestamp and advance for its receipt at `now`. */
  function Receive(clock: HybridTimestamp, remote: HybridTimestamp, now: Millis): HybridTimestamp {
    var physical: Millis := Max(Max(clock.physical, remote.physical), now);
    var logical: Logical :=
      if physical == clock.physical && physical == remote.physical then
        Bump(Max(clock.logical, remote.logical))
      else if physical == clock.physical then Bump(clock.logical)
      else if physical == remote.physical then Bump(remote.logical)
      else 0;
    HybridTimestamp(physical, logical)
  }

  /** The clock reading cannot move past an exhausted logical counter of `stamp`. */
  predicate Exhausted(stamp: HybridTimestamp, physical: Millis) {
    stamp.logical == MAX_LOGICAL && physical == stamp.physical
  }

  /** A tick moves strictly forward exactly unless the 32-bit counter is used up and the wall
      clock has not passed it; it never moves backwards. */
  lemma TickAdvances(clock: HybridTimestamp, now: Millis)
    ensures AtMost(clock, Tick(clock, now))
    ensures Less(clock, Tick(clock, now)) <==> !(clock.logical == MAX_LOGICAL && now <= clock.physical)
  {
  }

  /** A receipt moves strictly past both inputs exactly unless the counter of an input that holds
      the winning physical time is used up; it never moves behind either of them. */
  lemma ReceiveAdvances(clock: HybridTimestamp, remote: HybridTimestamp, now: Millis)
    ensures AtMost(clock, Receive(clock, remote, now))
    ensures AtMost(remote, Receive(clock, remote, now))
    ensures var physical := Max(Max(clock.physical, remote.physical), now);
            (Less(clock, Receive(clock, remote, now)) && Less(remote, Receive(clock, remote, now))
             <==> !Exhausted(clock, physical) && !Exhausted(remote, physical))
  {
  }

  /** One operation raises the largest logical counter among its inputs by at most one and never
      invents a physical time. */
  lemma OperationsStayBounded(clock: HybridTimestamp, remote: HybridTimestamp, now: Millis, bound: nat, latest: nat)
    requires clock.logical <= bound && remote.logical <= bound
    requires clock.physical <= latest && remote.physical <= latest && now <= latest
    ensures Tick(clock, now).logical <= bound + 1 && Receive(clock, remote, now).logical <= bound + 1
    ensures Tick(clock, now).physical <= latest && Receive(clock, remote, now).physical <= latest
  {
  }
}

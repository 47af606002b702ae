/** Workday arithmetic (crates/calculator/src/temporal.rs:273-285). A date is its number of days since
    Monday, 1 January of year 1. */
module Workdays {
  import opened Bytes

  type Date = int

  /** The dates the calendar can represent. */
  datatype Calendar = Calendar(first: Date, last: Date)

  predicate Holds(calendar: Calendar, date: Date) {
    calendar.first <= date <= calendar.last
  }

  datatype TemporalError = OutOfRange

  /** Monday is 0 and Sunday is 6. */
  function Weekday(date: Date): (day: nat)
    ensures day < 7
  {
    date % 7
  }

  predicate IsWorkday(date: Date) {
    Weekday(date) < 5
  }

  // ---------- counting workdays ----------

  /** Workdays after `start`, up to and including `end`. */
  function Between(start: Date, end: Date): (count: nat)
    requires start <= end
    decreases end - start
  {
    if start == end then 0 else Between(start, end - 1) + if IsWorkday(end) then 1 else 0
  }

  /** Workdays up to and including `date`, counted from the epoch. */
  function Index(date: Date): int {
    5 * (date / 7) + if Weekday(date) < 5 then Weekday(date) + 1 else 5
  }

  lemma IndexStep(date: Date)
    ensures Index(date) == Index(date - 1) + if IsWorkday(date) then 1 else 0
  {
  }

  lemma {:induction false} BetweenIsDifference(start: Date, end: Date)
    requires start <= end
    ensures Between(start, end) == Index(end) - Index(start)
    decreases end - start
  {
    if start < end {
      BetweenIsDifference(start, end - 1);
      IndexStep(end);
    }
  }

  // ---------- the closed form ----------

  /** The workday with a given index. */
  function WorkdayAt(index: int): Date {
    7 * ((index - 1) / 5) + (index - 1) % 5
  }

  lemma WorkdayAtIndex(index: int)
    ensures IsWorkday(WorkdayAt(index)) && Index(WorkdayAt(index)) == index
  {
    var q, r := (index - 1) / 5, (index - 1) % 5;
    assert (7 * q + r) / 7 == q && (7 * q + r) % 7 == r;
  }

  lemma WorkdayIsAtIndex(date: Date)
    requires IsWorkday(date)
    ensures WorkdayAt(Index(date)) == date
  {
    var q, r := date / 7, date % 7;
    assert (5 * q + r) / 5 == q && (5 * q + r) % 5 == r;
  }

  /** Where `days` workdays from `date` lead: forwards, the workday that many counts on; backwards, the one
      that many counts before the first workday not before `date`. */
  function Shifted(date: Date, days: int): Date {
    if days == 0 then date
    else if days > 0 then WorkdayAt(Index(date) + days)
    else WorkdayAt(Index(date - 1) + 1 + days)
  }

  /** From a workday it is whole weeks and the rest, whichever way it goes: with `w` the weekday,
      (w + days) div 5 weeks after Monday of that week, and (w + days) mod 5 days into it. */
  lemma ClosedForm(date: Date, days: int)
    requires IsWorkday(date)
    ensures Shifted(date, days) == date - Weekday(date) + 7 * ((Weekday(date) + days) / 5) + (Weekday(date) + days) % 5
  {
    var week, w := date / 7, Weekday(date);
    IndexStep(date);
    assert (5 * week + w + days) / 5 == week + (w + days) / 5 && (5 * week + w + days) % 5 == (w + days) % 5;
    assert (w + days == w) || Shifted(date, days) == WorkdayAt(5 * week + w + 1 + days);
  }

  /** Exactly |days| workdays are passed, the last of them the result, so no nearer date will do. */
  ghost predicate Nearest(date: Date, days: int, result: Date) {
    if days == 0 then result == date
    else if days > 0 then result > date && IsWorkday(result) && Between(date, result) == days
    else result < date && IsWorkday(result) && Between(result - 1, date - 1) == -days
  }

  lemma {:induction false} IndexMonotone(start: Date, end: Date)
    requires start <= end
    ensures Index(start) <= Index(end)
  {
    BetweenIsDifference(start, end);
  }

  lemma ShiftedIsNearest(date: Date, days: int)
    ensures Nearest(date, days, Shifted(date, days))
  {
    if days > 0 {
      ForwardIsNearest(date, days);
    } else if days < 0 {
      BackwardIsNearest(date, days);
    }
  }

  lemma ForwardIsNearest(date: Date, days: int)
    requires days > 0
    ensures Nearest(date, days, Shifted(date, days))
  {
    var result := Shifted(date, days);
    WorkdayAtIndex(Index(date) + days);
    if result <= date {
      IndexMonotone(result, date);
    }
    BetweenIsDifference(date, result);
  }

  lemma BackwardIsNearest(date: Date, days: int)
    requires days < 0
    ensures Nearest(date, days, Shifted(date, days))
  {
    var result := Shifted(date, days);
    WorkdayAtIndex(Index(date - 1) + 1 + days);
    IndexStep(result);
    if result >= date {
      IndexMonotone(date - 1, result - 1);
    }
    BetweenIsDifference(result - 1, date - 1);
  }

  /** There is only one such date. */
  lemma NearestUnique(date: Date, days: int, result: Date)
    requires Nearest(date, days, result)
    ensures result == Shifted(date, days)
  {
    if days > 0 {
      BetweenIsDifference(date, result);
      WorkdayIsAtIndex(result);
    } else if days < 0 {
      BetweenIsDifference(result - 1, date - 1);
      IndexStep(result);
      WorkdayIsAtIndex(result);
    }
  }

  lemma ReturnsForwards(date: Date, days: int)
    requires IsWorkday(date) && days > 0
    ensures Shifted(Shifted(date, days), -days) == date
  {
    WorkdayAtIndex(Index(date) + days);
    IndexStep(Shifted(date, days));
    WorkdayIsAtIndex(date);
  }

  lemma ReturnsBackwards(date: Date, days: int)
    requires IsWorkday(date) && days > 0
    ensures Shifted(Shifted(date, -days), days) == date
  {
    IndexStep(date);
    WorkdayAtIndex(Index(date) - days);
    WorkdayIsAtIndex(date);
  }

  /** There and back again: exactly when the start is a workday, or no step is taken. */
  lemma ReturnsIff(date: Date, days: int)
    ensures Shifted(Shifted(date, days), -days) == date <==> days == 0 || IsWorkday(date)
  {
    ShiftedIsNearest(Shifted(date, days), -days);
    if IsWorkday(date) && days > 0 {
      ReturnsForwards(date, days);
    } else if IsWorkday(date) && days < 0 {
      ReturnsBackwards(date, -days);
    }
  }

  /** Steps in the same direction add up, from any date. */
  lemma StepsAdd(date: Date, a: int, b: int)
    requires (a >= 0 && b >= 0) || (a <= 0 && b <= 0)
    ensures Shifted(Shifted(date, a), b) == Shifted(date, a + b)
  {
    if a > 0 {
      WorkdayAtIndex(Index(date) + a);
    } else if a < 0 {
      WorkdayAtIndex(Index(date - 1) + 1 + a);
      IndexStep(Shifted(date, a));
    }
  }

  // ---------- the loop ----------

  /** Weekend days that follow `date` at once in this direction. */
  function WeekendAhead(date: Date, direction: int): nat {
    if direction > 0 then
      if Weekday(date) == 4 then 2 else if Weekday(date) == 5 then 1 else 0
    else
      if Weekday(date) == 0 then 2 else if Weekday(date) == 6 then 1 else 0
  }

  /** On the way: `remaining` workdays are still to be counted, and the result is not behind. */
  ghost predicate Underway(start: Date, date: Date, days: int, remaining: nat) {
    && (days == 0 ==> date == start && remaining == 0)
    && (days > 0 ==> start <= date <= Shifted(start, days) && Index(date) + remaining == Index(start) + days)
    && (days < 0 ==> Shifted(start, days) <= date <= start && Index(date - 1) - remaining == Index(start - 1) + days)
    && (remaining == 0 && days != 0 ==> IsWorkday(date))
  }

  /** While workdays remain, the result is still ahead. */
  lemma NotThereYet(start: Date, date: Date, days: int, remaining: nat)
    requires remaining > 0 && Underway(start, date, days, remaining)
    ensures days != 0 && date != Shifted(start, days)
  {
    if days > 0 {
      WorkdayAtIndex(Index(start) + days);
    } else {
      WorkdayAtIndex(Index(start - 1) + 1 + days);
      IndexStep(Shifted(start, days));
    }
  }

  function Direction(days: int): int {
    if days > 0 then 1 else if days < 0 then -1 else 0
  }

  lemma WeekendShrinks(date: Date, direction: int)
    requires direction in {-1, 1} && !IsWorkday(date + direction)
    ensures WeekendAhead(date + direction, direction) < WeekendAhead(date, direction)
  {
  }

  lemma OneDay(start: Date, date: Date, days: int, remaining: nat)
    requires remaining > 0 && Underway(start, date, days, remaining)
    ensures var next := date + Direction(days);
            if IsWorkday(next) then Underway(start, next, days, remaining - 1)
            else Underway(start, next, days, remaining)
  {
    NotThereYet(start, date, days, remaining);
    if days > 0 {
      IndexStep(date + 1);
    } else {
      IndexStep(date - 1);
    }
  }

  /** One day on: a workday fewer to count, or a weekend day fewer ahead. */
  lemma OneDayOn(start: Date, date: Date, days: int, remaining: nat)
    requires remaining > 0 && Underway(start, date, days, remaining)
    ensures var next := date + Direction(days);
            if IsWorkday(next) then Underway(start, next, days, remaining - 1)
            else Underway(start, next, days, remaining)
                 && WeekendAhead(next, Direction(days)) < WeekendAhead(date, Direction(days))
  {
    OneDay(start, date, days, remaining);
    NotThereYet(start, date, days, remaining);
    if !IsWorkday(date + Direction(days)) {
      WeekendShrinks(date, Direction(days));
    }
  }

  lemma Outset(start: Date, days: int)
    ensures Underway(start, start, days, if days < 0 then -days else days)
  {
    ShiftedIsNearest(start, days);
  }

  /** When the next day is not representable, the result is not. */
  lemma Blocked(calendar: Calendar, start: Date, date: Date, days: int, remaining: nat)
    requires remaining > 0 && Underway(start, date, days, remaining)
    requires Holds(calendar, date) && !Holds(calendar, date + Direction(days))
    ensures !Holds(calendar, Shifted(start, days))
  {
    NotThereYet(start, date, days, remaining);
  }

  lemma Arrived(start: Date, date: Date, days: int)
    requires Underway(start, date, days, 0)
    ensures date == Shifted(start, days)
  {
    if days > 0 {
      WorkdayIsAtIndex(date);
    } else if days < 0 {
      IndexStep(date);
      WorkdayIsAtIndex(date);
    }
  }

  /** Walk one day at a time and count the workdays. It ends because each step takes a workday off the count
      or a weekend day off the weekend ahead, and it fails exactly when the result is not representable. */
  method AddWorkdays(calendar: Calendar, start: Date, days: int) returns (result: Result<Date, TemporalError>)
    requires Holds(calendar, start)
    ensures result == if Holds(calendar, Shifted(start, days)) then Ok(Shifted(start, days)) else Err(OutOfRange)
  {
    var direction := Direction(days);
    var remaining: nat := if days < 0 then -days else days;
    var date := start;
    Outset(start, days);
    while remaining > 0
      invariant Holds(calendar, date) && Underway(start, date, days, remaining)
      decreases remaining, WeekendAhead(date, direction)
    {
      if !Holds(calendar, date + direction) {
        Blocked(calendar, start, date, days, remaining);
        return Err(OutOfRange);
      }
      OneDayOn(start, date, days, remaining);
      date := date + direction;
      if IsWorkday(date) {
        remaining := remaining - 1;
      }
    }
    Arrived(start, date, days);
    return Ok(date);
  }
}

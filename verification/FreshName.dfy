/** The name a finished transfer is published under (crates/network/src/transfer.rs:553-575). */
module FreshName {
  import opened Bytes

  const MAX_SUFFIX: nat := 0xFFFF_FFFF

  // ---------- decimal printing ----------

  function Digit(d: nat): (c: char)
    requires d < 10
    ensures '0' <= c <= '9' && c as int - '0' as int == d
  {
    (d + '0' as int) as char
  }

  function Decimal(n: nat): (text: string)
    ensures text != [] && forall i :: 0 <= i < |text| ==> '0' <= text[i] <= '9'
  {
    if n < 10 then [Digit(n)] else Decimal(n / 10) + [Digit(n % 10)]
  }

  function DecimalValue(text: string): nat
    requires forall i :: 0 <= i < |text| ==> '0' <= text[i] <= '9'
  {
    if text == [] then 0
    else DecimalValue(text[..|text| - 1]) * 10 + (text[|text| - 1] as int - '0' as int)
  }

  lemma {:induction false} DecimalRoundTrip(n: nat)
    ensures DecimalValue(Decimal(n)) == n
  {
    var text := Decimal(n);
    if n >= 10 {
      assert text[..|text| - 1] == Decimal(n / 10);
      DecimalRoundTrip(n / 10);
    } else {
      assert text[..|text| - 1] == [];
    }
  }

  // ---------- candidates ----------

  /** Position of the last dot, or -1. */
  function LastDot(name: string): (at: int)
    ensures -1 <= at < |name|
    ensures at >= 0 ==> name[at] == '.'
    ensures forall i :: at < i < |name| ==> name[i] != '.'
  {
    if name == [] then -1
    else if name[|name| - 1] == '.' then |name| - 1
    else LastDot(name[..|name| - 1])
  }

  /** A leading dot does not start an extension. */
  function Stem(name: string): string {
    if LastDot(name) <= 0 then name else name[..LastDot(name)]
  }

  function Extension(name: string): Option<string> {
    if LastDot(name) <= 0 then None else Some(name[LastDot(name) + 1..])
  }

  function Tail(name: string): string {
    match Extension(name)
    case None => ""
    case Some(extension) => "." + extension
  }

  function Candidate(name: string, suffix: nat): string {
    Stem(name) + " " + Decimal(suffix) + Tail(name)
  }

  lemma StemAndTail(name: string)
    ensures Stem(name) + Tail(name) == name
  {
  }

  lemma CandidatesDistinct(name: string, i: nat, j: nat)
    requires Candidate(name, i) == Candidate(name, j)
    ensures i == j
  {
    var a, b := Candidate(name, i), Candidate(name, j);
    var start := |Stem(name)| + 1;
    assert |Decimal(i)| == |Decimal(j)|;
    assert a[start..start + |Decimal(i)|] == Decimal(i);
    assert b[start..start + |Decimal(j)|] == Decimal(j);
    DecimalRoundTrip(i);
    DecimalRoundTrip(j);
  }

  lemma CandidateIsNew(name: string, suffix: nat)
    ensures Candidate(name, suffix) != name
  {
    StemAndTail(name);
    assert |Candidate(name, suffix)| > |name|;
  }

  lemma {:induction false} LastDotIs(name: string, at: int)
    requires -1 <= at < |name| && (at >= 0 ==> name[at] == '.')
    requires forall i :: at < i < |name| ==> name[i] != '.'
    ensures LastDot(name) == at
  {
    var found := LastDot(name);
    assert found <= at;
  }

  predicate NoDot(text: string) {
    forall i :: 0 <= i < |text| ==> text[i] != '.'
  }

  lemma LastDotBefore(head: string, tail: string)
    requires NoDot(tail)
    ensures LastDot(head + tail) == LastDot(head)
  {
    LastDotIs(head + tail, LastDot(head));
  }

  lemma LastDotBetween(head: string, tail: string)
    requires NoDot(tail)
    ensures LastDot(head + "." + tail) == |head|
  {
    LastDotIs(head + "." + tail, |head|);
  }

  lemma {:induction false} SuffixedKeepsExtension(name: string, suffix: nat)
    requires LastDot(name) > 0
    ensures Extension(Candidate(name, suffix)) == Extension(name)
  {
    var head, tail := Stem(name) + " " + Decimal(suffix), name[LastDot(name) + 1..];
    assert Candidate(name, suffix) == head + "." + tail;
    LastDotBetween(head, tail);
    assert (head + "." + tail)[|head| + 1..] == tail;
  }

  lemma {:induction false} PlainKeepsExtension(name: string, suffix: nat)
    requires LastDot(name) <= 0
    ensures Extension(Candidate(name, suffix)) == Extension(name)
  {
    var tail := " " + Decimal(suffix);
    assert NoDot(tail);
    assert Candidate(name, suffix) == name + tail;
    LastDotBefore(name, tail);
  }

  /** A published copy keeps the file extension. */
  lemma CandidateKeepsExtension(name: string, suffix: nat)
    ensures Extension(Candidate(name, suffix)) == Extension(name)
  {
    if LastDot(name) > 0 {
      SuffixedKeepsExtension(name, suffix);
    } else {
      PlainKeepsExtension(name, suffix);
    }
  }

  // ---------- the search ends ----------

  /** The suffixes below `end`, all taken. */
  ghost predicate TakenBelow(existing: set<string>, name: string, end: nat) {
    name in existing && forall suffix :: 2 <= suffix < end ==> Candidate(name, suffix) in existing
  }

  ghost function Taken(name: string, end: nat): (names: set<string>)
    requires end >= 2
    ensures forall taken :: taken in names <==>
              taken == name || exists suffix :: 2 <= suffix < end && taken == Candidate(name, suffix)
  {
    if end == 2 then {name} else Taken(name, end - 1) + {Candidate(name, end - 1)}
  }

  lemma {:induction false} TakenCount(name: string, end: nat)
    requires end >= 2
    ensures |Taken(name, end)| == end - 1
  {
    if end > 2 {
      TakenCount(name, end - 1);
      var last := Candidate(name, end - 1);
      CandidateIsNew(name, end - 1);
      if last in Taken(name, end - 1) {
        var suffix :| 2 <= suffix < end - 1 && last == Candidate(name, suffix);
        CandidatesDistinct(name, suffix, end - 1);
      }
    }
  }

  lemma SubsetSize<T>(a: set<T>, b: set<T>)
    requires a <= b
    ensures |a| <= |b|
  {
    assert b == a + (b - a);
  }

  /** Pigeonhole: the taken candidates and the name itself are distinct existing names. */
  lemma TakenBound(existing: set<string>, name: string, end: nat)
    requires end >= 2 && TakenBelow(existing, name, end)
    ensures end - 1 <= |existing|
  {
    TakenCount(name, end);
    SubsetSize(Taken(name, end), existing);
  }

  /** `chosen` is the requested name if it is free, and otherwise the candidate with the least free suffix. */
  ghost predicate FirstFree(existing: set<string>, name: string, chosen: string) {
    if name !in existing then chosen == name
    else
      exists suffix: nat ::
        && 2 <= suffix <= |existing| + 1
        && chosen == Candidate(name, suffix) && chosen !in existing
        && TakenBelow(existing, name, suffix)
  }

  /** The suffix search always finds a free name, after at most as many candidates as there are existing
      names, unless it runs out of 32-bit suffixes. */
  method AvailableDestination(existing: set<string>, name: string) returns (chosen: Option<string>)
    ensures chosen.Some? ==> chosen.value !in existing && FirstFree(existing, name, chosen.value)
    ensures chosen.Some? ==> Extension(chosen.value) == Extension(name)
    ensures chosen.None? ==> |existing| >= MAX_SUFFIX
  {
    if name !in existing {
      return Some(name);
    }
    var suffix := 2;
    while suffix <= MAX_SUFFIX
      invariant 2 <= suffix <= MAX_SUFFIX + 1
      invariant TakenBelow(existing, name, suffix)
    {
      var candidate := Candidate(name, suffix);
      if candidate !in existing {
        TakenBound(existing, name, suffix);
        CandidateKeepsExtension(name, suffix);
        return Some(candidate);
      }
      suffix := suffix + 1;
    }
    TakenBound(existing, name, suffix);
    return None;
  }

  /** The name is determined by what exists: two searches never disagree. */
  lemma FirstFreeUnique(existing: set<string>, name: string, a: string, b: string)
    requires FirstFree(existing, name, a) && FirstFree(existing, name, b)
    ensures a == b && a !in existing
  {
    if name in existing {
      var i: nat :| 2 <= i <= |existing| + 1 && a == Candidate(name, i) && a !in existing
                    && TakenBelow(existing, name, i);
      var j: nat :| 2 <= j <= |existing| + 1 && b == Candidate(name, j) && b !in existing
                    && TakenBelow(existing, name, j);
      assert i == j;
    }
  }
}

/** Ranking of launcher candidates (crates/core/src/search.rs:28-53). The library's stable sort is modelled
    by insertion; `StableSortUnique` shows that every stable sort gives the same list. */
module Ranking {
  import opened Bytes
  import opened Search

  datatype Match = Match(candidate: Candidate, score: int)

  // ---------- the order ----------

  /** Texts in code-point order, which is the byte order of their UTF-8. */
  predicate TextLeq(a: string, b: string) {
    if a == "" then true
    else if b == "" then false
    else if a[0] != b[0] then a[0] < b[0]
    else TextLeq(a[1..], b[1..])
  }

  lemma {:induction false} TextTotal(a: string, b: string)
    ensures TextLeq(a, b) || TextLeq(b, a)
  {
    if a != "" && b != "" && a[0] == b[0] {
      TextTotal(a[1..], b[1..]);
    }
  }

  lemma {:induction false} TextTransitive(a: string, b: string, c: string)
    requires TextLeq(a, b) && TextLeq(b, c)
    ensures TextLeq(a, c)
  {
    if a != "" && b != "" && c != "" && a[0] == b[0] == c[0] {
      TextTransitive(a[1..], b[1..], c[1..]);
    }
  }

  /** Higher scores first, and equal scores by title. */
  predicate Leq(lower: Lowering, a: Match, b: Match) {
    a.score > b.score || (a.score == b.score && TextLeq(lower(a.candidate.title), lower(b.candidate.title)))
  }

  predicate SameRank(lower: Lowering, a: Match, b: Match) {
    Leq(lower, a, b) && Leq(lower, b, a)
  }

  lemma LeqTotal(lower: Lowering, a: Match, b: Match)
    ensures Leq(lower, a, b) || Leq(lower, b, a)
  {
    TextTotal(lower(a.candidate.title), lower(b.candidate.title));
  }

  lemma LeqTransitive(lower: Lowering, a: Match, b: Match, c: Match)
    requires Leq(lower, a, b) && Leq(lower, b, c)
    ensures Leq(lower, a, c)
  {
    if a.score == b.score == c.score {
      TextTransitive(lower(a.candidate.title), lower(b.candidate.title), lower(c.candidate.title));
    }
  }

  ghost predicate Sorted(lower: Lowering, matches: seq<Match>) {
    forall i, j :: 0 <= i < j < |matches| ==> Leq(lower, matches[i], matches[j])
  }

  /** The matches that rank as `key` does, in their order. */
  function SameAs(lower: Lowering, matches: seq<Match>, key: Match): seq<Match> {
    if matches == [] then []
    else (if SameRank(lower, matches[0], key) then [matches[0]] else []) + SameAs(lower, matches[1..], key)
  }

  /** `sorted` is `matches` in order, with the matches that rank the same in the order they came. */
  ghost predicate StableSortOf(lower: Lowering, matches: seq<Match>, sorted: seq<Match>) {
    Sorted(lower, sorted) && forall key :: SameAs(lower, sorted, key) == SameAs(lower, matches, key)
  }

  // ---------- sorting ----------

  function Insert(lower: Lowering, m: Match, sorted: seq<Match>): seq<Match> {
    if sorted == [] || Leq(lower, m, sorted[0]) then [m] + sorted
    else [sorted[0]] + Insert(lower, m, sorted[1..])
  }

  function Sort(lower: Lowering, matches: seq<Match>): seq<Match> {
    if matches == [] then [] else Insert(lower, matches[0], Sort(lower, matches[1..]))
  }

  lemma {:induction false} InsertContents(lower: Lowering, m: Match, sorted: seq<Match>)
    ensures multiset(Insert(lower, m, sorted)) == multiset{m} + multiset(sorted)
  {
    if sorted != [] && !Leq(lower, m, sorted[0]) {
      InsertContents(lower, m, sorted[1..]);
      assert sorted == [sorted[0]] + sorted[1..];
    }
  }

  lemma SortedCons(lower: Lowering, m: Match, sorted: seq<Match>)
    requires Sorted(lower, sorted) && (forall other :: other in sorted ==> Leq(lower, m, other))
    ensures Sorted(lower, [m] + sorted)
  {
    var all := [m] + sorted;
    forall i, j | 0 <= i < j < |all| ensures Leq(lower, all[i], all[j]) {
      if i == 0 {
        assert all[j] in sorted;
      }
    }
  }

  lemma {:induction false} InsertSorted(lower: Lowering, m: Match, sorted: seq<Match>)
    requires Sorted(lower, sorted)
    ensures Sorted(lower, Insert(lower, m, sorted))
  {
    if sorted == [] || Leq(lower, m, sorted[0]) {
      forall other | other in sorted ensures Leq(lower, m, other) {
        if other != sorted[0] {
          LeqTransitive(lower, m, sorted[0], other);
        }
      }
      SortedCons(lower, m, sorted);
    } else {
      var rest := sorted[1..];
      InsertSorted(lower, m, rest);
      InsertContents(lower, m, rest);
      LeqTotal(lower, m, sorted[0]);
      forall other | other in Insert(lower, m, rest) ensures Leq(lower, sorted[0], other) {
        assert other in multiset(Insert(lower, m, rest));
      }
      SortedCons(lower, sorted[0], Insert(lower, m, rest));
    }
  }

  lemma {:induction false} InsertStable(lower: Lowering, m: Match, sorted: seq<Match>, key: Match)
    ensures SameAs(lower, Insert(lower, m, sorted), key) ==
            (if SameRank(lower, m, key) then [m] else []) + SameAs(lower, sorted, key)
  {
    if sorted == [] || Leq(lower, m, sorted[0]) {
      assert ([m] + sorted)[1..] == sorted;
    } else {
      InsertStable(lower, m, sorted[1..], key);
      assert Insert(lower, m, sorted)[1..] == Insert(lower, m, sorted[1..]);
      if SameRank(lower, m, key) && SameRank(lower, sorted[0], key) {
        LeqTransitive(lower, m, key, sorted[0]);
      }
    }
  }

  lemma {:induction false} SortIsStable(lower: Lowering, matches: seq<Match>)
    ensures StableSortOf(lower, matches, Sort(lower, matches))
    ensures multiset(Sort(lower, matches)) == multiset(matches)
  {
    if matches != [] {
      var rest := Sort(lower, matches[1..]);
      SortIsStable(lower, matches[1..]);
      InsertSorted(lower, matches[0], rest);
      InsertContents(lower, matches[0], rest);
      assert matches == [matches[0]] + matches[1..];
      forall key ensures SameAs(lower, Sort(lower, matches), key) == SameAs(lower, matches, key) {
        InsertStable(lower, matches[0], rest, key);
      }
    }
  }

  lemma {:induction false} SameAsSound(lower: Lowering, matches: seq<Match>, key: Match)
    ensures forall m :: m in SameAs(lower, matches, key) ==> m in matches && SameRank(lower, m, key)
    ensures key in matches ==> SameAs(lower, matches, key) != []
  {
    if matches != [] {
      SameAsSound(lower, matches[1..], key);
      if key == matches[0] {
        LeqTotal(lower, key, key);
      }
    }
  }

  lemma HeadsAgree(lower: Lowering, a: seq<Match>, b: seq<Match>)
    requires a != [] && Sorted(lower, a) && Sorted(lower, b)
    requires forall key :: SameAs(lower, a, key) == SameAs(lower, b, key)
    ensures b != [] && a[0] == b[0]
  {
    SameAsSound(lower, a, a[0]);
    SameAsSound(lower, b, a[0]);
    var m := SameAs(lower, b, a[0])[0];
    assert m in b && SameRank(lower, m, a[0]);
    SameAsSound(lower, b, b[0]);
    SameAsSound(lower, a, b[0]);
    var n := SameAs(lower, a, b[0])[0];
    assert n in a && SameRank(lower, n, b[0]);
    HeadIsLeast(lower, b, m);
    HeadIsLeast(lower, a, n);
    LeqTransitive(lower, b[0], m, a[0]);
    LeqTransitive(lower, a[0], n, b[0]);
    LeqTotal(lower, a[0], a[0]);
    assert SameAs(lower, a, a[0])[0] == a[0] && SameAs(lower, b, a[0])[0] == b[0];
  }

  lemma HeadIsLeast(lower: Lowering, matches: seq<Match>, m: Match)
    requires Sorted(lower, matches) && m in matches
    ensures Leq(lower, matches[0], m)
  {
    LeqTotal(lower, m, m);
  }

  /** A stable sort is determined by what it sorts. */
  lemma {:induction false} StableSortUnique(lower: Lowering, a: seq<Match>, b: seq<Match>)
    requires Sorted(lower, a) && Sorted(lower, b)
    requires forall key :: SameAs(lower, a, key) == SameAs(lower, b, key)
    ensures a == b
  {
    if a != [] {
      HeadsAgree(lower, a, b);
      forall key ensures SameAs(lower, a[1..], key) == SameAs(lower, b[1..], key) {
        TailsAgree(lower, a, b, key);
      }
      StableSortUnique(lower, a[1..], b[1..]);
      assert a == [a[0]] + a[1..] && b == [b[0]] + b[1..];
    } else if b != [] {
      HeadsAgree(lower, b, a);
    }
  }

  lemma TailsAgree(lower: Lowering, a: seq<Match>, b: seq<Match>, key: Match)
    requires a != [] && b != [] && a[0] == b[0] && SameAs(lower, a, key) == SameAs(lower, b, key)
    ensures SameAs(lower, a[1..], key) == SameAs(lower, b[1..], key)
  {
    if SameRank(lower, a[0], key) {
      assert SameAs(lower, a, key)[1..] == SameAs(lower, a[1..], key);
      assert SameAs(lower, b, key)[1..] == SameAs(lower, b[1..], key);
    } else {
      assert SameAs(lower, a, key) == SameAs(lower, a[1..], key);
      assert SameAs(lower, b, key) == SameAs(lower, b[1..], key);
    }
  }

  // ---------- ranking ----------

  function Bonus(candidate: Candidate): int {
    (if candidate.frequency < 10_000 then candidate.frequency else 10_000) + if candidate.favorite then 20_000 else 0
  }

  function ScoredOne(lower: Lowering, query: string, candidate: Candidate): seq<Match> {
    match CandidateScore(lower, query, candidate.title, candidate.keywords)
    case None => []
    case Some(score) => [Match(candidate, score + Bonus(candidate))]
  }

  predicate StrictlyBefore(lower: Lowering, a: Match, b: Match) {
    Leq(lower, a, b) && !Leq(lower, b, a)
  }

  /** 0 for the query itself, 1 for a title of less than 30000 bytes that starts with it, 2 for the rest. */
  function Tier(lower: Lowering, query: string, candidate: Candidate): nat {
    if lower(candidate.title) == query then 0
    else if query <= lower(candidate.title) && Utf8Length(lower(candidate.title)) < 30_000 then 1
    else 2
  }

  /** With equal usage signals, exact titles come before prefixes, and prefixes before all other matches. */
  lemma TiersRank(lower: Lowering, query: string, a: Candidate, b: Candidate)
    requires query != "" && Bonus(a) == Bonus(b) && Tier(lower, query, a) < Tier(lower, query, b)
    requires ScoredOne(lower, query, b) != []
    ensures ScoredOne(lower, query, a) != []
    ensures StrictlyBefore(lower, ScoredOne(lower, query, a)[0], ScoredOne(lower, query, b)[0])
  {
    ScoreTiers(lower, query, a.title, a.keywords);
    ScoreTiers(lower, query, b.title, b.keywords);
  }

  /** On an empty query every candidate matches, favorites lead, and within each half the more frequently
      used come first, up to a frequency of 10000. */
  lemma FavoritesLead(lower: Lowering, a: Candidate, b: Candidate)
    ensures |ScoredOne(lower, "", a)| == |ScoredOne(lower, "", b)| == 1
    ensures (a.favorite && !b.favorite)
            || (a.favorite == b.favorite && a.frequency > b.frequency && b.frequency < 10_000)
            ==> StrictlyBefore(lower, ScoredOne(lower, "", a)[0], ScoredOne(lower, "", b)[0])
  {
  }

  function Scored(lower: Lowering, query: string, candidates: seq<Candidate>): seq<Match> {
    if candidates == [] then [] else ScoredOne(lower, query, candidates[0]) + Scored(lower, query, candidates[1..])
  }

  /** The candidates that contain the query, in their order. */
  ghost function Containing(lower: Lowering, query: string, candidates: seq<Candidate>): seq<Candidate> {
    if candidates == [] then []
    else (if Accepted(lower, query, candidates[0].title, candidates[0].keywords) then [candidates[0]] else [])
         + Containing(lower, query, candidates[1..])
  }

  function Candidates(matches: seq<Match>): (candidates: seq<Candidate>)
    ensures |candidates| == |matches| && forall i :: 0 <= i < |matches| ==> candidates[i] == matches[i].candidate
  {
    seq(|matches|, i requires 0 <= i < |matches| => matches[i].candidate)
  }

  lemma {:induction false} ScoredIsContaining(lower: Lowering, query: string, candidates: seq<Candidate>)
    ensures Candidates(Scored(lower, query, candidates)) == Containing(lower, query, candidates)
  {
    if candidates != [] {
      ScoredIff(lower, query, candidates[0].title, candidates[0].keywords);
      ScoredIsContaining(lower, query, candidates[1..]);
    }
  }

  lemma {:induction false} ScoredAppend(lower: Lowering, query: string, before: seq<Candidate>, candidate: Candidate)
    ensures Scored(lower, query, before + [candidate])
          == Scored(lower, query, before) + ScoredOne(lower, query, candidate)
  {
    if before == [] {
      assert before + [candidate] == [candidate] && [candidate][1..] == [];
    } else {
      assert (before + [candidate])[1..] == before[1..] + [candidate];
      ScoredAppend(lower, query, before[1..], candidate);
    }
  }

  lemma ScoredStep(lower: Lowering, query: string, candidates: seq<Candidate>, index: nat)
    requires index < |candidates|
    ensures Scored(lower, query, candidates[..index + 1])
         == Scored(lower, query, candidates[..index]) + ScoredOne(lower, query, candidates[index])
  {
    assert candidates[..index + 1] == candidates[..index] + [candidates[index]];
    ScoredAppend(lower, query, candidates[..index], candidates[index]);
  }

  /** Score the candidates and drop those without a score. */
  method ScoreAll(lower: Lowering, query: string, candidates: seq<Candidate>) returns (matches: seq<Match>)
    ensures matches == Scored(lower, query, candidates)
  {
    matches := [];
    var index := 0;
    while index < |candidates|
      invariant index <= |candidates| && matches == Scored(lower, query, candidates[..index])
    {
      ScoredStep(lower, query, candidates, index);
      var candidate := candidates[index];
      var score := CandidateScore(lower, query, candidate.title, candidate.keywords);
      if score.Some? {
        matches := matches + [Match(candidate, score.value + Bonus(candidate))];
      }
      index := index + 1;
    }
    assert candidates[..index] == candidates;
  }

  /** The ranking is the stable sort of exactly the candidates that contain the query. */
  method RankCandidates(lower: Lowering, trim: Lowering, text: string, candidates: seq<Candidate>)
    returns (ranked: seq<Match>)
    ensures var query := lower(trim(text));
            && StableSortOf(lower, Scored(lower, query, candidates), ranked)
            && multiset(ranked) == multiset(Scored(lower, query, candidates))
            && Candidates(Scored(lower, query, candidates)) == Containing(lower, query, candidates)
  {
    var query := lower(trim(text));
    var matches := ScoreAll(lower, query, candidates);
    SortIsStable(lower, matches);
    ScoredIsContaining(lower, query, candidates);
    ranked := Sort(lower, matches);
  }
}

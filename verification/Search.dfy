/** Launcher search (crates/core/src/search.rs:28-101): greedy subsequence matching and stable ranking.
    Lower-casing and trimming are parameters. */
module Search {
  import opened Bytes

  // ---------- embeddings ----------

  /** `positions` spell `query` in `text`, from `start` on, in order. */
  ghost predicate Embeds(query: string, text: string, start: nat, positions: seq<nat>) {
    && |positions| == |query|
    && (forall i :: 0 <= i < |query| ==> start <= positions[i] < |text| && text[positions[i]] == query[i])
    && (forall i, j :: 0 <= i < j < |query| ==> positions[i] < positions[j])
  }

  ghost predicate Subsequence(query: string, text: string) {
    exists positions :: Embeds(query, text, 0, positions)
  }

  /** The positions that taking each character at the first opportunity gives. */
  function Greedy(query: string, text: string, start: nat): Option<seq<nat>>
    requires start <= |text|
    decreases |text| - start
  {
    if query == "" then Some([])
    else if start == |text| then None
    else if text[start] == query[0] then Preceded([start], Greedy(query[1..], text, start + 1))
    else Greedy(query, text, start + 1)
  }

  function Preceded(before: seq<nat>, after: Option<seq<nat>>): Option<seq<nat>> {
    if after.Some? then Some(before + after.value) else None
  }

  lemma {:induction false} GreedyEmbeds(query: string, text: string, start: nat)
    requires start <= |text|
    ensures Greedy(query, text, start).Some? ==> Embeds(query, text, start, Greedy(query, text, start).value)
    decreases |text| - start
  {
    if query != "" && start < |text| {
      if text[start] == query[0] {
        GreedyEmbeds(query[1..], text, start + 1);
        var rest := Greedy(query[1..], text, start + 1);
        if rest.Some? {
          var all := [start] + rest.value;
          forall i | 0 <= i < |query| ensures start <= all[i] < |text| && text[all[i]] == query[i] {
            if i > 0 {
              assert all[i] == rest.value[i - 1] && query[i] == query[1..][i - 1];
            }
          }
        }
      } else {
        GreedyEmbeds(query, text, start + 1);
      }
    }
  }

  /** Whatever spells the query, the greedy positions exist and none of them is further right. */
  lemma {:induction false} GreedyLeast(query: string, text: string, start: nat, positions: seq<nat>)
    requires start <= |text| && Embeds(query, text, start, positions)
    ensures Greedy(query, text, start).Some? && |Greedy(query, text, start).value| == |query|
    ensures forall i :: 0 <= i < |query| ==> Greedy(query, text, start).value[i] <= positions[i]
    decreases |text| - start
  {
    if query != "" {
      assert start <= positions[0] < |text|;
      if text[start] == query[0] {
        var rest := positions[1..];
        assert Embeds(query[1..], text, start + 1, rest) by {
          assert forall i :: 0 <= i < |rest| ==> rest[i] == positions[i + 1] && query[1..][i] == query[i + 1];
        }
        GreedyLeast(query[1..], text, start + 1, rest);
      } else {
        assert Embeds(query, text, start + 1, positions);
        GreedyLeast(query, text, start + 1, positions);
      }
    }
  }

  // ---------- the fuzzy score ----------

  function Score(query: string, positions: seq<nat>): int
    requires |positions| == |query| > 0
  {
    var first, last := positions[0], positions[|positions| - 1];
    50_000 - 100 * first - 20 * (last - first + 1 - |query|)
  }

  function FuzzyScore(query: string, text: string): Option<int> {
    if query == "" then None
    else
      match Greedy(query, text, 0)
      case None => None
      case Some(positions) => if |positions| == |query| then Some(Score(query, positions)) else None
  }

  /** There is a score exactly when the query is a subsequence of the text. */
  lemma FuzzyIff(query: string, text: string)
    requires query != ""
    ensures FuzzyScore(query, text).Some? <==> Subsequence(query, text)
  {
    GreedyEmbeds(query, text, 0);
    if Subsequence(query, text) {
      var positions :| Embeds(query, text, 0, positions);
      GreedyLeast(query, text, 0, positions);
    }
  }

  /** The greedy score is the best that any way of spelling the query in the text could have. */
  lemma FuzzyBest(query: string, text: string, positions: seq<nat>)
    requires query != "" && Embeds(query, text, 0, positions)
    ensures FuzzyScore(query, text).Some? && Score(query, positions) <= FuzzyScore(query, text).value <= 50_000
    ensures exists best :: Embeds(query, text, 0, best) && Score(query, best) == FuzzyScore(query, text).value
  {
    GreedyEmbeds(query, text, 0);
    GreedyLeast(query, text, 0, positions);
    Spread(query, text, Greedy(query, text, 0).value, |query| - 1);
  }

  lemma {:induction false} Spread(query: string, text: string, positions: seq<nat>, i: nat)
    requires Embeds(query, text, 0, positions) && i < |query|
    ensures positions[i] >= positions[0] + i
  {
    if i > 0 {
      Spread(query, text, positions, i - 1);
      assert positions[i - 1] < positions[i];
    }
  }

  lemma GreedySkips(query: string, text: string, start: nat)
    requires query != "" && start < |text|
    ensures Greedy(query, text, start) ==
            if text[start] == query[0] then Preceded([start], Greedy(query[1..], text, start + 1))
            else Greedy(query, text, start + 1)
  {
  }

  lemma PrecededByNothing(after: Option<seq<nat>>)
    ensures Preceded([], after) == after
  {
    if after.Some? {
      assert [] + after.value == after.value;
    }
  }

  lemma PrecededTwice(before: seq<nat>, at: nat, after: Option<seq<nat>>)
    ensures Preceded(before, Preceded([at], after)) == Preceded(before + [at], after)
  {
    if after.Some? {
      assert before + ([at] + after.value) == before + [at] + after.value;
    }
  }

  /** One pass over the text, counting the gaps between matched characters. */
  method ComputeFuzzyScore(query: string, text: string) returns (score: Option<int>)
    ensures score == FuzzyScore(query, text)
  {
    if query == "" {
      return None;
    }
    var first: Option<nat> := None;
    var last, gaps, matched, index := 0, 0, 0, 0;
    ghost var positions: seq<nat> := [];
    assert query[0..] == query;
    PrecededByNothing(Greedy(query, text, 0));
    while index < |text|
      invariant index <= |text| && matched < |query| && |positions| == matched
      invariant Greedy(query, text, 0) == Preceded(positions, Greedy(query[matched..], text, index))
      invariant first == if matched == 0 then None else Some(positions[0])
      invariant matched > 0 ==> last == positions[matched - 1] < index && gaps == last - positions[0] + 1 - matched
      invariant matched == 0 ==> gaps == 0
    {
      GreedySkips(query[matched..], text, index);
      if text[index] == query[matched] {
        assert query[matched..][1..] == query[matched + 1..];
        PrecededTwice(positions, index, Greedy(query[matched + 1..], text, index + 1));
        positions := positions + [index];
        if first.None? {
          first := Some(index);
        }
        if matched > 0 {
          gaps := gaps + if index > last + 1 then index - (last + 1) else 0;
        }
        last := index;
        matched := matched + 1;
        if matched == |query| {
          return Some(50_000 - first.value * 100 - gaps * 20);
        }
      }
      index := index + 1;
    }
    return None;
  }

  // ---------- candidates ----------

  datatype Candidate = Candidate(id: string, title: string, keywords: seq<string>, frequency: nat, favorite: bool)

  type Lowering = string -> string

  /** Bytes of a text in UTF-8. */
  function Utf8Length(text: string): nat {
    if text == "" then 0
    else
      var c := text[0] as int;
      (if c < 0x80 then 1 else if c < 0x800 then 2 else if c < 0x1_0000 then 3 else 4) + Utf8Length(text[1..])
  }

  /** The best score among the keywords. */
  function BestKeyword(lower: Lowering, query: string, keywords: seq<string>): Option<int> {
    if keywords == [] then None
    else
      var here, later := FuzzyScore(query, lower(keywords[0])), BestKeyword(lower, query, keywords[1..]);
      if here.None? then later
      else if later.None? then here
      else Some(if here.value > later.value then here.value else later.value)
  }

  function CandidateScore(lower: Lowering, query: string, title: string, keywords: seq<string>): Option<int> {
    if query == "" then Some(0)
    else if lower(title) == query then Some(100_000)
    else if query <= lower(title) then Some(80_000 - Utf8Length(lower(title)))
    else if FuzzyScore(query, lower(title)).Some? then FuzzyScore(query, lower(title))
    else
      match BestKeyword(lower, query, keywords)
      case None => None
      case Some(score) => Some(score - 5_000)
  }

  /** The query is a subsequence of the title or of some keyword. */
  ghost predicate Accepted(lower: Lowering, query: string, title: string, keywords: seq<string>) {
    || Subsequence(query, lower(title))
    || exists k :: 0 <= k < |keywords| && Subsequence(query, lower(keywords[k]))
  }

  lemma PrefixEmbeds(query: string, text: string)
    requires query <= text
    ensures Subsequence(query, text)
  {
    var positions := seq(|query|, (i: nat) => i);
    assert Embeds(query, text, 0, positions);
  }

  lemma {:induction false} KeywordIff(lower: Lowering, query: string, keywords: seq<string>)
    requires query != ""
    ensures BestKeyword(lower, query, keywords).Some? <==>
            exists k :: 0 <= k < |keywords| && Subsequence(query, lower(keywords[k]))
  {
    if keywords != [] {
      FuzzyIff(query, lower(keywords[0]));
      KeywordIff(lower, query, keywords[1..]);
      if exists k :: 0 <= k < |keywords| && Subsequence(query, lower(keywords[k])) {
        var k :| 0 <= k < |keywords| && Subsequence(query, lower(keywords[k]));
        if k > 0 {
          assert keywords[1..][k - 1] == keywords[k];
        }
      }
      if exists k :: 0 <= k < |keywords| - 1 && Subsequence(query, lower(keywords[1..][k])) {
        var k :| 0 <= k < |keywords| - 1 && Subsequence(query, lower(keywords[1..][k]));
        assert keywords[k + 1] == keywords[1..][k];
      }
    }
  }

  /** A candidate is scored exactly when it contains the query. */
  lemma ScoredIff(lower: Lowering, query: string, title: string, keywords: seq<string>)
    ensures CandidateScore(lower, query, title, keywords).Some? <==> Accepted(lower, query, title, keywords)
  {
    if query <= lower(title) {
      PrefixEmbeds(query, lower(title));
    } else {
      FuzzyIff(query, lower(title));
      KeywordIff(lower, query, keywords);
    }
  }

  // ---------- the tiers of the score ----------

  lemma FuzzyAtMost(query: string, text: string)
    ensures FuzzyScore(query, text).Some? ==> FuzzyScore(query, text).value <= 50_000
  {
    if FuzzyScore(query, text).Some? {
      GreedyEmbeds(query, text, 0);
      FuzzyBest(query, text, Greedy(query, text, 0).value);
    }
  }

  lemma {:induction false} KeywordAtMost(lower: Lowering, query: string, keywords: seq<string>)
    ensures BestKeyword(lower, query, keywords).Some? ==> BestKeyword(lower, query, keywords).value <= 50_000
  {
    if keywords != [] {
      FuzzyAtMost(query, lower(keywords[0]));
      KeywordAtMost(lower, query, keywords[1..]);
    }
  }

  /** An exact title scores 100000 and nothing else reaches 80000; a title that only starts with the query
      loses one for each of its bytes; any other match scores at most 50000, and at most 45000 when only a
      keyword matches. */
  lemma ScoreTiers(lower: Lowering, query: string, title: string, keywords: seq<string>)
    requires query != "" && CandidateScore(lower, query, title, keywords).Some?
    ensures var score := CandidateScore(lower, query, title, keywords).value;
            && (score == 100_000 <==> lower(title) == query)
            && (score != 100_000 ==> score < 80_000)
            && (lower(title) != query && query <= lower(title) ==> score == 80_000 - Utf8Length(lower(title)))
            && (!(query <= lower(title)) ==> score <= 50_000)
            && (!Subsequence(query, lower(title)) ==> score <= 45_000)
  {
    FuzzyAtMost(query, lower(title));
    KeywordAtMost(lower, query, keywords);
    if query <= lower(title) {
      PrefixEmbeds(query, lower(title));
    } else {
      FuzzyIff(query, lower(title));
    }
  }
}

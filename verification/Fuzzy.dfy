/** The two-pass greedy fuzzy matcher. */
module Fuzzy {
  import opened Common
  import opened Subsequences

  /** What matching needs to know about characters: case folding and UTF-8 width, and letter case. */
  datatype Alphabet = Alphabet(lower: char -> char, width: char -> nat,
                               isLower: char -> bool, isUpper: char -> bool)

  predicate ValidAlphabet(a: Alphabet) { forall c :: 1 <= a.width(c) <= 4 }

  datatype FuzzyMatch = FuzzyMatch(positions: seq<nat>, score: int)

  const BONUS_FIRST_CHAR := 16
  const BONUS_BOUNDARY := 8
  const BONUS_CONSECUTIVE := 4
  const PENALTY_GAP := 1
  const LENGTH_PENALTY_DIVISOR := 8

  predicate IsSeparator(c: char) { c in {'-', '_', '/', '.', ' ', ':', '@', '+', ','} }

  function Fold(a: Alphabet, s: string): string { seq(|s|, i requires 0 <= i < |s| => a.lower(s[i])) }

  /** The byte offset of the `i`th character. */
  function ByteOffset(a: Alphabet, s: string, i: nat): nat
    requires i <= |s|
  {
    if i == 0 then 0 else ByteOffset(a, s, i - 1) + a.width(s[i - 1])
  }

  // ---- The three passes --------------------------------------------------------------------

  /** `end` is where `q` first completes in `h`. */
  predicate EarliestEnd(q: string, h: string, end: nat) {
    end < |h| && Subsequence(q, h[..end + 1]) && !Subsequence(q, h[..end])
  }

  /** `start` is the last place from which `q` still completes by `end`. */
  predicate LatestStart(q: string, h: string, start: nat, end: nat) {
    && start <= end < |h|
    && Subsequence(q, h[start..end + 1]) && !Subsequence(q, h[start + 1..end + 1])
  }

  /** The forward pass. */
  method ForwardPass(needle: string, hay: string) returns (end: Option<nat>)
    requires needle != ""
    ensures end.None? ==> !Subsequence(needle, hay)
    ensures end.Some? ==> EarliestEnd(needle, hay, end.value)
  {
    var qi := 0;
    var i := 0;
    while i < |hay|
      invariant 0 <= i <= |hay| && 0 <= qi < |needle|
      invariant Subsequence(needle[..qi], hay[..i]) && !Subsequence(needle[..qi + 1], hay[..i])
    {
      GreedyLast(needle, hay, qi, i);
      if hay[i] == needle[qi] {
        qi := qi + 1;
        if qi == |needle| {
          assert needle[..qi] == needle;
          return Some(i);
        }
      }
      i := i + 1;
    }
    assert hay[..i] == hay;
    if Subsequence(needle, hay) {
      SubsequenceOfPrefix(needle, hay, qi + 1);
    }
    return None;
  }

  /** What one more character of the haystack changes in the forward pass. */
  lemma GreedyLast(needle: string, hay: string, qi: nat, i: nat)
    requires qi < |needle| && i < |hay|
    requires Subsequence(needle[..qi], hay[..i]) && !Subsequence(needle[..qi + 1], hay[..i])
    ensures hay[i] != needle[qi] ==>
      Subsequence(needle[..qi], hay[..i + 1]) && !Subsequence(needle[..qi + 1], hay[..i + 1])
    ensures hay[i] == needle[qi] ==>
      Subsequence(needle[..qi + 1], hay[..i + 1])
      && (qi + 1 < |needle| ==> !Subsequence(needle[..qi + 2], hay[..i + 1]))
  {
    var h, q := hay[..i + 1], needle[..qi + 1];
    assert h[..i] == hay[..i] && q[..qi] == needle[..qi];
    SubsequenceStillHolds(needle[..qi], hay, i);
    if hay[i] == needle[qi] && qi + 1 < |needle| {
      var longer := needle[..qi + 2];
      assert longer[..qi + 1] == q;
      if Subsequence(longer, h) {
        if longer[qi + 1] == h[i] {
          assert false;
        } else {
          SubsequenceOfPrefix(longer, h[..i], qi + 1);
        }
      }
    }
  }

  lemma SubsequenceStillHolds(q: string, hay: string, i: nat)
    requires i < |hay| && Subsequence(q, hay[..i])
    ensures Subsequence(q, hay[..i + 1])
  {
    assert hay[..i + 1][0..i] == hay[..i];
    SubsequenceMonotone(q, hay[..i + 1], 0, i);
  }

  /** The backward pass. */
  method BackwardPass(needle: string, hay: string, end: nat) returns (start: nat)
    requires needle != "" && EarliestEnd(needle, hay, end)
    ensures LatestStart(needle, hay, start, end)
  {
    var qi := |needle|;
    start := 0;
    var i := end + 1;
    assert hay[end + 1..end + 1] == "" && needle[|needle|..] == "";
    while i > 0
      invariant 0 <= i <= end + 1 && 0 < qi <= |needle|
      invariant Subsequence(needle[qi..], hay[i..end + 1])
      invariant !Subsequence(needle[qi - 1..], hay[i..end + 1])
    {
      i := i - 1;
      GreedyStep(needle, hay, qi, i, end);
      if hay[i] == needle[qi - 1] {
        qi := qi - 1;
        if qi == 0 {
          start := i;
          assert needle[0..] == needle;
          return;
        }
      }
    }
    assert hay[0..end + 1] == hay[..end + 1];
    SubsequenceOfSuffix(needle, hay[..end + 1], qi - 1);
    assert false;
  }

  lemma SubsequenceOfSuffix(q: string, h: string, n: nat)
    requires n <= |q| && Subsequence(q, h)
    ensures Subsequence(q[n..], h)
  {
    var at := SubsequencePicks(q, h);
    PicksIsSubsequence(q[n..], h, at[n..]);
  }

  /** What one more character changes in the backward pass. */
  lemma GreedyStep(needle: string, hay: string, qi: nat, i: nat, end: nat)
    requires 0 < qi <= |needle| && i <= end < |hay|
    requires Subsequence(needle[qi..], hay[i + 1..end + 1])
    requires !Subsequence(needle[qi - 1..], hay[i + 1..end + 1])
    ensures hay[i] != needle[qi - 1] ==>
      Subsequence(needle[qi..], hay[i..end + 1]) && !Subsequence(needle[qi - 1..], hay[i..end + 1])
    ensures hay[i] == needle[qi - 1] ==>
      Subsequence(needle[qi - 1..], hay[i..end + 1])
      && (qi > 1 ==> !Subsequence(needle[qi - 2..], hay[i..end + 1]))
      && !Subsequence(needle[qi - 1..], hay[i + 1..end + 1])
  {
    var h := hay[i + 1..end + 1];
    assert [hay[i]] + h == hay[i..end + 1];
    assert needle[qi - 1..][1..] == needle[qi..];
    GreedyFirst(needle[qi - 1..], hay[i], h);
    assert hay[i..end + 1][1..|h| + 1] == h;
    SubsequenceMonotone(needle[qi..], hay[i..end + 1], 1, |h| + 1);
    if hay[i] == needle[qi - 1] && qi > 1 {
      GreedyFirst(needle[qi - 2..], hay[i], h);
      assert needle[qi - 2..][1..] == needle[qi - 1..];
      if Subsequence(needle[qi - 2..], h) {
        SubsequenceOfSuffix(needle[qi - 2..], h, 1);
      }
    }
  }

  /** Each position is the first match of its character after the position before it. */
  predicate Greedy(needle: string, hay: string, at: seq<nat>)
    requires Picks(needle, hay, at)
  {
    forall i, k :: 0 < i < |at| && at[i - 1] < k < at[i] ==> hay[k] != needle[i]
  }

  /** What the third pass has collected when it comes to `k`. */
  predicate Collected(needle: string, hay: string, start: nat, k: nat, at: seq<nat>) {
    && start <= k <= |hay| && |at| <= |needle| && (if k == start then at == [] else at != [] && at[0] == start)
    && (forall i :: 0 <= i < |at| ==> start <= at[i] < k && hay[at[i]] == needle[i])
    && (forall i, j :: 0 <= i < j < |at| ==> at[i] < at[j])
    && (forall i, m :: 0 < i < |at| && at[i - 1] < m < at[i] ==> hay[m] != needle[i])
    && (0 < |at| < |needle| ==> forall m :: at[|at| - 1] < m < k ==> hay[m] != needle[|at|])
  }

  lemma CollectStep(needle: string, hay: string, start: nat, k: nat, at: seq<nat>)
    requires Collected(needle, hay, start, k, at) && k < |hay| && |at| < |needle|
    requires k == start ==> hay[k] == needle[0]
    ensures hay[k] == needle[|at|] ==> Collected(needle, hay, start, k + 1, at + [k])
    ensures hay[k] != needle[|at|] ==> Collected(needle, hay, start, k + 1, at)
  {}

  /** The window's first character is the query's. */
  lemma StartMatches(needle: string, hay: string, start: nat, end: nat)
    requires needle != "" && LatestStart(needle, hay, start, end)
    ensures start <= end < |hay| && hay[start] == needle[0] && Subsequence(needle, hay[start..end + 1])
  {
    hide Subsequence;
    var rest := hay[start + 1..end + 1];
    assert [hay[start]] + rest == hay[start..end + 1];
    GreedyFirst(needle, hay[start], rest);
  }

  lemma RestStillMatches(needle: string, hay: string, qi: nat, k: nat, end: nat)
    requires qi < |needle| && k <= end < |hay| && Subsequence(needle[qi..], hay[k..end + 1])
    ensures hay[k] == needle[qi] ==> Subsequence(needle[qi + 1..], hay[k + 1..end + 1])
    ensures hay[k] != needle[qi] ==> Subsequence(needle[qi..], hay[k + 1..end + 1])
  {
    hide Subsequence;
    var rest := hay[k + 1..end + 1];
    assert [hay[k]] + rest == hay[k..end + 1];
    GreedyFirst(needle[qi..], hay[k], rest);
    assert needle[qi..][1..] == needle[qi + 1..];
  }

  /** The third pass: the first positions that match inside the tightened window. */
  method CollectPass(needle: string, hay: string, start: nat, end: nat) returns (at: seq<nat>)
    requires needle != "" && EarliestEnd(needle, hay, end) && LatestStart(needle, hay, start, end)
    ensures Picks(needle, hay, at) && at[0] == start && at[|at| - 1] == end
    ensures Greedy(needle, hay, at)
  {
    hide *;
    StartMatches(needle, hay, start, end);
    at := [];
    var qi := 0;
    var k := start;
    assert needle[0..] == needle;
    NothingCollected(needle, hay, start);
    while k <= end && qi < |needle|
      invariant start <= k <= end + 1 && qi == |at| <= |needle|
      invariant Subsequence(needle[qi..], hay[k..end + 1])
      invariant Collected(needle, hay, start, k, at)
      decreases end + 1 - k
    {
      CollectStep(needle, hay, start, k, at);
      RestStillMatches(needle, hay, qi, k, end);
      if hay[k] == needle[qi] {
        at := at + [k];
        qi := qi + 1;
      }
      k := k + 1;
    }
    NothingLeft(needle, hay, qi, k, end);
    CollectedAll(needle, hay, start, k, at, end);
  }

  lemma NothingCollected(needle: string, hay: string, start: nat)
    requires start < |hay|
    ensures Collected(needle, hay, start, start, [])
  {}

  lemma CollectedAll(needle: string, hay: string, start: nat, k: nat, at: seq<nat>, end: nat)
    requires needle != "" && EarliestEnd(needle, hay, end) && Collected(needle, hay, start, k, at)
    requires |at| == |needle| && k <= end + 1
    ensures Picks(needle, hay, at) && at[0] == start && at[|at| - 1] == end && Greedy(needle, hay, at)
  {
    hide Subsequence;
    PicksEndAtEarliestEnd(needle, hay, at, end);
  }

  lemma NothingLeft(needle: string, hay: string, qi: nat, k: nat, end: nat)
    requires qi <= |needle| && k <= end + 1 <= |hay| && Subsequence(needle[qi..], hay[k..end + 1])
    requires k == end + 1 || qi == |needle|
    ensures qi == |needle|
  {}

  /** Positions that pick the query out by its earliest end finish exactly there. */
  lemma PicksEndAtEarliestEnd(needle: string, hay: string, at: seq<nat>, end: nat)
    requires needle != "" && EarliestEnd(needle, hay, end) && Picks(needle, hay, at)
    requires forall i :: 0 <= i < |at| ==> at[i] <= end
    ensures at[|at| - 1] == end
  {
    if at[|at| - 1] < end {
      assert forall i :: 0 <= i < |at| ==> at[i] <= at[|at| - 1];
      PicksIsSubsequence(needle, hay[..end], at);
    }
  }

  // ---- Scores ------------------------------------------------------------------------------

  /** What the place a match starts at is worth. */
  function StartBonus(a: Alphabet, h: string, start: nat): int
    requires start < |h|
  {
    if start == 0 then BONUS_FIRST_CHAR
    else if IsSeparator(h[start - 1]) || (a.isLower(h[start - 1]) && a.isUpper(h[start])) then BONUS_BOUNDARY
    else 0
  }

  /** The score of `matched` characters in a window with `gaps` others. */
  function Score(a: Alphabet, h: string, start: nat, matched: nat, gaps: nat): int
    requires start < |h|
  {
    matched + StartBonus(a, h, start) + Max(matched - 1 - gaps, 0) * BONUS_CONSECUTIVE
    - gaps * PENALTY_GAP - |h| / LENGTH_PENALTY_DIVISOR
  }

  /** Score a tightened window; `span - matched` does not underflow. */
  method ScorePositions(a: Alphabet, hay: string, start: nat, end: nat, matched: nat) returns (score: int)
    requires start <= end < |hay| && 1 <= matched <= end - start + 1
    ensures score == Score(a, hay, start, matched, end - start + 1 - matched)
  {
    score := matched;
    if start == 0 {
      score := score + BONUS_FIRST_CHAR;
    } else {
      var prev, cur := hay[start - 1], hay[start];
      if IsSeparator(prev) || (a.isLower(prev) && a.isUpper(cur)) {
        score := score + BONUS_BOUNDARY;
      }
    }
    var span := end - start + 1;
    var gaps: nat := span - matched;
    score := score + Max(matched - 1 - gaps, 0) * BONUS_CONSECUTIVE;
    score := score - gaps * PENALTY_GAP;
    score := score - |hay| / LENGTH_PENALTY_DIVISOR;
  }

  /**
   * Of two matches of one query in one haystack with equally good starts, the tighter scores
   * higher: by the gaps it saves and by every consecutive bonus they cost.
   */
  lemma TighterScoresHigher(a: Alphabet, h: string, s1: nat, s2: nat, matched: nat, g1: nat, g2: nat)
    requires s1 < |h| && s2 < |h| && StartBonus(a, h, s1) == StartBonus(a, h, s2) && g1 < g2
    ensures Score(a, h, s1, matched, g1) >= Score(a, h, s2, matched, g2) + (g2 - g1)
    ensures g2 < matched ==>
      Score(a, h, s1, matched, g1) == Score(a, h, s2, matched, g2) + (g2 - g1) * (1 + BONUS_CONSECUTIVE)
  {}

  // ---- The matcher -------------------------------------------------------------------------

  lemma {:induction false} OffsetsIncrease(a: Alphabet, h: string, i: nat, j: nat)
    requires ValidAlphabet(a) && i < j <= |h|
    ensures ByteOffset(a, h, i) < ByteOffset(a, h, j)
  {
    if i < j - 1 {
      OffsetsIncrease(a, h, i, j - 1);
    }
  }

  /** `at`, `start` and `end` are the match `m` of a non-empty query, in characters. */
  predicate Explains(a: Alphabet, query: string, haystack: string, m: FuzzyMatch,
                     at: seq<nat>, start: nat, end: nat)
  {
    var (q, h) := (Fold(a, query), Fold(a, haystack));
    && EarliestEnd(q, h, end) && LatestStart(q, h, start, end)
    && Picks(q, h, at) && Greedy(q, h, at) && at != [] && at[0] == start && at[|at| - 1] == end
    && |m.positions| == |query|
    && (forall i :: 0 <= i < |at| ==> m.positions[i] == ByteOffset(a, haystack, at[i]))
    && |query| <= end - start + 1
    && m.score == Score(a, haystack, start, |query|, end - start + 1 - |query|)
  }

  /** Increasing positions between `start` and `end` are no more than the places there. */
  lemma {:induction false} PicksFit(at: seq<nat>)
    requires at != [] && forall i, j :: 0 <= i < j < |at| ==> at[i] < at[j]
    ensures at[0] + |at| - 1 <= at[|at| - 1]
  {
    if |at| > 1 {
      PicksFit(at[..|at| - 1]);
    }
  }

  /**
   * Match `query` in `haystack`: there is a match exactly when the folded query is a subsequence,
   * and the positions are the greedy ones in the tightest window for the earliest end.
   */
  method Match(a: Alphabet, query: string, haystack: string)
    returns (r: Option<FuzzyMatch>, ghost at: seq<nat>, ghost start: nat, ghost end: nat)
    requires ValidAlphabet(a)
    ensures r.Some? <==> Subsequence(Fold(a, query), Fold(a, haystack))
    ensures query == "" ==> r == Some(FuzzyMatch([], 0))
    ensures r.Some? && query != "" ==> Explains(a, query, haystack, r.value, at, start, end)
    ensures r.Some? ==> forall i, j :: 0 <= i < j < |r.value.positions| ==>
      r.value.positions[i] < r.value.positions[j]
  {
    at, start, end := [], 0, 0;
    var needle, hay := Fold(a, query), Fold(a, haystack);
    assert needle == "" ==> Subsequence(needle, hay);
    hide Subsequence, ByteOffset;
    if needle == "" {
      return Some(FuzzyMatch([], 0)), at, start, end;
    }
    var last := ForwardPass(needle, hay);
    if last.None? {
      return None, at, start, end;
    }
    assert hay[0..last.value + 1] == hay[..last.value + 1];
    SubsequenceMonotone(needle, hay, 0, last.value + 1);
    var first := BackwardPass(needle, hay, last.value);
    var picks := CollectPass(needle, hay, first, last.value);
    PicksFit(picks);
    var positions := seq(|picks|, i requires 0 <= i < |picks| => ByteOffset(a, haystack, picks[i]));
    forall i, j | 0 <= i < j < |picks| ensures positions[i] < positions[j] {
      OffsetsIncrease(a, haystack, picks[i], picks[j]);
    }
    var score := ScorePositions(a, haystack, first, last.value, |positions|);
    at, start, end := picks, first, last.value;
    return Some(FuzzyMatch(positions, score)), at, start, end;
  }
}

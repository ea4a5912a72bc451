/** What the score of a match means: laws between the matches of one query in different fields. */
module FuzzyScores {
  import opened Common
  import opened Subsequences
  import opened Fuzzy

  // ---- The window is determined ------------------------------------------------------------

  lemma EndIsDetermined(q: string, h: string, e: nat, f: nat)
    requires EarliestEnd(q, h, e) && EarliestEnd(q, h, f)
    ensures e == f
  {
    if e < f {
      EndsNoEarlier(q, h, e, f);
    } else if f < e {
      EndsNoEarlier(q, h, f, e);
    }
  }

  lemma EndsNoEarlier(q: string, h: string, e: nat, f: nat)
    requires EarliestEnd(q, h, e) && e < f <= |h|
    ensures Subsequence(q, h[..f])
  {
    assert h[..f][0..e + 1] == h[..e + 1];
    SubsequenceMonotone(q, h[..f], 0, e + 1);
  }

  lemma StartIsDetermined(q: string, h: string, s: nat, t: nat, end: nat)
    requires LatestStart(q, h, s, end) && LatestStart(q, h, t, end)
    ensures s == t
  {
    if s < t {
      StartsNoLater(q, h, s, t, end);
    } else if t < s {
      StartsNoLater(q, h, t, s, end);
    }
  }

  lemma StartsNoLater(q: string, h: string, s: nat, t: nat, end: nat)
    requires s < t && LatestStart(q, h, t, end)
    ensures Subsequence(q, h[s + 1..end + 1])
  {
    var all := h[s + 1..end + 1];
    assert all[t - s - 1..|all|] == h[t..end + 1];
    SubsequenceMonotone(q, all, t - s - 1, |all|);
  }

  /** More text behind a match changes neither where it ends nor where it starts. */
  lemma SameWindow(q: string, h: string, longer: string, s: nat, e: nat, t: nat, f: nat)
    requires h <= longer
    requires EarliestEnd(q, h, e) && LatestStart(q, h, s, e)
    requires EarliestEnd(q, longer, f) && LatestStart(q, longer, t, f)
    ensures s == t && e == f
  {
    assert longer[..e + 1] == h[..e + 1] && longer[..e] == h[..e];
    EndIsDetermined(q, longer, e, f);
    assert longer[s..e + 1] == h[s..e + 1] && longer[s + 1..e + 1] == h[s + 1..e + 1];
    StartIsDetermined(q, longer, s, t, e);
  }

  // ---- The laws ----------------------------------------------------------------------------

  /** One field a query matches, and how. */
  datatype Matched = Matched(field: string, found: FuzzyMatch, at: seq<nat>, start: nat, end: nat)

  predicate IsMatch(a: Alphabet, query: string, m: Matched) {
    Explains(a, query, m.field, m.found, m.at, m.start, m.end)
  }

  /** Behind the match, every eight characters more cost a point: of two fields the shorter scores no less. */
  lemma LongerFieldScoresLess(a: Alphabet, query: string, m: Matched, n: Matched)
    requires IsMatch(a, query, m) && IsMatch(a, query, n) && m.field <= n.field
    ensures n.start == m.start && n.end == m.end
    ensures n.found.score <= m.found.score
    ensures |n.field| == |m.field| + 8 ==> n.found.score == m.found.score - 1
  {
    SameWindows(a, query, m, n);
    ScoreOfSameWindow(a, query, m, n);
  }

  lemma SameWindows(a: Alphabet, query: string, m: Matched, n: Matched)
    requires IsMatch(a, query, m) && IsMatch(a, query, n) && m.field <= n.field
    ensures n.start == m.start && n.end == m.end
  {
    hide Score, Picks, Greedy, ByteOffset, Subsequence;
    assert Fold(a, m.field) <= Fold(a, n.field);
    hide Fold;
    SameWindow(Fold(a, query), Fold(a, m.field), Fold(a, n.field), m.start, m.end, n.start, n.end);
  }

  lemma ScoreOfSameWindow(a: Alphabet, query: string, m: Matched, n: Matched)
    requires IsMatch(a, query, m) && IsMatch(a, query, n) && m.field <= n.field
    requires n.start == m.start && n.end == m.end
    ensures n.found.score == m.found.score + |m.field| / 8 - |n.field| / 8
  {
    hide Subsequence, Picks, Greedy, ByteOffset;
    assert n.field[n.start] == m.field[m.start];
    assert m.start > 0 ==> n.field[n.start - 1] == m.field[m.start - 1];
  }

  /** Position `i` begins a word: behind a separator, or an upper-case letter behind a lower-case one. */
  predicate BeginsWord(a: Alphabet, h: string, i: nat)
    requires 0 < i < |h|
  {
    h[i - 1] in {'-', '_', '/', '.', ' ', ':', '@', '+', ','} || (a.isLower(h[i - 1]) && a.isUpper(h[i]))
  }

  /** How good a start is: the first character, the first of a word, or any other. */
  function StartRank(a: Alphabet, h: string, i: nat): nat
    requires i < |h|
  {
    if i == 0 then 2 else if BeginsWord(a, h, i) then 1 else 0
  }

  /** In fields of one length and windows of one width, each better kind of start is worth eight points. */
  lemma BetterStartScoresMore(a: Alphabet, query: string, m: Matched, n: Matched)
    requires IsMatch(a, query, m) && IsMatch(a, query, n)
    requires |m.field| == |n.field| && m.end - m.start == n.end - n.start
    ensures m.start < |m.field| && n.start < |n.field|
    ensures m.found.score - n.found.score ==
      8 * (StartRank(a, m.field, m.start) - StartRank(a, n.field, n.start))
  {
    hide Subsequence;
  }

  /**
   * In fields of one length and with equally good starts, each character skipped costs a point, and
   * while fewer are skipped than matched but one, four more.
   */
  lemma TighterMatchScoresMore(a: Alphabet, query: string, m: Matched, n: Matched)
    requires IsMatch(a, query, m) && IsMatch(a, query, n) && |m.field| == |n.field|
    requires m.start < |m.field| && n.start < |n.field|
    requires StartRank(a, m.field, m.start) == StartRank(a, n.field, n.start)
    requires m.end - m.start < n.end - n.start
    ensures var wider := (n.end - n.start) - (m.end - m.start);
      && m.found.score >= n.found.score + wider
      && (n.end - n.start + 1 < 2 * |query| ==> m.found.score == n.found.score + 5 * wider)
  {
    hide Subsequence;
  }

  /** A field that is the query, whatever the case of its letters: every bonus, and its own length. */
  lemma WholeFieldScore(a: Alphabet, query: string, m: Matched)
    requires IsMatch(a, query, m) && query != "" && |m.field| == |query|
    ensures m.start == 0 && m.end == |query| - 1
    ensures m.found.score == |query| + 16 + 4 * (|query| - 1) - |query| / 8
  {
    hide Subsequence;
  }

  // ---- What a match is ---------------------------------------------------------------------

  /** The query's characters are found in the field in order, at `at`, whatever their case. */
  predicate FoundAt(a: Alphabet, query: string, field: string, at: seq<nat>) {
    && |at| == |query| && (forall i, j :: 0 <= i < j < |at| ==> at[i] < at[j])
    && forall i :: 0 <= i < |at| ==> at[i] < |field| && a.lower(field[at[i]]) == a.lower(query[i])
  }

  /** A query matches a field exactly when all its characters are found there in order, in any case. */
  lemma MatchesIff(a: Alphabet, query: string, field: string)
    ensures Subsequence(Fold(a, query), Fold(a, field)) <==> exists at :: FoundAt(a, query, field, at)
  {
    var q, h := Fold(a, query), Fold(a, field);
    if Subsequence(q, h) {
      var at := SubsequencePicks(q, h);
      assert FoundAt(a, query, field, at);
    }
    if at :| FoundAt(a, query, field, at) {
      PicksIsSubsequence(q, h, at);
    }
  }

  /** The bytes of a text, by an encoding of its characters. */
  function Encoded(encode: char -> seq<int>, s: string): seq<int> {
    if s == "" then [] else Encoded(encode, s[..|s| - 1]) + encode(s[|s| - 1])
  }

  /** A position is where its character's bytes begin. */
  lemma {:induction false} OffsetIsInBytes(a: Alphabet, encode: char -> seq<int>, s: string, i: nat)
    requires i <= |s| && forall c :: |encode(c)| == a.width(c)
    ensures ByteOffset(a, s, i) == |Encoded(encode, s[..i])|
  {
    if i > 0 {
      OffsetIsInBytes(a, encode, s, i - 1);
      assert s[..i][..i - 1] == s[..i - 1];
    }
  }
}

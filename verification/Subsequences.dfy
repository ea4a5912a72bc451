/** Subsequences, and the increasing positions that pick them out. */
module Subsequences {

  /** `q` can be obtained from `h` by leaving elements out. */
  predicate Subsequence<T(==)>(q: seq<T>, h: seq<T>) {
    if q == [] then true
    else if h == [] then false
    else if q[|q| - 1] == h[|h| - 1] then Subsequence(q[..|q| - 1], h[..|h| - 1])
    else Subsequence(q, h[..|h| - 1])
  }

  /** `at` picks the elements of `q` out of `h`, left to right. */
  predicate Picks<T(==)>(q: seq<T>, h: seq<T>, at: seq<nat>) {
    && |at| == |q|
    && (forall i :: 0 <= i < |at| ==> at[i] < |h| && h[at[i]] == q[i])
    && forall i, j :: 0 <= i < j < |at| ==> at[i] < at[j]
  }

  /** A subsequence is exactly what some increasing choice of positions picks out. */
  lemma {:induction false} SubsequencePicks<T>(q: seq<T>, h: seq<T>) returns (at: seq<nat>)
    requires Subsequence(q, h)
    ensures Picks(q, h, at)
  {
    if q == [] {
      at := [];
    } else if q[|q| - 1] == h[|h| - 1] {
      var rest := SubsequencePicks(q[..|q| - 1], h[..|h| - 1]);
      at := rest + [|h| - 1];
    } else {
      at := SubsequencePicks(q, h[..|h| - 1]);
    }
  }

  lemma {:induction false} PicksIsSubsequence<T>(q: seq<T>, h: seq<T>, at: seq<nat>)
    requires Picks(q, h, at)
    ensures Subsequence(q, h)
  {
    if q != [] {
      var n, m := |q| - 1, |h| - 1;
      assert at[n] <= m;
      if q[n] == h[m] {
        PicksIsSubsequence(q[..n], h[..m], at[..n]);
      } else {
        assert forall i :: 0 <= i < |at| ==> at[i] <= at[n] < m;
        PicksIsSubsequence(q, h[..m], at);
      }
    }
  }

  /** A subsequence of a part is one of the whole. */
  lemma SubsequenceMonotone<T>(q: seq<T>, h: seq<T>, lo: nat, hi: nat)
    requires lo <= hi <= |h| && Subsequence(q, h[lo..hi])
    ensures Subsequence(q, h)
  {
    var at := SubsequencePicks(q, h[lo..hi]);
    PicksIsSubsequence(q, h, seq(|at|, i requires 0 <= i < |at| => at[i] + lo));
  }

  lemma SubsequenceOfPrefix<T>(q: seq<T>, h: seq<T>, n: nat)
    requires n <= |q| && Subsequence(q, h)
    ensures Subsequence(q[..n], h)
  {
    var at := SubsequencePicks(q, h);
    PicksIsSubsequence(q[..n], h, at[..n]);
  }

  /** Taking the first element when it matches loses nothing: the exchange behind greedy matching. */
  lemma GreedyFirst<T>(q: seq<T>, c: T, h: seq<T>)
    requires q != []
    ensures q[0] == c ==> (Subsequence(q, [c] + h) <==> Subsequence(q[1..], h))
    ensures q[0] != c ==> (Subsequence(q, [c] + h) <==> Subsequence(q, h))
  {
    hide Subsequence;
    var s := [c] + h;
    if Subsequence(q, s) {
      var at := SubsequencePicks(q, s);
      if q[0] == c {
        PicksIsSubsequence(q[1..], h, seq(|q| - 1, i requires 0 <= i < |q| - 1 => at[i + 1] - 1));
      } else {
        assert at[0] != 0;
        PicksIsSubsequence(q, h, seq(|q|, i requires 0 <= i < |q| => at[i] - 1));
      }
    }
    if q[0] == c && Subsequence(q[1..], h) {
      var at := SubsequencePicks(q[1..], h);
      PicksIsSubsequence(q, s, [0] + seq(|q| - 1, i requires 0 <= i < |q| - 1 => at[i] + 1));
    }
    if Subsequence(q, h) {
      assert s[1..|s|] == h;
      SubsequenceMonotone(q, s, 1, |s|);
    }
  }
}

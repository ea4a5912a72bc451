/** Finite sets: their size and, for integers, their elements in order. */
module Ordered {

  lemma SomeElement<T>(s: set<T>) returns (x: T)
    requires s != {}
    ensures x in s
  {
    x :| x in s;
  }

  lemma {:induction false} SubsetIsNoLarger<T>(a: set<T>, b: set<T>)
    requires a <= b
    ensures |a| <= |b|
  {
    if a != {} {
      var x :| x in a;
      SubsetIsNoLarger(a - {x}, b - {x});
    }
  }

  lemma SubsetOfSameSize<T>(a: set<T>, b: set<T>)
    requires a <= b && |a| == |b|
    ensures a == b
  {
    if a != b {
      var x :| x in b && x !in a;
      SubsetIsNoLarger(a, b - {x});
    }
  }

  predicate IsLeast(m: int, s: set<int>) { m in s && forall x :: x in s ==> m <= x }

  lemma {:induction false} LeastExists(s: set<int>)
    requires s != {}
    ensures exists m :: IsLeast(m, s)
  {
    var m := SomeElement(s);
    var rest := s - {m};
    assert s == rest + {m};
    if rest == {} {
      assert IsLeast(m, s);
    } else {
      LeastExists(rest);
      var m' :| IsLeast(m', rest);
      assert IsLeast(if m <= m' then m else m', s);
    }
  }

  /** The elements of a set in ascending order. */
  function InOrder(s: set<int>): seq<int>
  {
    if s == {} then [] else
    LeastExists(s);
    var m :| IsLeast(m, s);
    [m] + InOrder(s - {m})
  }

  lemma {:induction false} InOrderHasAll(s: set<int>, x: int)
    ensures x in InOrder(s) <==> x in s
  {
    if s != {} {
      LeastExists(s);
      var m :| IsLeast(m, s);
      InOrderHasAll(s - {m}, x);
    }
  }

  /** Those of `s` that are less than `x`. */
  function LessThan(s: set<int>, x: int): set<int> { set y | y in s && y < x }

  /** Every element is listed once, behind as many as are less than it: in strictly ascending order. */
  lemma {:induction false} InOrderByRank(s: set<int>, j: nat)
    requires j < |InOrder(s)|
    ensures |InOrder(s)| == |s|
    ensures InOrder(s)[j] in s && |LessThan(s, InOrder(s)[j])| == j
  {
    LeastExists(s);
    var m :| IsLeast(m, s);
    var rest := s - {m};
    LengthIsSize(s);
    if j == 0 {
      assert LessThan(s, m) == {};
    } else {
      InOrderByRank(rest, j - 1);
      var x := InOrder(rest)[j - 1];
      assert LessThan(s, x) == LessThan(rest, x) + {m};
    }
  }

  lemma {:induction false} LengthIsSize(s: set<int>)
    ensures |InOrder(s)| == |s|
  {
    if s != {} {
      LeastExists(s);
      var m :| IsLeast(m, s);
      LengthIsSize(s - {m});
    }
  }

  /** Where an element is listed. */
  lemma ListedAtRank(s: set<int>, x: int)
    requires x in s
    ensures |LessThan(s, x)| < |InOrder(s)| && InOrder(s)[|LessThan(s, x)|] == x
  {
    InOrderHasAll(s, x);
    var j :| 0 <= j < |InOrder(s)| && InOrder(s)[j] == x;
    InOrderByRank(s, j);
  }
}

/** Stable sorting by a key: what it is, and why the result is unique. */
module StableSort {
  import opened Common
  import opened Sorting

  function ByKey<T>(key: T -> nat): (T, T) -> bool { (a, b) => key(a) <= key(b) }

  predicate Sorted<T(!new)>(key: T -> nat, s: seq<T>) {
    forall i, j :: 0 <= i < j < |s| ==> key(s[i]) <= key(s[j])
  }

  /** The elements with key `k`, in order. */
  function AtKey<T>(key: T -> nat, k: nat, s: seq<T>): seq<T> {
    if s == [] then []
    else AtKey(key, k, s[..|s| - 1]) + (if key(s[|s| - 1]) == k then [s[|s| - 1]] else [])
  }

  /** `r` is a stable sort of `s`: in key order, with equal keys in their original order. */
  ghost predicate IsStableSort<T(!new)>(key: T -> nat, s: seq<T>, r: seq<T>) {
    Sorted(key, r) && forall k :: AtKey(key, k, r) == AtKey(key, k, s)
  }

  function SortByKey<T>(key: T -> nat, s: seq<T>): seq<T> { SortBy(ByKey(key), s) }

  lemma AtKeyPush<T>(key: T -> nat, k: nat, s: seq<T>, x: T)
    ensures AtKey(key, k, s + [x]) == if key(x) == k then AtKey(key, k, s) + [x] else AtKey(key, k, s)
  {
    assert (s + [x])[..|s|] == s;
  }

  lemma {:induction false} AtKeyAbsent<T>(key: T -> nat, k: nat, s: seq<T>)
    requires forall i :: 0 <= i < |s| ==> key(s[i]) != k
    ensures AtKey(key, k, s) == []
  {
    if s != [] {
      AtKeyAbsent(key, k, s[..|s| - 1]);
    }
  }

  lemma {:induction false} InsertKeepsOrder<T(!new)>(key: T -> nat, k: nat, x: T, s: seq<T>)
    ensures AtKey(key, k, InsertBy(ByKey(key), x, s)) == AtKey(key, k, s + [x])
  {
    AtKeyPush(key, k, s, x);
    if s != [] && key(s[|s| - 1]) > key(x) {
      var init, last := s[..|s| - 1], s[|s| - 1];
      InsertKeepsOrder(key, k, x, init);
      AtKeyPush(key, k, InsertBy(ByKey(key), x, init), last);
      AtKeyPush(key, k, init, x);
      assert key(last) != key(x);
    }
  }

  lemma {:induction false} SortKeepsOrder<T(!new)>(key: T -> nat, k: nat, s: seq<T>)
    ensures AtKey(key, k, SortByKey(key, s)) == AtKey(key, k, s)
  {
    if s != [] {
      var init, last := s[..|s| - 1], s[|s| - 1];
      assert s == init + [last];
      SortKeepsOrder(key, k, init);
      InsertKeepsOrder(key, k, last, SortByKey(key, init));
      AtKeyPush(key, k, SortByKey(key, init), last);
      AtKeyPush(key, k, init, last);
    }
  }

  lemma SortIsStable<T(!new)>(key: T -> nat, s: seq<T>)
    ensures IsStableSort(key, s, SortByKey(key, s))
    ensures multiset(SortByKey(key, s)) == multiset(s)
  {
    SortByIsSort(ByKey(key), s);
    var r := SortByKey(key, s);
    forall i, j | 0 <= i < j < |r| ensures key(r[i]) <= key(r[j]) {
      assert ByKey(key)(r[i], r[j]);
    }
    forall k ensures AtKey(key, k, SortByKey(key, s)) == AtKey(key, k, s) {
      SortKeepsOrder(key, k, s);
    }
  }

  lemma {:induction false} KeyPresent<T>(key: T -> nat, k: nat, s: seq<T>)
    requires AtKey(key, k, s) != []
    ensures exists i :: 0 <= i < |s| && key(s[i]) == k
  {
    if forall i :: 0 <= i < |s| ==> key(s[i]) != k {
      AtKeyAbsent(key, k, s);
    }
  }

  /** Any two stable sorts of the same sequence are equal, whatever algorithm found them. */
  lemma {:induction false} StableSortIsUnique<T(!new)>(key: T -> nat, a: seq<T>, b: seq<T>)
    requires Sorted(key, a) && Sorted(key, b)
    requires forall k :: AtKey(key, k, a) == AtKey(key, k, b)
    ensures a == b
  {
    if a == [] {
      if b != [] {
        KeyPresent(key, key(b[|b| - 1]), a);
      }
    } else {
      var init, x := a[..|a| - 1], a[|a| - 1];
      KeyPresent(key, key(x), b);
      var init', y := b[..|b| - 1], b[|b| - 1];
      KeyPresent(key, key(y), a);
      assert key(x) == key(y);
      var at := AtKey(key, key(x), a);
      assert at[|at| - 1] == x == y;
      forall k ensures AtKey(key, k, init) == AtKey(key, k, init') {
        AtKeyPush(key, k, init, x);
        AtKeyPush(key, k, init', x);
        assert AtKey(key, k, a)[..|AtKey(key, k, init)|] == AtKey(key, k, init);
        assert AtKey(key, k, b)[..|AtKey(key, k, init')|] == AtKey(key, k, init');
      }
      StableSortIsUnique(key, init, init');
      assert a == init + [x] && b == init' + [y];
    }
  }

  lemma {:induction false} FilterCommutes<T>(key: T -> nat, k: nat, p: T -> bool, s: seq<T>)
    ensures AtKey(key, k, Filter(p, s)) == Filter(p, AtKey(key, k, s))
  {
    if s != [] {
      var init, x := s[..|s| - 1], s[|s| - 1];
      FilterCommutes(key, k, p, init);
      assert s == init + [x];
      FilterPush(p, init, x);
      AtKeyPush(key, k, init, x);
      AtKeyPush(key, k, Filter(p, init), x);
      FilterPush(p, AtKey(key, k, init), x);
    }
  }

  lemma {:induction false} FilterIn<T>(p: T -> bool, s: seq<T>, x: T)
    ensures x in Filter(p, s) <==> x in s && p(x)
  {
    if s != [] {
      FilterIn(p, s[..|s| - 1], x);
      assert s == s[..|s| - 1] + [s[|s| - 1]];
    }
  }

  lemma {:induction false} FilterSorted<T(!new)>(key: T -> nat, p: T -> bool, s: seq<T>)
    requires Sorted(key, s)
    ensures Sorted(key, Filter(p, s))
  {
    if s != [] {
      var init, x := s[..|s| - 1], s[|s| - 1];
      FilterSorted(key, p, init);
      forall i | 0 <= i < |Filter(p, init)| ensures key(Filter(p, init)[i]) <= key(x) {
        FilterIn(p, init, Filter(p, init)[i]);
      }
    }
  }

  /** A selection that is already in key order comes through a stable sort unchanged. */
  lemma SortedSelectionKeepsOrder<T(!new)>(key: T -> nat, p: T -> bool, s: seq<T>)
    requires Sorted(key, Filter(p, s))
    ensures Filter(p, SortByKey(key, s)) == Filter(p, s)
  {
    var r := SortByKey(key, s);
    SortIsStable(key, s);
    FilterSorted(key, p, r);
    forall k ensures AtKey(key, k, Filter(p, r)) == AtKey(key, k, Filter(p, s)) {
      FilterCommutes(key, k, p, r);
      FilterCommutes(key, k, p, s);
    }
    StableSortIsUnique(key, Filter(p, r), Filter(p, s));
  }
}

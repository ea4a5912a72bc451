/** Type-to-filter state of a selector list: the query, the matching rows and the cursor. */
module FuzzyFilter {
  import opened Common
  import opened Fuzzy
  import opened Subsequences

  predicate Matches(a: Alphabet, query: string, item: string) {
    Subsequence(Fold(a, query), Fold(a, item))
  }

  /** The indices of the matching rows, in list order. */
  function MatchingRows(a: Alphabet, query: string, items: seq<string>): seq<nat> {
    if items == [] then [] else
    var n := |items| - 1;
    MatchingRows(a, query, items[..n]) + (if Matches(a, query, items[n]) then [n] else [])
  }

  /** Where `x` is in `s`. */
  function Position(s: seq<nat>, x: nat): (r: Option<nat>)
    ensures r.Some? ==> r.value < |s| && s[r.value] == x
    ensures r.None? ==> x !in s
  {
    if s == [] then None
    else if s[0] == x then Some(0)
    else match Position(s[1..], x) case Some(i) => Some(i + 1) case None => None
  }

  /** A filter and the cursor that lives in its rows. */
  datatype View = View(query: string, matches: seq<nat>, index: nat)

  predicate Active(v: View) { v.query != "" }

  /** The row of the unfiltered list under the cursor. */
  function Selected(v: View, total: nat): Option<nat> {
    if Active(v) then (if v.index < |v.matches| then Some(v.matches[v.index]) else None)
    else if v.index < total then Some(v.index) else None
  }

  /** The row an edit holds on to; without a query the cursor's own position. */
  function Kept(v: View): Option<nat> {
    if !Active(v) then Some(v.index)
    else if v.index < |v.matches| then Some(v.matches[v.index]) else None
  }

  function OrZero(o: Option<nat>): nat { if o.Some? then o.value else 0 }

  /** Change the query, refilter, and put the cursor back on its row. */
  function Edited(a: Alphabet, v: View, items: seq<string>, query: string): View {
    var kept := Kept(v);
    if query == "" then View("", [], OrZero(kept)) else
    var matches := MatchingRows(a, query, items);
    View(query, matches, if kept.Some? then OrZero(Position(matches, kept.value)) else 0)
  }

  datatype Edit = Push(c: char) | Pop | Clear | Refilter

  function Apply(a: Alphabet, v: View, items: seq<string>, e: Edit): View {
    match e
    case Push(c) => Edited(a, v, items, v.query + [c])
    case Pop => if Active(v) then Edited(a, v, items, v.query[..|v.query| - 1]) else v
    case Clear => if Active(v) then View("", [], OrZero(Kept(v))) else v
    case Refilter => Edited(a, v, items, v.query)
  }

  class Filter {
    const alphabet: Alphabet
    var query: string
    var matches: seq<nat>

    function State(index: nat): View reads this { View(query, matches, index) }

    constructor (alphabet: Alphabet)
      ensures this.alphabet == alphabet && query == "" && matches == []
    {
      this.alphabet, query, matches := alphabet, "", [];
    }

    /** Number of selectable rows. */
    function Len(total: nat): nat reads this { if query != "" then |matches| else total }

    /** Map a filtered position to its index in the unfiltered list. */
    function RealIndex(pos: nat, total: nat): (r: Option<nat>)
      reads this
      ensures r == Selected(State(pos), total)
      ensures r.Some? <==> pos < Len(total)
    {
      if query != "" then (if pos < |matches| then Some(matches[pos]) else None)
      else if pos < total then Some(pos) else None
    }

    /** The rows to render. */
    function VisibleIndices(total: nat): (r: seq<nat>)
      reads this
      ensures |r| == Len(total)
      ensures forall i :: 0 <= i < |r| ==> RealIndex(i, total) == Some(r[i])
    {
      if query != "" then matches else seq(total, i => i)
    }

    /** The shared edit path. */
    method EditQuery(items: seq<string>, index: nat, newQuery: string) returns (moved: nat)
      requires ValidAlphabet(alphabet)
      modifies this
      ensures State(moved) == Edited(alphabet, old(State(index)), items, newQuery)
    {
      var kept: Option<nat> :=
        if query == "" then Some(index)
        else if index < |matches| then Some(matches[index]) else None;
      query := newQuery;
      if query == "" {
        matches := [];
        return OrZero(kept);
      }
      matches := FilterRows(alphabet, query, items);
      return if kept.Some? then OrZero(Position(matches, kept.value)) else 0;
    }

    method PushChar(c: char, items: seq<string>, index: nat) returns (moved: nat)
      requires ValidAlphabet(alphabet)
      modifies this
      ensures State(moved) == Apply(alphabet, old(State(index)), items, Push(c))
    {
      moved := EditQuery(items, index, query + [c]);
    }

    method PopChar(items: seq<string>, index: nat) returns (moved: nat)
      requires ValidAlphabet(alphabet)
      modifies this
      ensures State(moved) == Apply(alphabet, old(State(index)), items, Pop)
    {
      moved := index;
      if query != "" {
        moved := EditQuery(items, index, query[..|query| - 1]);
      }
    }

    method ClearQuery(index: nat) returns (moved: nat)
      modifies this
      ensures forall items :: State(moved) == Apply(alphabet, old(State(index)), items, Clear)
    {
      if query == "" {
        return index;
      }
      moved := if index < |matches| then matches[index] else 0;
      query, matches := "", [];
    }

    method RefilterRows(items: seq<string>, index: nat) returns (moved: nat)
      requires ValidAlphabet(alphabet)
      modifies this
      ensures State(moved) == Apply(alphabet, old(State(index)), items, Refilter)
    {
      moved := EditQuery(items, index, query);
    }
  }

  /** The rows the matcher accepts. */
  method FilterRows(a: Alphabet, query: string, items: seq<string>) returns (rows: seq<nat>)
    requires ValidAlphabet(a)
    ensures rows == MatchingRows(a, query, items)
  {
    rows := [];
    var i := 0;
    while i < |items|
      invariant 0 <= i <= |items| && rows == MatchingRows(a, query, items[..i])
    {
      var m, _, _, _ := Match(a, query, items[i]);
      if m.Some? {
        rows := rows + [i];
      }
      assert items[..i + 1][..i] == items[..i];
      i := i + 1;
    }
    assert items[..i] == items;
  }

  // ---- What filtering guarantees -----------------------------------------------------------

  /** `rows` are exactly the matching rows, each once, in list order. */
  ghost predicate AreMatches(a: Alphabet, query: string, items: seq<string>, rows: seq<nat>) {
    && (forall i, j :: 0 <= i < j < |rows| ==> rows[i] < rows[j])
    && forall k :: k in rows <==> 0 <= k < |items| && Matches(a, query, items[k])
  }

  lemma {:induction false} RowsIncrease(a: Alphabet, query: string, items: seq<string>)
    ensures forall i :: 0 <= i < |MatchingRows(a, query, items)| ==>
      MatchingRows(a, query, items)[i] < |items|
    ensures forall i, j :: 0 <= i < j < |MatchingRows(a, query, items)| ==>
      MatchingRows(a, query, items)[i] < MatchingRows(a, query, items)[j]
  {
    if items != [] {
      RowsIncrease(a, query, items[..|items| - 1]);
    }
  }

  lemma {:induction false} RowIffMatches(a: Alphabet, query: string, items: seq<string>, k: int)
    ensures k in MatchingRows(a, query, items) <==> 0 <= k < |items| && Matches(a, query, items[k])
  {
    if items != [] {
      RowIffMatches(a, query, items[..|items| - 1], k);
    }
  }

  lemma MatchingRowsAreMatches(a: Alphabet, query: string, items: seq<string>)
    ensures AreMatches(a, query, items, MatchingRows(a, query, items))
  {
    RowsIncrease(a, query, items);
    forall k ensures k in MatchingRows(a, query, items) <==> 0 <= k < |items| && Matches(a, query, items[k]) {
      RowIffMatches(a, query, items, k);
    }
    hide MatchingRows;
  }

  /** The filter shows the matching rows, and the cursor is on one of them unless there is none. */
  predicate Consistent(a: Alphabet, v: View, items: seq<string>) {
    && v.matches == (if Active(v) then MatchingRows(a, v.query, items) else [])
    && (Selected(v, |items|).Some? || (v.index == 0 && (if Active(v) then v.matches == [] else items == [])))
  }

  /** Every edit keeps the filter consistent. */
  lemma EditKeepsConsistent(a: Alphabet, v: View, items: seq<string>, e: Edit)
    requires Consistent(a, v, items)
    ensures Consistent(a, Apply(a, v, items, e), items)
  {
    hide MatchingRows;
    KeptIsInList(a, v, items);
  }

  /** What an edit holds on to is a row of the list, unless the list is empty. */
  lemma KeptIsInList(a: Alphabet, v: View, items: seq<string>)
    requires Consistent(a, v, items)
    ensures Kept(v).Some? ==> Kept(v).value < |items| || (items == [] && Kept(v).value == 0)
    ensures Kept(v).None? ==> Active(v) && Selected(v, |items|).None?
    ensures Selected(v, |items|).Some? ==> Kept(v) == Selected(v, |items|)
  {
    RowsIncrease(a, v.query, items);
    hide MatchingRows;
    if Active(v) && v.index < |v.matches| {
      assert v.matches[v.index] < |items|;
    }
  }

  function Run(a: Alphabet, start: View, items: seq<string>, edits: seq<Edit>): View {
    if edits == [] then start
    else Apply(a, Run(a, start, items, edits[..|edits| - 1]), items, edits[|edits| - 1])
  }

  /** Over every sequence of edits the filter shows exactly the matching rows, cursor in bounds. */
  lemma {:induction false} RunShowsMatches(a: Alphabet, start: View, items: seq<string>, edits: seq<Edit>)
    requires Consistent(a, start, items)
    ensures var v := Run(a, start, items, edits);
      && Consistent(a, v, items)
      && (Active(v) ==> AreMatches(a, v.query, items, v.matches))
  {
    hide MatchingRows, Apply;
    if edits != [] {
      RunShowsMatches(a, start, items, edits[..|edits| - 1]);
      EditKeepsConsistent(a, Run(a, start, items, edits[..|edits| - 1]), items, edits[|edits| - 1]);
    }
    MatchingRowsAreMatches(a, Run(a, start, items, edits).query, items);
  }

  /**
   * The selected row stays selected while it still matches; when it drops out the first match is
   * selected, and leaving an empty result selects the first row.
   */
  lemma CursorFollowsItsRow(a: Alphabet, v: View, items: seq<string>, e: Edit)
    requires Consistent(a, v, items)
    ensures var v' := Apply(a, v, items, e);
      var before := Selected(v, |items|);
      var shown := if Active(v') then MatchingRows(a, v'.query, items) else seq(|items|, i => i);
      Selected(v', |items|) ==
        if before.Some? && before.value in shown then before
        else if shown != [] then Some(shown[0]) else None
  {
    hide MatchingRows;
    KeptIsInList(a, v, items);
    RowsIncrease(a, Apply(a, v, items, e).query, items);
    if Selected(v, |items|).Some? {
      AllRows(|items|, Selected(v, |items|).value);
    }
  }

  lemma AllRows(total: nat, k: nat)
    ensures k in seq(total, i => i) <==> k < total
  {
    if k < total {
      assert seq(total, i => i)[k] == k;
    }
  }

  lemma FoldPush(a: Alphabet, q: string, c: char)
    ensures Fold(a, q + [c])[..|q|] == Fold(a, q)
  {}

  /** The text a line of input holds after the same edits. */
  function Typed(start: string, edits: seq<Edit>): string {
    if edits == [] then start else
    var before := Typed(start, edits[..|edits| - 1]);
    match edits[|edits| - 1]
    case Push(c) => before + [c]
    case Pop => if before == "" then "" else before[..|before| - 1]
    case Clear => ""
    case Refilter => before
  }

  /** Whatever the list, the query is what was typed, and without one nothing is filtered. */
  lemma {:induction false} QueryIsTyped(a: Alphabet, start: View, items: seq<string>, edits: seq<Edit>)
    ensures Run(a, start, items, edits).query == Typed(start.query, edits)
    ensures edits != [] && edits[|edits| - 1] == Clear ==>
      !Active(Run(a, start, items, edits)) && forall i :: 0 <= i < |items| ==>
        Selected(Run(a, start, items, edits).(index := i), |items|) == Some(i)
  {
    hide MatchingRows;
    if edits != [] {
      QueryIsTyped(a, start, items, edits[..|edits| - 1]);
    }
  }

  /** A longer query only narrows the matches. */
  lemma PushNarrows(a: Alphabet, query: string, c: char, items: seq<string>)
    ensures forall k :: k in MatchingRows(a, query + [c], items) ==> k in MatchingRows(a, query, items)
  {
    MatchingRowsAreMatches(a, query, items);
    MatchingRowsAreMatches(a, query + [c], items);
    hide MatchingRows;
    forall k | k in MatchingRows(a, query + [c], items) ensures k in MatchingRows(a, query, items) {
      SubsequenceOfPrefix(Fold(a, query + [c]), Fold(a, items[k]), |query|);
      FoldPush(a, query, c);
    }
  }

  /**
   * A pop after a push restores query and matches; it restores the cursor exactly when the selected
   * row survived the push, or nothing did and the first visible row was selected.
   */
  lemma PopUndoesPush(a: Alphabet, v: View, c: char, items: seq<string>)
    requires Consistent(a, v, items) && Selected(v, |items|).Some?
    ensures var v' := Apply(a, Apply(a, v, items, Push(c)), items, Pop);
      var row, narrowed := Selected(v, |items|).value, MatchingRows(a, v.query + [c], items);
      && v'.query == v.query && v'.matches == v.matches
      && (v'.index == v.index <==> row in narrowed || (narrowed == [] && v.index == 0))
  {
    hide MatchingRows;
    var row, narrowed := Selected(v, |items|).value, MatchingRows(a, v.query + [c], items);
    var mid := Apply(a, v, items, Push(c));
    assert (v.query + [c])[..|v.query + [c]| - 1] == v.query;
    KeptIsInList(a, v, items);
    EditKeepsConsistent(a, v, items, Push(c));
    KeptIsInList(a, mid, items);
    RowsIncrease(a, v.query, items);
    PushNarrows(a, v.query, c, items);
    if narrowed != [] {
      assert narrowed[0] in narrowed;
    }
  }

  /**
   * After the list itself changed, a refilter leaves the cursor valid exactly when a query is
   * active or the cursor was within the new list already: without a query nothing moves it.
   */
  lemma RefilterAfterChange(a: Alphabet, v: View, items: seq<string>, changed: seq<string>)
    requires Consistent(a, v, items)
    ensures Consistent(a, Apply(a, v, changed, Refilter), changed)
      <==> Active(v) || v.index < |changed| || (changed == [] && v.index == 0)
  {
    hide MatchingRows;
  }
}

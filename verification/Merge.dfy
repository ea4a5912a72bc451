/** Merging the main transcript's events with every subagent's into one timestamp-ordered stream. */
module Merge {
  import opened Common
  import opened Sorting
  import opened StableSort

  datatype ActionKind = Prompt | Action

  datatype Event = Event(ts: Option<nat>, kind: ActionKind, detail: string, origin: Option<string>)

  /** An event with the timestamp it sorts by. */
  type Keyed = (nat, Event)

  function Key(k: Keyed): nat { k.0 }

  /** A subagent's prompt is not a turn of the merged conversation. */
  predicate Kept(e: Event, origin: Option<string>) { origin.None? || !e.kind.Prompt? }

  function Stamped(e: Event, origin: Option<string>): Event {
    if origin.Some? then e.(origin := origin) else e
  }

  /** The stream's first timestamp; 0 when it has none. */
  function FirstStamp(events: seq<Event>): nat {
    if events == [] then 0
    else if events[0].ts.Some? then events[0].ts.value
    else FirstStamp(events[1..])
  }

  /** The latest timestamp among the kept events before `n`. */
  function LastStamp(events: seq<Event>, origin: Option<string>, n: nat): Option<nat>
    requires n <= |events|
  {
    if n == 0 then None
    else if Kept(events[n - 1], origin) && events[n - 1].ts.Some? then events[n - 1].ts
    else LastStamp(events, origin, n - 1)
  }

  /** The timestamp an unstamped event behind the first `n` inherits: the last kept one, else the stream's first. */
  function Inherited(events: seq<Event>, origin: Option<string>, n: nat): nat
    requires n <= |events|
  {
    match LastStamp(events, origin, n) case Some(t) => t case None => FirstStamp(events)
  }

  /** The timestamp an event sorts by: its own, else the inherited one. */
  function EffectiveKey(events: seq<Event>, origin: Option<string>, i: nat): nat
    requires i < |events|
  {
    if events[i].ts.Some? then events[i].ts.value else Inherited(events, origin, i)
  }

  /** What the first `n` events of a stream contribute to the merge. */
  function Stream(events: seq<Event>, origin: Option<string>, n: nat): seq<Keyed>
    requires n <= |events|
  {
    if n == 0 then []
    else
      var init, e := Stream(events, origin, n - 1), events[n - 1];
      if Kept(e, origin) then init + [(EffectiveKey(events, origin, n - 1), Stamped(e, origin))] else init
  }

  /** Every stream of the merge, main first and then the subagents in their path order. */
  function Streams(main: seq<Event>, subs: seq<(seq<Event>, string)>): seq<seq<Keyed>>
  {
    if subs == [] then [Stream(main, None, |main|)]
    else
      var (events, origin) := subs[|subs| - 1];
      Streams(main, subs[..|subs| - 1]) + [Stream(events, Some(origin), |events|)]
  }

  function Events(s: seq<Keyed>): seq<Event> { seq(|s|, i requires 0 <= i < |s| => s[i].1) }

  function Merged(main: seq<Event>, subs: seq<(seq<Event>, string)>): seq<Event> {
    Events(SortByKey(Key, Flatten(Streams(main, subs))))
  }

  /** Append one stream to the list that will be sorted. */
  method PushStream(all: seq<Keyed>, events: seq<Event>, origin: Option<string>) returns (r: seq<Keyed>)
    ensures r == all + Stream(events, origin, |events|)
  {
    r := all;
    var last := FirstStamp(events);
    var n := 0;
    while n < |events|
      invariant 0 <= n <= |events|
      invariant r == all + Stream(events, origin, n)
      invariant last == Inherited(events, origin, n)
    {
      var e := events[n];
      n := n + 1;
      if origin.Some? && e.kind.Prompt? {
        continue;
      }
      var key := if e.ts.Some? then e.ts.value else last;
      last := key;
      r := r + [(key, Stamped(e, origin))];
    }
  }

  /** Rebuild the merged stream. */
  method RebuildMerged(main: seq<Event>, subs: seq<(seq<Event>, string)>) returns (merged: seq<Event>)
    ensures merged == Merged(main, subs)
  {
    var all := PushStream([], main, None);
    var k := 0;
    while k < |subs|
      invariant 0 <= k <= |subs|
      invariant all == Flatten(Streams(main, subs[..k]))
    {
      var (events, origin) := subs[k];
      all := PushStream(all, events, Some(origin));
      assert subs[..k + 1][..k] == subs[..k];
      FlattenOne(Streams(main, subs[..k]), Stream(events, Some(origin), |events|));
      k := k + 1;
    }
    assert subs[..k] == subs;
    all := SortByKey(Key, all);
    merged := Events(all);
  }

  // ---- What the merge guarantees -----------------------------------------------------------

  /** The events a stream contributes: the kept ones, in order, labelled with the origin. */
  function Contribution(events: seq<Event>, origin: Option<string>): seq<Event> {
    var kept := Filter(KeptFor(origin), events);
    seq(|kept|, i requires 0 <= i < |kept| => Stamped(kept[i], origin))
  }

  function KeptFor(origin: Option<string>): Event -> bool { e => Kept(e, origin) }

  lemma {:induction false} StreamIsContribution(events: seq<Event>, origin: Option<string>, n: nat)
    requires n <= |events|
    ensures Events(Stream(events, origin, n)) == Contribution(events[..n], origin)
  {
    if n > 0 {
      StreamIsContribution(events, origin, n - 1);
      var init, e := events[..n - 1], events[n - 1];
      assert events[..n] == init + [e];
      FilterPush(KeptFor(origin), init, e);
      var kept := Contribution(init, origin);
      assert Contribution(events[..n], origin) == if Kept(e, origin) then kept + [Stamped(e, origin)] else kept;
    }
  }

  /**
   * Read event by event: main contributes everything as it is; a subagent everything but its prompts,
   * labelled; and every event that is contributed carries its effective timestamp, in order.
   */
  lemma {:induction false} StreamAt(events: seq<Event>, origin: Option<string>, i: nat, n: nat)
    requires i < n <= |events|
    ensures var before, stream := Stream(events, origin, i), Stream(events, origin, n);
      && before <= stream
      && (origin.None? ==> |before| == i && |stream| == n && stream[i] == (EffectiveKey(events, origin, i), events[i]))
      && (origin.Some? && events[i].kind.Prompt? ==> Stream(events, origin, i + 1) == before)
      && (origin.Some? && !events[i].kind.Prompt? ==>
            |before| < |stream|
            && stream[|before|] == (EffectiveKey(events, origin, i), events[i].(origin := origin)))
  {
    hide EffectiveKey;
    if i < n - 1 {
      StreamAt(events, origin, i, n - 1);
    } else if i > 0 {
      StreamAt(events, origin, i - 1, i);
    }
  }

  // ---- The timestamp an event sorts by ------------------------------------------------------

  /** Event `j` hands its timestamp on: it bears one and is not skipped. */
  predicate HandsOn(events: seq<Event>, origin: Option<string>, j: nat)
    requires j < |events|
  {
    events[j].ts.Some? && (origin.Some? ==> !events[j].kind.Prompt?)
  }

  /** An unstamped event sorts by the last timestamp handed on before it. */
  lemma InheritsLast(events: seq<Event>, origin: Option<string>, i: nat, j: nat)
    requires j < i < |events| && events[i].ts.None? && HandsOn(events, origin, j)
    requires forall k :: j < k < i ==> !HandsOn(events, origin, k)
    ensures EffectiveKey(events, origin, i) == events[j].ts.value
  {
    LastStampIs(events, origin, i, j);
  }

  lemma {:induction false} LastStampIs(events: seq<Event>, origin: Option<string>, n: nat, j: nat)
    requires j < n <= |events| && HandsOn(events, origin, j) && forall k :: j < k < n ==> !HandsOn(events, origin, k)
    ensures LastStamp(events, origin, n) == events[j].ts
  {
    if j < n - 1 {
      assert !HandsOn(events, origin, n - 1);
      LastStampIs(events, origin, n - 1, j);
    }
  }

  lemma {:induction false} NoneHandedOn(events: seq<Event>, origin: Option<string>, n: nat)
    requires n <= |events| && forall k :: 0 <= k < n ==> !HandsOn(events, origin, k)
    ensures LastStamp(events, origin, n) == None
  {
    if n > 0 {
      assert !HandsOn(events, origin, n - 1);
      NoneHandedOn(events, origin, n - 1);
    }
  }

  /** With none handed on before it, it sorts by the stream's first timestamp, whoever bears it, or by 0. */
  lemma InheritsFirst(events: seq<Event>, origin: Option<string>, i: nat, j: nat)
    requires i < |events| && events[i].ts.None? && forall k :: 0 <= k < i ==> !HandsOn(events, origin, k)
    requires j <= |events| && (forall k :: 0 <= k < j ==> events[k].ts.None?) && (j < |events| ==> events[j].ts.Some?)
    ensures EffectiveKey(events, origin, i) == if j < |events| then events[j].ts.value else 0
  {
    NoneHandedOn(events, origin, i);
    FirstStampIs(events, j);
  }

  lemma {:induction false} FirstStampIs(events: seq<Event>, j: nat)
    requires j <= |events| && (forall k :: 0 <= k < j ==> events[k].ts.None?) && (j < |events| ==> events[j].ts.Some?)
    ensures FirstStamp(events) == if j < |events| then events[j].ts.value else 0
  {
    if j > 0 {
      FirstStampIs(events[1..], j - 1);
    }
  }

  // ---- The documented timestamp ------------------------------------------------------------

  /** The timestamp the documentation sorts an event by: its own, else the last one seen in its stream. */
  function DocumentedKey(events: seq<Event>, i: nat): nat
    requires i < |events|
  {
    EffectiveKey(events, None, i)
  }

  /** The last timestamp before unstamped event `i` is a skipped prompt's, and differs from what is inherited. */
  predicate PassesOver(events: seq<Event>, origin: Option<string>, i: nat, j: nat)
    requires j < i < |events|
  {
    && events[i].ts.None? && events[j].ts.Some? && (forall k :: j < k < i ==> events[k].ts.None?)
    && !Kept(events[j], origin) && events[j].ts.value != Inherited(events, origin, j)
  }

  lemma {:induction false} NoStampBetween(events: seq<Event>, origin: Option<string>, j: nat, n: nat)
    requires j <= n <= |events| && forall k :: j <= k < n ==> events[k].ts.None?
    ensures LastStamp(events, origin, n) == LastStamp(events, origin, j)
  {
    if j < n {
      NoStampBetween(events, origin, j, n - 1);
    }
  }

  /** Where the last timestamp before `n` is. */
  lemma {:induction false} LastStamped(events: seq<Event>, n: nat) returns (at: Option<nat>)
    requires n <= |events|
    ensures at.None? ==> forall k :: 0 <= k < n ==> events[k].ts.None?
    ensures at.Some? ==>
      at.value < n && events[at.value].ts.Some? && forall k :: at.value < k < n ==> events[k].ts.None?
  {
    if n == 0 {
      at := None;
    } else if events[n - 1].ts.Some? {
      at := Some(n - 1);
    } else {
      at := LastStamped(events, n - 1);
    }
  }

  /** An event sorts by its documented timestamp exactly when no skipped prompt's is passed over. */
  lemma KeyIsDocumentedIff(events: seq<Event>, origin: Option<string>, i: nat)
    requires i < |events|
    ensures EffectiveKey(events, origin, i) == DocumentedKey(events, i)
      <==> !exists j :: 0 <= j < i && PassesOver(events, origin, i, j)
  {
    if events[i].ts.None? {
      var at := LastStamped(events, i);
      if at.None? {
        NoStampBetween(events, origin, 0, i);
        NoStampBetween(events, None, 0, i);
      } else {
        var j := at.value;
        NoStampBetween(events, origin, j + 1, i);
        NoStampBetween(events, None, j + 1, i);
        assert EffectiveKey(events, origin, i) == DocumentedKey(events, i) <==> !PassesOver(events, origin, i, j);
        assert events[j].ts.Some? && forall m :: 0 <= m < i && PassesOver(events, origin, i, m) ==> m == j;
      }
    }
  }

  /** A subagent's event behind its prompt sorts ahead of it: 10 instead of the documented 20. */
  lemma PromptStampIsPassedOver(origin: string, events: seq<Event>)
    requires events ==
      [Event(Some(10), Action, "a", None), Event(Some(20), Prompt, "p", None), Event(None, Action, "b", None)]
    ensures EffectiveKey(events, Some(origin), 2) == 10 && DocumentedKey(events, 2) == 20
  {
    assert LastStamp(events, Some(origin), 1) == Some(10) && LastStamp(events, Some(origin), 2) == Some(10);
  }

  // ---- Where each event of the merge came from ---------------------------------------------

  /** An element of the merge with the number of the stream it came from. */
  type Tagged = (nat, nat, Event)

  function TaggedKey(t: Tagged): nat { t.0 }

  function Untag(t: Tagged): Keyed { (t.0, t.2) }

  function TagStream(j: nat, s: seq<Keyed>): seq<Tagged> {
    seq(|s|, i requires 0 <= i < |s| => (s[i].0, j, s[i].1))
  }

  function TagAll(streams: seq<seq<Keyed>>): seq<Tagged> {
    if streams == [] then []
    else TagAll(streams[..|streams| - 1]) + TagStream(|streams| - 1, streams[|streams| - 1])
  }

  function Untagged(s: seq<Tagged>): seq<Keyed> { seq(|s|, i requires 0 <= i < |s| => Untag(s[i])) }

  predicate FromStream(j: nat, t: Tagged) { t.1 == j }

  lemma {:induction false} UntagAll(streams: seq<seq<Keyed>>)
    ensures Untagged(TagAll(streams)) == Flatten(streams)
  {
    if streams != [] {
      UntagAll(streams[..|streams| - 1]);
    }
  }

  lemma {:induction false} FilterAll<T>(p: T -> bool, s: seq<T>)
    requires forall i :: 0 <= i < |s| ==> p(s[i])
    ensures Filter(p, s) == s
  {
    if s != [] {
      FilterAll(p, s[..|s| - 1]);
    }
  }

  lemma {:induction false} FilterNone<T>(p: T -> bool, s: seq<T>)
    requires forall i :: 0 <= i < |s| ==> !p(s[i])
    ensures Filter(p, s) == []
  {
    if s != [] {
      FilterNone(p, s[..|s| - 1]);
    }
  }

  lemma {:induction false} TagsSelectStream(p: Tagged -> bool, streams: seq<seq<Keyed>>, j: nat)
    requires forall t :: p(t) <==> FromStream(j, t)
    ensures Filter(p, TagAll(streams)) == if j < |streams| then TagStream(j, streams[j]) else []
  {
    if streams != [] {
      var init, n := streams[..|streams| - 1], |streams| - 1;
      TagsSelectStream(p, init, j);
      FilterAppend(p, TagAll(init), TagStream(n, streams[n]));
      if j == n {
        FilterAll(p, TagStream(n, streams[n]));
      } else {
        FilterNone(p, TagStream(n, streams[n]));
      }
    }
  }

  lemma {:induction false} InsertUntagged(x: Tagged, s: seq<Tagged>)
    ensures Untagged(InsertBy(ByKey(TaggedKey), x, s)) == InsertBy(ByKey(Key), Untag(x), Untagged(s))
  {
    if s != [] {
      var last := s[|s| - 1];
      assert Untagged(s)[|s| - 1] == Untag(last);
      assert ByKey(TaggedKey)(last, x) <==> TaggedKey(last) <= TaggedKey(x);
      assert ByKey(Key)(Untag(last), Untag(x)) <==> Key(Untag(last)) <= Key(Untag(x));
      InsertUntagged(x, s[..|s| - 1]);
      assert Untagged(s)[..|s| - 1] == Untagged(s[..|s| - 1]);
    }
  }

  lemma {:induction false} SortUntagged(s: seq<Tagged>)
    ensures Untagged(SortByKey(TaggedKey, s)) == SortByKey(Key, Untagged(s))
  {
    if s != [] {
      SortUntagged(s[..|s| - 1]);
      InsertUntagged(s[|s| - 1], SortByKey(TaggedKey, s[..|s| - 1]));
      assert Untagged(s)[..|s| - 1] == Untagged(s[..|s| - 1]);
    }
  }

  /**
   * The merge is a stable sort of its streams by effective timestamp: nothing is lost or invented,
   * and ties keep the streams' order, main before subagents. The tags say where each element came
   * from.
   */
  lemma MergeIsStable(main: seq<Event>, subs: seq<(seq<Event>, string)>)
    ensures var all := TagAll(Streams(main, subs));
      var tags := SortByKey(TaggedKey, all);
      && Events(Untagged(tags)) == Merged(main, subs)
      && multiset(tags) == multiset(all)
      && IsStableSort(TaggedKey, all, tags)
  {
    var all := TagAll(Streams(main, subs));
    SortIsStable(TaggedKey, all);
    UntagAll(Streams(main, subs));
    SortUntagged(all);
  }

  /** `view` is a stable merge of `streams`: `tags` says where each of its events came from. */
  ghost predicate MergesBy(view: seq<Event>, streams: seq<seq<Keyed>>, tags: seq<Tagged>) {
    && Events(Untagged(tags)) == view
    && multiset(tags) == multiset(TagAll(streams)) && IsStableSort(TaggedKey, TagAll(streams), tags)
  }

  ghost predicate IsMergeOf(view: seq<Event>, streams: seq<seq<Keyed>>) {
    exists tags :: MergesBy(view, streams, tags)
  }

  lemma MergedIsMerge(main: seq<Event>, subs: seq<(seq<Event>, string)>)
    ensures IsMergeOf(Merged(main, subs), Streams(main, subs))
  {
    MergeIsStable(main, subs);
    hide Merged, IsStableSort, SortBy, TagAll, Untagged, Events;
    assert MergesBy(Merged(main, subs), Streams(main, subs), SortByKey(TaggedKey, TagAll(Streams(main, subs))));
  }

  /** The streams of a merge: main's, then each subagent's. */
  lemma {:induction false} StreamsAre(main: seq<Event>, subs: seq<(seq<Event>, string)>)
    ensures |Streams(main, subs)| == |subs| + 1 && Streams(main, subs)[0] == Stream(main, None, |main|)
    ensures forall j :: 0 <= j < |subs| ==>
      Streams(main, subs)[j + 1] == Stream(subs[j].0, Some(subs[j].1), |subs[j].0|)
  {
    hide Stream;
    if subs != [] {
      StreamsAre(main, subs[..|subs| - 1]);
    }
  }

  /** A stream whose effective timestamps never decrease comes through the merge in order. */
  lemma OrderedStreamStaysInOrder(main: seq<Event>, subs: seq<(seq<Event>, string)>, j: nat, p: Tagged -> bool)
    requires j < |Streams(main, subs)| && Sorted(Key, Streams(main, subs)[j])
    requires forall t :: p(t) <==> FromStream(j, t)
    ensures Filter(p, SortByKey(TaggedKey, TagAll(Streams(main, subs)))) == TagStream(j, Streams(main, subs)[j])
  {
    TagsSelectStream(p, Streams(main, subs), j);
    SortedSelectionKeepsOrder(TaggedKey, p, TagAll(Streams(main, subs)));
  }

  /** The number and contents of the streams: main's events, then each subagent's without prompts. */
  lemma {:induction false} StreamContents(main: seq<Event>, subs: seq<(seq<Event>, string)>)
    ensures |Streams(main, subs)| == |subs| + 1
    ensures Events(Streams(main, subs)[0]) == Contribution(main, None)
    ensures forall j :: 0 <= j < |subs| ==>
      Events(Streams(main, subs)[j + 1]) == Contribution(subs[j].0, Some(subs[j].1))
  {
    if subs == [] {
      StreamIsContribution(main, None, |main|);
      assert main[..|main|] == main;
    } else {
      var init := subs[..|subs| - 1];
      var (events, origin) := subs[|subs| - 1];
      StreamContents(main, init);
      StreamIsContribution(events, Some(origin), |events|);
      assert events[..|events|] == events;
    }
  }
}

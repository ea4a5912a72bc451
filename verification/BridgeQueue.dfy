/** The bridge request queue: listing, taking, answering and recovering requests. */
module BridgeQueue {
  import opened BridgeResponses
  import opened Common
  import opened Sorting
  import opened StagedNames

  const MAX_UNANSWERED_REQUESTS: nat := 16
  const MAX_QUEUE_SCAN: nat := 256

  /** A file a client left; `readable` means a regular UTF-8 file within the size limit. */
  datatype File = File(readable: bool, text: string)

  type Directory = map<string, File>

  datatype TakenRequest = TakenRequest(session: string, key: string, text: string, staged: string)

  datatype Refusal = BadName(raw: string) | Unreadable(key: string) | Quota

  // ---- Listing -----------------------------------------------------------------------------

  predicate Wanted(entry: Option<string>) {
    entry.Some? && entry.value != "." && entry.value != ".." && EndsWith(entry.value, REQ)
  }

  /** The request names among directory entries; an entry without a name is not UTF-8. */
  function WantedNames(entries: seq<Option<string>>): seq<string> {
    if entries == [] then [] else
    var n := |entries| - 1;
    WantedNames(entries[..n]) + (if Wanted(entries[n]) then [entries[n].value] else [])
  }

  /** Of the entries that have a name, exactly those ending in `.req` are wanted, as often as they are listed. */
  lemma {:induction false} WantedAre(entries: seq<Option<string>>, x: string)
    ensures multiset(WantedNames(entries))[x] ==
      if |x| >= 4 && x[|x| - 4..] == ".req" then multiset(entries)[Some(x)] else 0
  {
    if entries != [] {
      var init, last := entries[..|entries| - 1], entries[|entries| - 1];
      assert entries == init + [last];
      WantedAre(init, x);
    }
  }

  /** Read entries until there are more than `max` requests, or as many entries as a scan may. */
  method Names(listing: seq<Option<string>>, max: nat) returns (names: seq<string>, scanned: nat)
    ensures scanned <= |listing| && scanned <= MAX_QUEUE_SCAN
    ensures names == WantedNames(listing[..scanned]) && |names| <= max + 1
    ensures scanned == |listing| || scanned == MAX_QUEUE_SCAN || |names| > max
    ensures forall n :: 0 <= n < scanned ==> |WantedNames(listing[..n])| <= max
  {
    names, scanned := [], 0;
    while scanned < |listing|
      invariant 0 <= scanned <= |listing| && scanned < MAX_QUEUE_SCAN
      invariant names == WantedNames(listing[..scanned]) && |names| <= max
      invariant forall n :: 0 <= n <= scanned ==> |WantedNames(listing[..n])| <= max
    {
      var entry := listing[scanned];
      assert listing[..scanned + 1][..scanned] == listing[..scanned];
      scanned := scanned + 1;
      if Wanted(entry) {
        names := names + [entry.value];
      }
      if |names| > max || scanned >= MAX_QUEUE_SCAN {
        break;
      }
    }
  }

  // ---- Taking ------------------------------------------------------------------------------

  /** A session's queue, the staging directory every session shares, and one call's results. */
  datatype Taking = Taking(queue: Directory, staging: Directory,
                           taken: seq<TakenRequest>, refused: seq<Refusal>)

  /** What one name in a take does. */
  function TakeOne(t: Taking, session: string, name: string): Taking {
    var key := TrimReq(name);
    if !ValidKey(key) then t.(queue := t.queue - {name}, refused := t.refused + [BadName(key)]) else
    var staged := StagedName(session, key);
    var cleared := t.staging - {staged};
    if name !in t.queue then t.(staging := cleared)
    else if t.queue[name].readable then
      Taking(t.queue - {name}, cleared[staged := t.queue[name]],
             t.taken + [TakenRequest(session, key, t.queue[name].text, staged)], t.refused)
    else Taking(t.queue - {name}, cleared, t.taken, t.refused + [Unreadable(key)])
  }

  function TakeAll(t: Taking, session: string, names: seq<string>): Taking {
    if names == [] then t
    else TakeOne(TakeAll(t, session, names[..|names| - 1]), session, names[|names| - 1])
  }

  lemma SortedNames(names: seq<string>)
    ensures var sorted := SortBy(NameOrder(), names);
      SortedBy(NameOrder(), sorted) && multiset(sorted) == multiset(names) && |sorted| == |names|
  {
    NamesAreOrdered();
    SortByIsSort(NameOrder(), names);
    hide IsTotalPreorder, SortBy, SortedBy;
    var sorted := SortBy(NameOrder(), names);
    assert |multiset(sorted)| == |sorted| && |multiset(names)| == |names|;
  }

  lemma PrefixIsSorted(s: seq<string>, n: nat)
    requires SortedBy(NameOrder(), s) && n <= |s|
    ensures SortedBy(NameOrder(), s[..n])
  {
    hide NameLe;
  }

  /** No name that is left behind comes before one that is chosen. */
  ghost predicate FirstInOrder(names: seq<string>, chosen: seq<string>) {
    forall c, x :: c in chosen && multiset(names)[x] > multiset(chosen)[x] ==> NameLe(c, x)
  }

  lemma PrefixComesFirst(names: seq<string>, sorted: seq<string>, n: nat)
    requires SortedBy(NameOrder(), sorted) && multiset(sorted) == multiset(names) && n <= |sorted|
    ensures FirstInOrder(names, sorted[..n])
  {
    hide NameLe, SortedBy;
    var chosen, rest := sorted[..n], sorted[n..];
    assert sorted == chosen + rest;
    forall c, x | c in chosen && multiset(names)[x] > multiset(chosen)[x] ensures NameLe(c, x) {
      assert multiset(rest)[x] > 0;
      var j :| 0 <= j < |rest| && rest[j] == x;
      var i :| 0 <= i < |chosen| && chosen[i] == c;
      InSortedOrder(sorted, i, n + j);
    }
  }

  lemma InSortedOrder(sorted: seq<string>, i: nat, j: nat)
    requires SortedBy(NameOrder(), sorted) && i < j < |sorted|
    ensures NameLe(sorted[i], sorted[j])
  {
    assert NameOrder()(sorted[i], sorted[j]);
  }

  /** Put names in order and cap them, at the quota and at `limit`. */
  method Capped(names: seq<string>, limit: nat) returns (chosen: seq<string>, over: bool)
    ensures over == (|names| > MAX_UNANSWERED_REQUESTS)
    ensures |chosen| == Min(Min(limit, MAX_UNANSWERED_REQUESTS), |names|)
    ensures SortedBy(NameOrder(), chosen) && multiset(chosen) <= multiset(names)
    ensures FirstInOrder(names, chosen)
  {
    hide FirstInOrder;
    hide SortedBy, NameOrder;
    var sorted := SortBy(NameOrder(), names);
    SortedNames(names);
    hide SortBy;
    over := |sorted| > MAX_UNANSWERED_REQUESTS;
    var quota := if over then sorted[..MAX_UNANSWERED_REQUESTS] else sorted;
    chosen := quota[..Min(limit, |quota|)];
    assert chosen == sorted[..|chosen|];
    PrefixElements(sorted, |chosen|);
    PrefixIsSorted(sorted, |chosen|);
    PrefixComesFirst(names, sorted, |chosen|);
  }

  /** The names one take works through: listed within the bounds, in name order, capped. */
  method ChooseNames(listing: seq<Option<string>>, limit: nat)
    returns (chosen: seq<string>, over: bool, scanned: nat)
    ensures scanned <= MAX_QUEUE_SCAN && scanned <= |listing|
    ensures over == (|WantedNames(listing[..scanned])| > MAX_UNANSWERED_REQUESTS)
    ensures |chosen| == Min(Min(limit, MAX_UNANSWERED_REQUESTS), |WantedNames(listing[..scanned])|)
    ensures SortedBy(NameOrder(), chosen)
    ensures multiset(chosen) <= multiset(WantedNames(listing[..scanned]))
    ensures FirstInOrder(WantedNames(listing[..scanned]), chosen)
    ensures scanned == |listing| || scanned == MAX_QUEUE_SCAN || over
    ensures forall n :: 0 <= n < scanned ==> |WantedNames(listing[..n])| <= MAX_UNANSWERED_REQUESTS
  {
    hide WantedNames, SortedBy, NameOrder, FirstInOrder;
    var names;
    names, scanned := Names(listing, MAX_UNANSWERED_REQUESTS);
    chosen, over := Capped(names, limit);
  }

  /** The two directories a take works on. */
  class Broker {
    var queue: Directory
    var staging: Directory

    constructor (queue: Directory, staging: Directory)
      ensures this.queue == queue && this.staging == staging
    {
      this.queue, this.staging := queue, staging;
    }

    /** Move one request file out of the queue and read it, or drop what is no request. */
    method TakeName(session: string, name: string, taken: seq<TakenRequest>, refused: seq<Refusal>)
      returns (outcome: (seq<TakenRequest>, seq<Refusal>))
      modifies this
      ensures Taking(queue, staging, outcome.0, outcome.1)
        == TakeOne(Taking(old(queue), old(staging), taken, refused), session, name)
    {
      var key := TrimReq(name);
      if !ValidKey(key) {
        queue := queue - {name};
        return (taken, refused + [BadName(key)]);
      }
      var staged := StagedName(session, key);
      staging := staging - {staged};
      if name !in queue {
        return (taken, refused);
      }
      var file := queue[name];
      queue := queue - {name};
      if file.readable {
        staging := staging[staged := file];
        return (taken + [TakenRequest(session, key, file.text, staged)], refused);
      }
      return (taken, refused + [Unreadable(key)]);
    }

    /**
     * Answer one taken request: write the answer there is now, or leave a deferred one to its saga.
     * The request is finished either way, also when its answer could not be written.
     */
    method Serve(taken: TakenRequest, reply: Reply, responses: ResponseDir) returns (written: bool)
      requires responses.Valid()
      modifies this`staging, responses
      ensures responses.Valid()
      ensures written == Writes(reply)
      ensures staging == old(staging) - {taken.staged}
      ensures written ==>
        FinalName(taken.key) in responses.files && responses.files[FinalName(taken.key)] == reply.body
      ensures forall n :: n != TempName(taken.key) && (written ==> n != FinalName(taken.key)) ==>
        (n in responses.files <==> n in old(responses.files))
        && (n in responses.files ==> responses.files[n] == old(responses.files)[n])
    {
      written := false;
      if reply.Answer? {
        NamesApart(taken.key);
        written := responses.Write(taken.key, reply.body, reply.disk);
      }
      staging := staging - {taken.staged};
      forall n | n != TempName(taken.key) && (written ==> n != FinalName(taken.key))
        ensures n in responses.files <==> n in old(responses.files)
        ensures n in responses.files ==> responses.files[n] == old(responses.files)[n]
      {
        Elsewhere(responses.files, old(responses.files), taken.key, reply, n);
      }
    }

    /**
     * Take every request waiting in one session's queue, up to `limit` and the quota. The work is
     * bounded by the scan, the quota and `limit`, however full the queue is.
     */
    method TakeRequests(session: string, listing: seq<Option<string>>, limit: nat)
      returns (taken: seq<TakenRequest>, refused: seq<Refusal>, ghost chosen: seq<string>, ghost scanned: nat)
      modifies this
      ensures scanned <= MAX_QUEUE_SCAN && scanned <= |listing|
      ensures |chosen| == Min(Min(limit, MAX_UNANSWERED_REQUESTS), |WantedNames(listing[..scanned])|)
      ensures SortedBy(NameOrder(), chosen) && multiset(chosen) <= multiset(WantedNames(listing[..scanned]))
      ensures FirstInOrder(WantedNames(listing[..scanned]), chosen)
      ensures scanned == |listing| || scanned == MAX_QUEUE_SCAN
        || |WantedNames(listing[..scanned])| > MAX_UNANSWERED_REQUESTS
      ensures forall n :: 0 <= n < scanned ==> |WantedNames(listing[..n])| <= MAX_UNANSWERED_REQUESTS
      ensures Taking(queue, staging, taken, refused)
        == TakeAll(Taking(old(queue), old(staging), [],
                          if |WantedNames(listing[..scanned])| > MAX_UNANSWERED_REQUESTS then [Quota] else []),
                   session, chosen)
    {
      var names, over, read := ChooseNames(listing, limit);
      chosen, scanned := names, read;
      hide WantedNames, SortedBy, NameOrder, FirstInOrder;
      taken, refused := [], if over then [Quota] else [];
      ghost var start := Taking(queue, staging, [], refused);
      var k := 0;
      while k < |names|
        invariant 0 <= k <= |names|
        invariant Taking(queue, staging, taken, refused) == TakeAll(start, session, names[..k])
      {
        TakeNext(start, session, names, k);
        var outcome := TakeName(session, names[k], taken, refused);
        taken, refused := outcome.0, outcome.1;
        k := k + 1;
      }
      assert names[..k] == names;
    }
  }

  lemma Elsewhere(now: Files, before: Files, key: string, reply: Reply, n: string)
    requires n != TempName(key) && (Writes(reply) ==> n != FinalName(key))
    requires now == before || now - {TempName(key)} == before - {TempName(key)}
      || (Writes(reply) && now == (before - {TempName(key)})[FinalName(key) := reply.body])
    ensures (n in now <==> n in before) && (n in now ==> now[n] == before[n])
  {
    hide TempName, FinalName;
    assert n in now <==> n in now - {TempName(key)};
    assert n in before <==> n in before - {TempName(key)};
    assert n in now ==> now[n] == (now - {TempName(key)})[n];
    assert n in before ==> before[n] == (before - {TempName(key)})[n];
  }

  lemma TakeNext(t: Taking, session: string, names: seq<string>, k: nat)
    requires k < |names|
    ensures TakeAll(t, session, names[..k + 1]) == TakeOne(TakeAll(t, session, names[..k]), session, names[k])
  {
    assert names[..k + 1][..k] == names[..k];
  }

  lemma PrefixElements(s: seq<string>, n: nat)
    requires n <= |s|
    ensures multiset(s[..n]) <= multiset(s) && (n == |s| ==> s[..n] == s)
  {
    assert s == s[..n] + s[n..];
  }

  /** What a take works through: request files of the queue, each once. */
  predicate IsListing(queue: Directory, names: seq<string>) {
    (forall n :: n in names ==> n in queue && EndsWith(n, REQ)) && Distinct(names)
  }

  /** A directory listing: every entry a file of the queue or a dot entry, each name once. */
  predicate Lists(queue: Directory, listing: seq<Option<string>>) {
    && (forall i :: 0 <= i < |listing| && Wanted(listing[i]) ==> listing[i].value in queue)
    && forall i, j :: 0 <= i < j < |listing| && listing[i].Some? ==> listing[i] != listing[j]
  }

  lemma {:induction false} WantedNamesAreListed(queue: Directory, listing: seq<Option<string>>, n: nat)
    requires Lists(queue, listing) && n <= |listing|
    ensures forall x :: x in WantedNames(listing[..n]) ==>
      x in queue && EndsWith(x, REQ) && Some(x) in listing[..n]
    ensures Distinct(WantedNames(listing[..n]))
  {
    if n > 0 {
      WantedNamesAreListed(queue, listing, n - 1);
      var init, last := listing[..n - 1], listing[n - 1];
      assert listing[..n][..n - 1] == init && listing[..n] == init + [last];
      assert Wanted(last) ==> last !in init && last == Some(last.value);
      assert WantedNames(listing[..n]) == WantedNames(init) + if Wanted(last) then [last.value] else [];
    }
  }

  /** What a take chooses from a listing of the queue is a listing of request files, each once. */
  lemma ChosenIsListing(queue: Directory, listing: seq<Option<string>>, n: nat, chosen: seq<string>)
    requires Lists(queue, listing) && n <= |listing| && multiset(chosen) <= multiset(WantedNames(listing[..n]))
    ensures IsListing(queue, chosen)
  {
    WantedNamesAreListed(queue, listing, n);
    hide Lists, EndsWith, WantedNames, Distinct;
    var names := WantedNames(listing[..n]);
    forall x | x in chosen ensures x in names {
      assert x in multiset(chosen);
    }
    PartOfDistinct(chosen, names);
  }

  lemma RefusalChangesNothing(t: Taking, u: Taking, session: string, name: string)
    requires t.queue == u.queue && t.staging == u.staging && t.taken == u.taken
    ensures var a, b := TakeOne(t, session, name), TakeOne(u, session, name);
      a.queue == b.queue && a.staging == b.staging && a.taken == b.taken
  {
    hide StagedName, ValidKey, TrimReq;
  }

  lemma {:induction false} RefusalsChangeNothing(t: Taking, refused: seq<Refusal>, session: string, names: seq<string>)
    ensures var a, b := TakeAll(t, session, names), TakeAll(t.(refused := refused), session, names);
      a.queue == b.queue && a.staging == b.staging && a.taken == b.taken
  {
    if names != [] {
      hide TakeOne;
      var init, last := names[..|names| - 1], names[|names| - 1];
      RefusalsChangeNothing(t, refused, session, init);
      RefusalChangesNothing(TakeAll(t, session, init), TakeAll(t.(refused := refused), session, init), session, last);
    }
  }

  // ---- What a take leaves staged -----------------------------------------------------------

  /** A take empties the queue of every name it works through. */
  lemma {:induction false} TakeAllEmpties(t: Taking, session: string, names: seq<string>, n: string)
    ensures var t' := TakeAll(t, session, names);
      (n in t'.queue <==> n in t.queue && n !in names) && (n in t'.queue ==> t'.queue[n] == t.queue[n])
  {
    hide StagedName, ValidKey, TrimReq;
    if names != [] {
      assert names == names[..|names| - 1] + [names[|names| - 1]];
      TakeAllEmpties(t, session, names[..|names| - 1], n);
    }
  }

  /** A name whose request a take hands on: its key is one, and its file can be read. */
  function IsTaken(queue: Directory): string -> bool {
    n => ValidKey(TrimReq(n)) && n in queue && queue[n].readable
  }

  function IsRefused(queue: Directory): string -> bool {
    n => !ValidKey(TrimReq(n)) || n !in queue || !queue[n].readable
  }

  /** What a take returns for the names it works through, each once: the requests that could be read, as they were. */
  lemma {:induction false} TakeReturns(t: Taking, session: string, names: seq<string>)
    requires IsListing(t.queue, names)
    ensures var t', taken := TakeAll(t, session, names), Filter(IsTaken(t.queue), names);
      && |t'.taken| == |t.taken| + |taken| && t.taken <= t'.taken
      && forall i :: 0 <= i < |taken| ==>
        (var key := TrimReq(taken[i]);
         taken[i] in t.queue && t'.taken[|t.taken| + i] ==
           TakenRequest(session, key, t.queue[taken[i]].text, SanitizeSignalKey(session) + "__" + key + ".req"))
  {
    hide EndsWith, ValidKey, TrimReq, SanitizeSignalKey;
    if names != [] {
      var init, last := names[..|names| - 1], names[|names| - 1];
      assert names == init + [last] && last !in init;
      TakeReturns(t, session, init);
      TakeAllEmpties(t, session, init, last);
    }
  }

  /** And the refusals it returns for the others. */
  lemma {:induction false} TakeRefuses(t: Taking, session: string, names: seq<string>)
    requires IsListing(t.queue, names)
    ensures var t', left := TakeAll(t, session, names), Filter(IsRefused(t.queue), names);
      && |t'.refused| == |t.refused| + |left| && t.refused <= t'.refused
      && forall i :: 0 <= i < |left| ==>
        (var key := TrimReq(left[i]);
         t'.refused[|t.refused| + i] == if ValidKey(key) then Unreadable(key) else BadName(key))
  {
    hide EndsWith, ValidKey, TrimReq, SanitizeSignalKey;
    if names != [] {
      var init, last := names[..|names| - 1], names[|names| - 1];
      assert names == init + [last] && last !in init && last in names;
      TakeRefuses(t, session, init);
      TakeAllEmpties(t, session, init, last);
      var mid := TakeAll(t, session, init);
      assert last in mid.queue && mid.queue[last] == t.queue[last];
      assert TakeAll(t, session, names) == TakeOne(mid, session, last);
    }
  }

  /** Where the last name is that belongs to `key`. */
  function LastOf(names: seq<string>, key: string): (j: Option<nat>)
    ensures j.Some? ==> j.value < |names| && TrimReq(names[j.value]) == key
    ensures j.Some? ==> forall k :: j.value < k < |names| ==> TrimReq(names[k]) != key
    ensures j.None? ==> forall k :: 0 <= k < |names| ==> TrimReq(names[k]) != key
  {
    if names == [] then None
    else if TrimReq(names[|names| - 1]) == key then Some(|names| - 1)
    else LastOf(names[..|names| - 1], key)
  }

  /** Name `j` of a take is still there when its turn comes, and can be read. */
  predicate Takeable(t: Taking, names: seq<string>, j: nat)
    requires j < |names|
  {
    names[j] in t.queue && t.queue[names[j]].readable && names[j] !in names[..j]
  }

  lemma KeysApart(session: string, a: string, b: string)
    requires StagedName(session, a) == StagedName(session, b)
    ensures a == b
  {
    var p := SanitizeSignalKey(session) + "__";
    assert StagedName(session, a) == p + a + REQ && StagedName(session, b) == p + b + REQ;
    assert a == (p + a + REQ)[|p|..|p| + |a|] && b == (p + b + REQ)[|p|..|p| + |b|];
  }

  /** A key's file is staged after a take exactly when the last name that belongs to it could be taken. */
  lemma {:induction false} LastNameDecides(t: Taking, session: string, names: seq<string>, key: string)
    requires ValidKey(key)
    ensures StagedName(session, key) in TakeAll(t, session, names).staging <==>
      match LastOf(names, key)
      case None => StagedName(session, key) in t.staging
      case Some(j) => Takeable(t, names, j)
  {
    if names != [] {
      var init, last := names[..|names| - 1], names[|names| - 1];
      LastNameDecides(t, session, init, key);
      TakeAllEmpties(t, session, init, last);
      var other := TrimReq(last);
      if other != key && StagedName(session, other) == StagedName(session, key) {
        KeysApart(session, other, key);
      }
      forall j | 0 <= j < |init| ensures Takeable(t, init, j) == Takeable(t, names, j) {
        assert init[..j] == names[..j];
      }
      hide StagedName, ValidKey, TrimReq;
    }
  }

  /** And it is that name's file, or what was staged before. */
  lemma {:induction false} LastNameStages(t: Taking, session: string, names: seq<string>, key: string)
    requires ValidKey(key) && StagedName(session, key) in TakeAll(t, session, names).staging
    ensures match LastOf(names, key)
      case None =>
        StagedName(session, key) in t.staging
        && TakeAll(t, session, names).staging[StagedName(session, key)] == t.staging[StagedName(session, key)]
      case Some(j) =>
        names[j] in t.queue && TakeAll(t, session, names).staging[StagedName(session, key)] == t.queue[names[j]]
  {
    if names != [] {
      var init, last := names[..|names| - 1], names[|names| - 1];
      TakeAllEmpties(t, session, init, last);
      var other := TrimReq(last);
      if other != key && StagedName(session, other) == StagedName(session, key) {
        KeysApart(session, other, key);
      }
      hide StagedName, ValidKey, TrimReq;
      if other != key {
        LastNameStages(t, session, init, key);
      }
    }
  }

  /**
   * In a take whose names are their requests' own, a request it took is still staged afterwards
   * exactly when the take does not come to its name again.
   */
  lemma TakenStaysStagedIff(t: Taking, session: string, names: seq<string>, i: nat)
    requires i < |names| && Takeable(t, names, i) && ValidKey(TrimReq(names[i]))
    requires forall n :: n in names && TrimReq(n) == TrimReq(names[i]) ==> n == names[i]
    ensures StagedName(session, TrimReq(names[i])) in TakeAll(t, session, names).staging
      <==> forall j :: i < j < |names| ==> names[j] != names[i]
  {
    var key := TrimReq(names[i]);
    LastNameDecides(t, session, names, key);
    hide TakeAll, StagedName, TrimReq, ValidKey;
    var j := LastOf(names, key).value;
    assert names[j] in names && names[j] == names[i];
    if j > i {
      assert names[..j][i] == names[i];
    }
  }

  /** A name listed twice in one take loses the staged copy the first take made. */
  lemma ListedTwiceIsUnstaged(session: string, key: string, text: string)
    requires ValidKey(key)
    ensures var t := Taking(map[key + REQ := File(true, text)], map[], [], []);
      var once, twice := TakeAll(t, session, [key + REQ]), TakeAll(t, session, [key + REQ, key + REQ]);
      && StagedName(session, key) in once.staging && StagedName(session, key) !in twice.staging
      && once.taken == twice.taken
  {
    TrimOfQueueName(key);
    hide TrimReq, ValidKey, StagedName;
    var t := Taking(map[key + REQ := File(true, text)], map[], [], []);
    var name := key + REQ;
    assert [name, name][..1] == [name] && [name][..0] == [];
    var once := TakeOne(t, session, name);
    assert TakeAll(t, session, [name]) == once;
    assert TakeAll(t, session, [name, name]) == TakeOne(once, session, name);
  }

  // ---- Recovering --------------------------------------------------------------------------

  /** A staged file recovery hands back: its name parses, it is not too old, and it can be read. */
  predicate Recovers(staging: Directory, stale: set<string>, name: string) {
    name in staging && ParseStagedName(name).Some? && name !in stale && staging[name].readable
  }

  /** The requests recovery finds, each ready to be worked on again. */
  ghost predicate IsRecovery(staging: Directory, stale: set<string>, found: seq<TakenRequest>) {
    && (forall t :: t in found ==>
          Recovers(staging, stale, t.staged) && staging[t.staged].text == t.text
          && ParseStagedName(t.staged) == Some((t.session, t.key)))
    && forall name :: Recovers(staging, stale, name) ==> exists t :: t in found && t.staged == name
  }

  /** No staged file is handed back twice. */
  predicate EachOnce(found: seq<TakenRequest>) {
    forall i, j :: 0 <= i < j < |found| ==> found[i].staged != found[j].staged
  }

  /** What recovery leaves staged: it removes what it cannot attribute, what is too old, and what it cannot read. */
  function RecoverableFiles(staging: Directory, stale: set<string>): Directory {
    map name | name in staging && Recovers(staging, stale, name) :: staging[name]
  }

  function TakenFrom(staging: Directory, name: string): TakenRequest
    requires name in staging && ParseStagedName(name).Some?
  {
    var (session, key) := ParseStagedName(name).value;
    TakenRequest(session, key, staging[name].text, name)
  }

  /** The requests found, and the names removed, among some directory entries. */
  function RecoverAll(staging: Directory, stale: set<string>, names: seq<string>): (seq<TakenRequest>, set<string>) {
    if names == [] then ([], {}) else
    var (found, removed) := RecoverAll(staging, stale, names[..|names| - 1]);
    var name := names[|names| - 1];
    if Recovers(staging, stale, name) then (found + [TakenFrom(staging, name)], removed)
    else (found, removed + {name})
  }

  lemma {:induction false} RecoveredAre(staging: Directory, stale: set<string>, names: seq<string>)
    ensures var (found, removed) := RecoverAll(staging, stale, names);
      && (forall t :: t in found ==> Recovers(staging, stale, t.staged) && t == TakenFrom(staging, t.staged))
      && (forall name :: name in removed <==> name in names && !Recovers(staging, stale, name))
      && forall name :: name in names && Recovers(staging, stale, name) ==> TakenFrom(staging, name) in found
  {
    hide Recovers, ParseStagedName;
    if names != [] {
      var init, last := names[..|names| - 1], names[|names| - 1];
      RecoveredAre(staging, stale, init);
      assert names == init + [last];
      StagedOfTaken(staging, last);
      hide TakenFrom;
    }
  }

  lemma StagedOfTaken(staging: Directory, name: string)
    ensures name in staging && ParseStagedName(name).Some? ==>
      var t := TakenFrom(staging, name);
      t.staged == name && t.text == staging[name].text && ParseStagedName(name) == Some((t.session, t.key))
  {
    if ParseStagedName(name).Some? {
      var parsed := ParseStagedName(name).value;
      assert parsed == (parsed.0, parsed.1);
    }
    hide ParseStagedName;
  }

  lemma {:induction false} RecoveredInOrder(staging: Directory, stale: set<string>, names: seq<string>)
    requires Distinct(names)
    ensures EachOnce(RecoverAll(staging, stale, names).0)
    ensures forall t :: t in RecoverAll(staging, stale, names).0 ==> t.staged in names
  {
    hide ParseStagedName;
    if names != [] {
      var init, last := names[..|names| - 1], names[|names| - 1];
      RecoveredInOrder(staging, stale, init);
      assert names == init + [last] && last !in init;
    }
  }

  /** Walk the staging directory: hand back what can be served, and remove everything else. */
  method RecoverTakenRequests(staging: Directory, entries: seq<string>, stale: set<string>)
    returns (found: seq<TakenRequest>, left: Directory)
    requires forall name :: name in staging <==> name in entries
    ensures left == RecoverableFiles(staging, stale)
    ensures IsRecovery(staging, stale, found)
    ensures Distinct(entries) ==> EachOnce(found)
  {
    found, left := [], staging;
    assert staging - {} == staging;
    for k := 0 to |entries|
      invariant found == RecoverAll(staging, stale, entries[..k]).0
      invariant left == staging - RecoverAll(staging, stale, entries[..k]).1
    {
      var name := entries[k];
      assert entries[..k + 1][..k] == entries[..k];
      hide ParseStagedName;
      var parsed := ParseStagedName(name);
      if parsed.None? || name in stale || !staging[name].readable {
        ghost var removed := RecoverAll(staging, stale, entries[..k]).1;
        assert (staging - removed) - {name} == staging - (removed + {name});
        left := left - {name};
      } else {
        found := found + [TakenRequest(parsed.value.0, parsed.value.1, staging[name].text, name)];
      }
    }
    assert entries[..|entries|] == entries;
    RecoveryIs(staging, entries, stale);
    if Distinct(entries) {
      RecoveredInOrder(staging, stale, entries);
    }
  }

  lemma RecoveryIs(staging: Directory, entries: seq<string>, stale: set<string>)
    requires forall name :: name in staging <==> name in entries
    ensures var (found, removed) := RecoverAll(staging, stale, entries);
      IsRecovery(staging, stale, found) && staging - removed == RecoverableFiles(staging, stale)
  {
    hide ParseStagedName;
    RecoveredAre(staging, stale, entries);
    hide RecoverAll;
    var (found, removed) := RecoverAll(staging, stale, entries);
    forall t | t in found
      ensures staging[t.staged].text == t.text && ParseStagedName(t.staged) == Some((t.session, t.key))
    {
      StagedOfTaken(staging, t.staged);
    }
    forall name | Recovers(staging, stale, name) ensures exists t :: t in found && t.staged == name {
      StagedOfTaken(staging, name);
      assert TakenFrom(staging, name) in found;
    }
    hide TakenFrom;
    assert forall name :: name in staging - removed <==> name in RecoverableFiles(staging, stale);
    assert staging - removed == RecoverableFiles(staging, stale);
  }
}

/** One Claude session: its main transcript, its subagents' transcripts and their merged events. */
module ClaudeScan {
  import opened Common
  import opened Ordered
  import opened Utf8
  import opened Tail
  import opened TailProofs
  import opened TailRuns
  import opened Merge

  /** A transcript's path; only the order of paths matters. */
  type Path = int

  /** The streaming transcript parser: the events of the text it has been given. */
  type Parser = seq<byte> -> seq<Event>

  datatype SubTail = SubTail(tail: TailState, origin: string)

  type SubTails = map<Path, SubTail>

  /** The event stream of every subagent, in path order. */
  function SubStreams(parse: Parser, subs: SubTails): seq<(seq<Event>, string)>
  {
    var paths := InOrder(subs.Keys);
    seq(|paths|, i requires 0 <= i < |paths| =>
      InOrderHasAll(subs.Keys, paths[i]);
      (parse(Fed(subs[paths[i]].tail)), subs[paths[i]].origin))
  }

  function MergedView(parse: Parser, main: TailState, subs: SubTails): seq<Event> {
    Merged(parse(Fed(main)), SubStreams(parse, subs))
  }

  /** Tails that fed their parsers the same text, under the same paths and labels. */
  predicate SameStreams(a: SubTails, b: SubTails) {
    a.Keys == b.Keys && forall p :: p in a ==> a[p].tail.chunks == b[p].tail.chunks && a[p].origin == b[p].origin
  }

  lemma SameStreamsMergeAlike(parse: Parser, a: SubTails, b: SubTails)
    requires SameStreams(a, b)
    ensures SubStreams(parse, a) == SubStreams(parse, b)
  {
    var paths := InOrder(a.Keys);
    forall i | 0 <= i < |paths|
      ensures paths[i] in a
      ensures Fed(a[paths[i]].tail) == Fed(b[paths[i]].tail) && a[paths[i]].origin == b[paths[i]].origin
    {
      InOrderHasAll(a.Keys, paths[i]);
      assert a[paths[i]].tail.chunks == b[paths[i]].tail.chunks;
    }
    assert |SubStreams(parse, a)| == |SubStreams(parse, b)|;
    assert forall i :: 0 <= i < |paths| ==> SubStreams(parse, a)[i] == SubStreams(parse, b)[i];
  }

  /** A pass reports a change exactly when it fed the parser something, or met a shrink. */
  lemma ReportsIff(t: TailState, first: PassIo, retry: PassIo, cap: nat)
    ensures var (t', changed) := ScanPass(t, first, retry, cap);
      changed <==> t'.chunks != t.chunks || Shrunk(t, first)
  {
    hide NewLines;
  }

  lemma UnchangedPassFeedsNothing(t: TailState, first: PassIo, retry: PassIo, cap: nat)
    requires !ScanPass(t, first, retry, cap).1
    ensures ScanPass(t, first, retry, cap).0.chunks == t.chunks
  {}

  /** The transcripts the index lists now, each with the file accesses of its pass. */
  datatype Listed = Listed(path: Path, origin: string, first: PassIo, retry: PassIo)

  function Retained(subs: SubTails, listed: seq<Listed>): SubTails {
    map p | p in subs && (exists l :: l in listed && l.path == p) :: subs[p]
  }

  /** Tail one listed transcript, starting fresh when it is new. */
  function SyncOne(subs: SubTails, l: Listed, cap: nat): SubTails {
    var before := if l.path in subs then subs[l.path].tail else FRESH;
    subs[l.path := SubTail(ScanPass(before, l.first, l.retry, cap).0, l.origin)]
  }

  function SyncAll(subs: SubTails, listed: seq<Listed>, cap: nat): SubTails {
    if listed == [] then subs
    else SyncOne(SyncAll(subs, listed[..|listed| - 1], cap), listed[|listed| - 1], cap)
  }

  /** A listed transcript is new, relabelled, or its tail ingested something or started over. */
  predicate Touches(subs: SubTails, l: Listed, cap: nat) {
    l.path !in subs || subs[l.path].origin != l.origin || ScanPass(subs[l.path].tail, l.first, l.retry, cap).1
  }

  /** Which is: the streams are no longer the same, or the file shrank. */
  lemma TouchesIff(subs: SubTails, l: Listed, cap: nat)
    ensures Touches(subs, l, cap) <==>
      !SameStreams(subs, SyncOne(subs, l, cap)) || (l.path in subs && Shrunk(subs[l.path].tail, l.first))
  {
    if l.path in subs {
      ReportsIff(subs[l.path].tail, l.first, l.retry, cap);
    }
    hide ScanPass, Shrunk;
    var after := SyncOne(subs, l, cap);
    assert l.path in after;
    if SameStreams(subs, after) && l.path in subs {
      assert subs[l.path].tail.chunks == after[l.path].tail.chunks;
    }
  }

  /** Start the tail of a newly listed transcript, take over its label, and tail it. */
  method SyncListed(subs: SubTails, l: Listed, cap: nat) returns (r: SubTails, changed: bool)
    ensures r == SyncOne(subs, l, cap)
    ensures changed == Touches(subs, l, cap)
    ensures !changed ==> SameStreams(subs, r)
  {
    changed := l.path !in subs;
    var tail := if changed then SubTail(FRESH, l.origin) else subs[l.path];
    if tail.origin != l.origin {
      tail := tail.(origin := l.origin);
      changed := true;
    }
    var (next, ingested) := ScanPass(tail.tail, l.first, l.retry, cap);
    if !ingested {
      UnchangedPassFeedsNothing(tail.tail, l.first, l.retry, cap);
    }
    r := subs[l.path := tail.(tail := next)];
    changed := changed || ingested;
  }

  /** Some transcript a sync comes to touches its tail. */
  predicate AnyTouches(kept: SubTails, listed: seq<Listed>, cap: nat) {
    listed != [] && var init := listed[..|listed| - 1];
      AnyTouches(kept, init, cap) || Touches(SyncAll(kept, init, cap), listed[|listed| - 1], cap)
  }

  /** A sync drops a tail, or some transcript it comes to touches its own. */
  predicate SyncTouches(subs: SubTails, listed: seq<Listed>, cap: nat) {
    var kept := Retained(subs, listed);
    |kept| != |subs| || AnyTouches(kept, listed, cap)
  }

  // ---- Whole scans -------------------------------------------------------------------------

  /** What one scan meets: whether the transcript is found, its two tries, and the listed transcripts. */
  datatype Scanned = Scanned(found: bool, first: PassIo, retry: PassIo, listed: seq<Listed>)

  datatype SourceState = SourceState(bound: bool, main: TailState, subs: SubTails)

  function ScanStep(s: SourceState, c: Scanned, cap: nat): SourceState {
    var bound := s.bound || c.found;
    SourceState(bound, if bound then ScanPass(s.main, c.first, c.retry, cap).0 else s.main,
                SyncAll(Retained(s.subs, c.listed), c.listed, cap))
  }

  function SourceRun(scans: seq<Scanned>, cap: nat): SourceState {
    if scans == [] then SourceState(false, FRESH, map[])
    else ScanStep(SourceRun(scans[..|scans| - 1], cap), scans[|scans| - 1], cap)
  }

  class ClaudeSource {
    const parse: Parser
    const cap: nat
    var transcriptBound: bool
    var main: TailState
    var subs: SubTails
    var merged: seq<Event>
    ghost var scans: seq<Scanned>

    function State(): SourceState reads this { SourceState(transcriptBound, main, subs) }

    /** The source is where its scans lead, and the view is the merge of what its parsers hold now. */
    ghost predicate Valid() reads this {
      State() == SourceRun(scans, cap) && merged == MergedView(parse, main, subs)
    }

    constructor (parse: Parser, cap: nat)
      requires parse([]) == []
      ensures this.parse == parse && this.cap == cap
      ensures Valid() && scans == []
    {
      this.parse, this.cap := parse, cap;
      transcriptBound, main, subs, merged, scans := false, FRESH, map[], [], [];
      new;
      assert merged == Events([]);
    }

    /** Drop tails no longer listed, start tails newly listed, and tail every one listed. */
    method SyncSubs(listed: seq<Listed>) returns (changed: bool)
      modifies this`subs
      ensures subs == SyncAll(Retained(old(subs), listed), listed, cap)
      ensures changed == SyncTouches(old(subs), listed, cap)
      ensures !changed ==> SameStreams(old(subs), subs)
    {
      hide ScanPass, Touches, SyncOne;
      var kept := Retained(subs, listed);
      changed := |kept| != |subs|;
      assert kept.Keys <= subs.Keys;
      if !changed {
        SubsetOfSameSize(kept.Keys, subs.Keys);
      }
      subs := kept;
      var k := 0;
      while k < |listed|
        invariant 0 <= k <= |listed|
        invariant subs == SyncAll(kept, listed[..k], cap)
        invariant changed == (|kept| != |old(subs)| || AnyTouches(kept, listed[..k], cap))
        invariant !changed ==> SameStreams(old(subs), subs)
      {
        assert listed[..k + 1][..k] == listed[..k];
        var touched;
        subs, touched := SyncListed(subs, listed[k], cap);
        changed := changed || touched;
        k := k + 1;
      }
      assert listed[..k] == listed;
    }

    /** Bind the transcript when it is found, and tail it. */
    method TailMain(found: bool, first: PassIo, retry: PassIo) returns (changed: bool)
      modifies this`transcriptBound, this`main
      ensures transcriptBound == (old(transcriptBound) || found)
      ensures main == if transcriptBound then ScanPass(old(main), first, retry, cap).0 else old(main)
      ensures changed == (main.chunks != old(main).chunks || (transcriptBound && Shrunk(old(main), first)))
    {
      if !transcriptBound {
        transcriptBound := found;
      }
      changed := false;
      if transcriptBound {
        var (next, ingested) := ScanPass(main, first, retry, cap);
        ReportsIff(main, first, retry, cap);
        main, changed := next, ingested;
      }
    }

    /**
     * One scan: bind the transcript when it is found, tail it, tail the subagents, and rebuild the
     * merged stream when anything was ingested, dropped or relabelled.
     */
    method Scan(found: bool, first: PassIo, retry: PassIo, listed: seq<Listed>) returns (changed: bool)
      requires Valid()
      modifies this
      ensures Valid() && scans == old(scans) + [Scanned(found, first, retry, listed)]
      ensures State() == ScanStep(old(State()), Scanned(found, first, retry, listed), cap)
      ensures IsView(parse, main, subs, merged)
      ensures subs.Keys == PathsOf(listed)
      ensures changed == (main.chunks != old(main).chunks || (transcriptBound && Shrunk(old(main), first))
                          || SyncTouches(old(subs), listed, cap))
      ensures !changed ==> merged == old(merged)
    {
      hide ScanPass, SyncAll, Retained, Shrunk, Fed, SubStreams, Merged, SameStreams, SyncTouches, IsView;
      ghost var c := Scanned(found, first, retry, listed);
      ScanAdded(scans, c, cap);
      hide SourceRun;
      changed := TailMain(found, first, retry);
      var before := subs;
      var subsChanged := SyncSubs(listed);
      changed := changed || subsChanged;
      scans := scans + [c];
      if changed {
        merged := RebuildMerged(parse(Fed(main)), SubStreams(parse, subs));
      } else {
        SameStreamsMergeAlike(parse, before, subs);
        SameChunksFeedAlike(main, old(main));
      }
      ScanKeepsListed(old(State()), c, cap);
      MergedViewIsView(parse, main, subs);
    }
  }

  lemma ScanAdded(scans: seq<Scanned>, c: Scanned, cap: nat)
    ensures SourceRun(scans + [c], cap) == ScanStep(SourceRun(scans, cap), c, cap)
  {
    assert (scans + [c])[..|scans|] == scans;
  }

  lemma SameChunksFeedAlike(t: TailState, u: TailState)
    requires t.chunks == u.chunks
    ensures Fed(t) == Fed(u)
  {}

  /** A transcript rewritten to nothing leaves nothing of the old one behind, even in the view. */
  lemma EmptyRewriteLeavesNothing(parse: Parser, t: TailState, first: PassIo, retry: PassIo, cap: nat, subs: SubTails)
    requires Shrunk(t, first) && RacingPass(retry) && Text(retry.rest) == []
    requires parse([]) == []
    ensures ScanPass(t, first, retry, cap).1
    ensures MergedView(parse, ScanPass(t, first, retry, cap).0, subs) == Merged([], SubStreams(parse, subs))
  {
    TailPassAgrees(Reset(t), retry, cap);
  }

  // ---- What a scan leaves ------------------------------------------------------------------

  /** The stream of one tail: its parser's events, under its label. */
  function StreamOf(parse: Parser, sub: SubTail): seq<Keyed> {
    var events := parse(Fed(sub.tail));
    Stream(events, Some(sub.origin), |events|)
  }

  /**
   * `streams` are main's stream and exactly one of each subagent's, which comes behind main's and
   * those of all lower paths.
   */
  ghost predicate OneStreamEach(parse: Parser, main: TailState, subs: SubTails, streams: seq<seq<Keyed>>) {
    var events := parse(Fed(main));
    && |streams| == 1 + |subs| && streams[0] == Stream(events, None, |events|)
    && forall p :: p in subs ==>
      |LessThan(subs.Keys, p)| < |subs| && streams[1 + |LessThan(subs.Keys, p)|] == StreamOf(parse, subs[p])
  }

  /** `view` is a stable merge of one stream per transcript: ties put main first, then lower paths. */
  ghost predicate IsView(parse: Parser, main: TailState, subs: SubTails, view: seq<Event>) {
    exists streams :: OneStreamEach(parse, main, subs, streams) && IsMergeOf(view, streams)
  }

  lemma MergedViewIsView(parse: Parser, main: TailState, subs: SubTails)
    ensures IsView(parse, main, subs, MergedView(parse, main, subs))
  {
    var streams := ViewMergesOneStreamEach(parse, main, subs);
    hide OneStreamEach, MergedView, IsMergeOf;
  }

  lemma ViewMergesOneStreamEach(parse: Parser, main: TailState, subs: SubTails) returns (streams: seq<seq<Keyed>>)
    ensures OneStreamEach(parse, main, subs, streams)
    ensures IsMergeOf(MergedView(parse, main, subs), streams)
  {
    hide Merged, IsMergeOf, Streams, Fed, Stream, LessThan;
    var events, subStreams := parse(Fed(main)), SubStreams(parse, subs);
    streams := Streams(events, subStreams);
    MergedIsMerge(events, subStreams);
    StreamsAre(events, subStreams);
    LengthIsSize(subs.Keys);
    assert |subs| == |subs.Keys|;
    forall p | p in subs
      ensures |LessThan(subs.Keys, p)| < |subs| && streams[1 + |LessThan(subs.Keys, p)|] == StreamOf(parse, subs[p])
    {
      ListedAtRank(subs.Keys, p);
      var j := |LessThan(subs.Keys, p)|;
      assert subStreams[j] == (parse(Fed(subs[p].tail)), subs[p].origin);
      assert streams[j + 1] == StreamOf(parse, subs[p]);
    }
  }

  lemma {:induction false} ListedAreKept(subs: SubTails, listed: seq<Listed>, cap: nat)
    ensures SyncAll(subs, listed, cap).Keys == subs.Keys + PathsOf(listed)
  {
    hide ScanPass;
    if listed != [] {
      var init, last := listed[..|listed| - 1], listed[|listed| - 1];
      ListedAreKept(subs, init, cap);
      assert listed == init + [last];
      assert PathsOf(listed) == PathsOf(init) + {last.path};
    }
  }

  function PathsOf(listed: seq<Listed>): set<Path> { set l | l in listed :: l.path }

  /** Every transcript bears the label it was last listed with. */
  lemma {:induction false} LabelsAreLatest(subs: SubTails, listed: seq<Listed>, cap: nat, i: nat)
    requires i < |listed| && forall k :: i < k < |listed| ==> listed[k].path != listed[i].path
    ensures listed[i].path in SyncAll(subs, listed, cap)
    ensures SyncAll(subs, listed, cap)[listed[i].path].origin == listed[i].origin
  {
    hide ScanPass;
    if i < |listed| - 1 {
      LabelsAreLatest(subs, listed[..|listed| - 1], cap, i);
    }
  }

  /** The transcripts a scan leaves are exactly those listed. */
  lemma ScanKeepsListed(s: SourceState, c: Scanned, cap: nat)
    ensures ScanStep(s, c, cap).subs.Keys == PathsOf(c.listed)
  {
    ListedAreKept(Retained(s.subs, c.listed), c.listed, cap);
    assert Retained(s.subs, c.listed).Keys <= PathsOf(c.listed);
  }

  // ---- Runs of the source ------------------------------------------------------------------

  type Passes = seq<(PassIo, PassIo)>

  /** The passes each tail has made since it was started. */
  datatype History = History(main: Passes, subs: map<Path, Passes>)

  function NoteOne(subs: map<Path, Passes>, l: Listed): map<Path, Passes> {
    subs[l.path := (if l.path in subs then subs[l.path] else []) + [(l.first, l.retry)]]
  }

  function NoteAll(subs: map<Path, Passes>, listed: seq<Listed>): map<Path, Passes> {
    if listed == [] then subs else NoteOne(NoteAll(subs, listed[..|listed| - 1]), listed[|listed| - 1])
  }

  /** The passes of every tail there is after the given scans; a tail no longer listed loses its own. */
  function HistoryOf(scans: seq<Scanned>): History {
    if scans == [] then History([], map[]) else
    var h, c := HistoryOf(scans[..|scans| - 1]), scans[|scans| - 1];
    var kept := map p | p in h.subs && (exists l :: l in c.listed && l.path == p) :: h.subs[p];
    History(if exists d :: d in scans && d.found then h.main + [(c.first, c.retry)] else h.main,
            NoteAll(kept, c.listed))
  }

  /** Each tail is where its own passes lead. */
  ghost predicate FollowsHistory(subs: SubTails, history: map<Path, Passes>, cap: nat) {
    subs.Keys == history.Keys && forall p :: p in subs ==> subs[p].tail == Tailed(FRESH, history[p], cap)
  }

  lemma OnePassMore(t: TailState, passes: Passes, pass: (PassIo, PassIo), cap: nat)
    ensures Tailed(t, passes + [pass], cap) == ScanPass(Tailed(t, passes, cap), pass.0, pass.1, cap).0
  {
    assert (passes + [pass])[..|passes|] == passes;
  }

  lemma OneFollowsHistory(subs: SubTails, history: map<Path, Passes>, l: Listed, cap: nat)
    requires FollowsHistory(subs, history, cap)
    ensures FollowsHistory(SyncOne(subs, l, cap), NoteOne(history, l), cap)
  {
    hide ScanPass;
    var passes := if l.path in history then history[l.path] else [];
    assert Tailed(FRESH, [], cap) == FRESH;
    OnePassMore(FRESH, passes, (l.first, l.retry), cap);
    hide Tailed;
  }

  lemma {:induction false} SyncFollowsHistory(subs: SubTails, history: map<Path, Passes>, listed: seq<Listed>, cap: nat)
    requires FollowsHistory(subs, history, cap)
    ensures FollowsHistory(SyncAll(subs, listed, cap), NoteAll(history, listed), cap)
  {
    if listed != [] {
      var init, l := listed[..|listed| - 1], listed[|listed| - 1];
      SyncFollowsHistory(subs, history, init, cap);
      OneFollowsHistory(SyncAll(subs, init, cap), NoteAll(history, init), l, cap);
      hide FollowsHistory, SyncOne, NoteOne;
    }
  }

  lemma {:induction false} BoundIffFound(scans: seq<Scanned>, cap: nat)
    ensures SourceRun(scans, cap).bound <==> exists d :: d in scans && d.found
  {
    hide SyncAll, ScanPass;
    if scans != [] {
      var init, c := scans[..|scans| - 1], scans[|scans| - 1];
      BoundIffFound(init, cap);
      assert scans == init + [c];
    }
  }

  lemma {:induction false} TailsAreRuns(scans: seq<Scanned>, cap: nat)
    ensures SourceRun(scans, cap).main == Tailed(FRESH, HistoryOf(scans).main, cap)
    ensures FollowsHistory(SourceRun(scans, cap).subs, HistoryOf(scans).subs, cap)
  {
    hide ScanPass, SyncAll, NoteAll;
    if scans != [] {
      var init, c := scans[..|scans| - 1], scans[|scans| - 1];
      var h := HistoryOf(init);
      TailsAreRuns(init, cap);
      BoundIffFound(scans, cap);
      OnePassMore(FRESH, h.main, (c.first, c.retry), cap);
      var kept := map p | p in h.subs && (exists l :: l in c.listed && l.path == p) :: h.subs[p];
      SyncFollowsHistory(Retained(SourceRun(init, cap).subs, c.listed), kept, c.listed, cap);
    }
  }

  // ---- What the view shows -----------------------------------------------------------------

  /** The file a tail met first. */
  function StartOf(passes: Passes): FileState {
    if passes == [] then FileState(false, [], 0) else passes[0].0.stat
  }

  /** The bytes of its own file a tail has read: as many from the beginning as its offset says. */
  function BytesRead(passes: Passes, cap: nat): seq<byte> {
    var (t, f, _) := Run(StartOf(passes), passes, cap);
    Slice(Text(f), 0, t.offset)
  }

  /** Every pass met an admissible file, and the file is not shorter now than what was read of it. */
  predicate Faithful(passes: Passes, cap: nat) {
    && AdmissibleRun(StartOf(passes), passes, cap)
    && Run(StartOf(passes), passes, cap).0.offset <= |Text(Run(StartOf(passes), passes, cap).1)|
  }

  lemma {:induction false} RunIsTailed(start: FileState, passes: Passes, cap: nat)
    ensures Run(start, passes, cap).0 == Tailed(FRESH, passes, cap)
  {
    hide ScanPass, LookAfter, LastSeen;
    if passes != [] {
      RunIsTailed(start, passes[..|passes| - 1], cap);
    }
  }

  lemma FedIsBytesRead(passes: Passes, cap: nat)
    requires Faithful(passes, cap)
    ensures Fed(Tailed(FRESH, passes, cap)) == BytesRead(passes, cap)
  {
    hide AdmissibleRun, Run, Tailed, WholeLen, Fed;
    RunIsTailed(StartOf(passes), passes, cap);
    TailingIsWholeFileReading(StartOf(passes), passes, cap);
  }

  /** `streams` are the parses of main's file and of each subagent's, as far as they were read, in path order. */
  ghost predicate OneFileEach(parse: Parser, subs: SubTails, h: History, cap: nat, streams: seq<seq<Keyed>>)
    requires subs.Keys == h.subs.Keys
  {
    var events := parse(BytesRead(h.main, cap));
    && |streams| == 1 + |subs| && streams[0] == Stream(events, None, |events|)
    && forall p :: p in subs ==>
      var own := parse(BytesRead(h.subs[p], cap));
      |LessThan(subs.Keys, p)| < |subs|
      && streams[1 + |LessThan(subs.Keys, p)|] == Stream(own, Some(subs[p].origin), |own|)
  }

  lemma StreamsAreFiles(parse: Parser, main: TailState, subs: SubTails, h: History, cap: nat, streams: seq<seq<Keyed>>)
    requires OneStreamEach(parse, main, subs, streams) && FollowsHistory(subs, h.subs, cap)
    requires main == Tailed(FRESH, h.main, cap) && Faithful(h.main, cap)
    requires forall p :: p in h.subs ==> Faithful(h.subs[p], cap)
    ensures OneFileEach(parse, subs, h, cap, streams)
  {
    hide Faithful, BytesRead, Tailed, Fed;
    FedIsBytesRead(h.main, cap);
    forall p | p in subs ensures Fed(subs[p].tail) == BytesRead(h.subs[p], cap) {
      FedIsBytesRead(h.subs[p], cap);
    }
  }

  /**
   * After any run of scans, with transcripts listed, dropped and listed again, the view of a source
   * is a stable merge of the parses of every file's own first bytes, as far as each was read: one
   * stream for each file, main's first and then in path order.
   */
  lemma ViewShowsTheFiles(source: ClaudeSource) returns (streams: seq<seq<Keyed>>)
    requires source.Valid() && Faithful(HistoryOf(source.scans).main, source.cap)
    requires forall p :: p in HistoryOf(source.scans).subs ==> Faithful(HistoryOf(source.scans).subs[p], source.cap)
    ensures source.subs.Keys == HistoryOf(source.scans).subs.Keys
    ensures OneFileEach(source.parse, source.subs, HistoryOf(source.scans), source.cap, streams)
    ensures IsMergeOf(source.merged, streams)
  {
    hide Faithful, BytesRead, Tailed, HistoryOf, SourceRun, MergedView, OneFileEach, OneStreamEach, IsMergeOf;
    TailsAreRuns(source.scans, source.cap);
    streams := ViewMergesOneStreamEach(source.parse, source.main, source.subs);
    StreamsAreFiles(source.parse, source.main, source.subs, HistoryOf(source.scans), source.cap, streams);
  }
}

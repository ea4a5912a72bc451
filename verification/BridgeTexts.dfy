/** What the broker works on is what the client submitted: the text of a request from its queue to its serving. */
module BridgeTexts {
  import opened BridgeQueue
  import opened BridgeResponses
  import opened BridgeRuns
  import opened Common
  import opened StagedNames

  /** What was submitted for each request. */
  type Texts = map<Request, File>

  /** A submit of a new request records its file. */
  function Recorded(texts: Texts, w: World, e: Event): Texts {
    match e
    case Submit(s, k, file) =>
      if s == "" || !Recoverable(s) || !ValidKey(k) || (s, k) in w.used then texts else texts[(s, k) := file]
    case _ => texts
  }

  /** What was submitted in the first `n` steps. */
  function TextsOf(worlds: seq<World>, events: seq<Event>, n: nat): Texts
    requires n <= |events| && |worlds| > |events|
  {
    if n == 0 then map[] else Recorded(TextsOf(worlds, events, n - 1), worlds[n - 1], events[n - 1])
  }

  predicate IsText(texts: Texts, r: Request, file: File) { r in texts && texts[r] == file }

  ghost predicate QueueTexts(w: World, texts: Texts) {
    forall s, name :: name in QueueOf(w, s) && NamesRequest(name) ==>
      IsText(texts, (s, TrimReq(name)), QueueOf(w, s)[name])
  }

  predicate StagingTexts(w: World, texts: Texts) {
    forall name :: name in w.staging && ParseStagedName(name).Some? ==>
      IsText(texts, ParseStagedName(name).value, w.staging[name])
  }

  predicate WorkingTexts(w: World, texts: Texts) {
    forall t :: t in w.working ==> RequestOf(t) in texts && texts[RequestOf(t)] == File(true, t.text)
  }

  /** Wherever a request is, it has the text that was submitted. */
  ghost predicate TextsInv(w: World, texts: Texts) {
    QueueTexts(w, texts) && StagingTexts(w, texts) && WorkingTexts(w, texts) && texts.Keys <= w.used
  }

  // ---- Taking ------------------------------------------------------------------------------

  /** One session's queue loses files, and all else stays. */
  lemma LesserQueue(w: World, w': World, session: string, queue: Directory, texts: Texts)
    requires QueueTexts(w, texts) && w'.queues == w.queues[session := queue]
    requires forall n :: n in queue ==> n in QueueOf(w, session) && QueueOf(w, session)[n] == queue[n]
    ensures QueueTexts(w', texts)
  {
    hide NamesRequest, TrimReq, IsText;
    forall s, n | n in QueueOf(w', s) && NamesRequest(n) ensures IsText(texts, (s, TrimReq(n)), QueueOf(w', s)[n]) {
      assert n in QueueOf(w, s) && QueueOf(w', s)[n] == QueueOf(w, s)[n];
      QueuedText(w, s, n, texts);
    }
  }

  /** A request's file is staged under its own name. */
  lemma StagedText(w: World, w': World, r: Request, file: File, texts: Texts)
    requires StagingTexts(w, texts) && Sound(r) && IsText(texts, r, file)
    requires forall n :: n in w'.staging && n != StagedName(r.0, r.1) ==>
      n in w.staging && w'.staging[n] == w.staging[n]
    requires StagedName(r.0, r.1) in w'.staging ==> w'.staging[StagedName(r.0, r.1)] == file
    ensures StagingTexts(w', texts)
  {
    StagedNameRoundTripIff(r.0, r.1);
    assert r == (r.0, r.1);
    hide StagedName, ParseStagedName, Recoverable, ValidKey;
  }

  lemma TakeOneKeepsTexts(w: World, session: string, t: Taking, name: string, texts: Texts)
    requires session != "" && Recoverable(session) && EndsWith(name, REQ)
    requires TextsInv(Midway(w, session, t), texts)
    ensures TextsInv(Midway(w, session, TakeOne(t, session, name)), texts)
  {
    hide ParseStagedName, StagedName, TrimReq, Recoverable, EndsWith, ValidKey;
    hide QueueTexts, StagingTexts;
    var before, after := Midway(w, session, t), Midway(w, session, TakeOne(t, session, name));
    var r := (session, TrimReq(name));
    assert QueueOf(before, session) == t.queue;
    LesserQueue(before, after, session, TakeOne(t, session, name).queue, texts);
    if ValidKey(r.1) && name in t.queue {
      QueuedText(before, session, name, texts);
      StagedText(before, after, r, t.queue[name], texts);
    } else {
      FewerStaged(before, after, texts);
    }
  }

  lemma QueuedText(w: World, session: string, name: string, texts: Texts)
    requires QueueTexts(w, texts) && name in QueueOf(w, session) && NamesRequest(name)
    ensures IsText(texts, (session, TrimReq(name)), QueueOf(w, session)[name])
  {}

  lemma FewerStaged(w: World, w': World, texts: Texts)
    requires StagingTexts(w, texts)
    requires forall n :: n in w'.staging ==> n in w.staging && w'.staging[n] == w.staging[n]
    ensures StagingTexts(w', texts)
  {
    hide ParseStagedName;
  }

  lemma {:induction false} TakeAllKeepsTexts(w: World, session: string, t: Taking, names: seq<string>, texts: Texts)
    requires session != "" && Recoverable(session) && forall n :: n in names ==> EndsWith(n, REQ)
    requires TextsInv(Midway(w, session, t), texts)
    ensures TextsInv(Midway(w, session, TakeAll(t, session, names)), texts)
  {
    hide TextsInv, Midway, TakeOne, Recoverable, EndsWith;
    if names != [] {
      var init, last := names[..|names| - 1], names[|names| - 1];
      assert names == init + [last] && last in names;
      TakeAllKeepsTexts(w, session, t, init, texts);
      TakeOneKeepsTexts(w, session, TakeAll(t, session, init), last, texts);
    }
  }

  lemma TakeStepKeepsTexts(w: World, s: string, names: seq<string>, w': World, texts: Texts)
    requires TextsInv(w, texts) && Step(w, Take(s, names), w') && w' != w
    ensures TextsInv(w', texts)
  {
    hide Recoverable, TakeAll, ParseStagedName, TrimReq, ValidKey, EndsWith;
    var start := Taking(QueueOf(w, s), w.staging, [], []);
    assert w.working + [] == w.working;
    assert forall q :: QueueOf(Midway(w, s, start), q) == QueueOf(w, q);
    TakeAllKeepsTexts(w, s, start, names, texts);
  }

  // ---- Other steps -------------------------------------------------------------------------

  /** A step that takes files and work away keeps every text. */
  lemma LessKeepsTexts(w: World, w': World, texts: Texts)
    requires TextsInv(w, texts) && w'.queues == w.queues && w'.used == w.used
    requires forall n :: n in w'.staging ==> n in w.staging && w'.staging[n] == w.staging[n]
    requires forall t :: t in w'.working ==> t in w.working
    ensures TextsInv(w', texts)
  {
    hide ParseStagedName, TrimReq, NamesRequest;
    assert forall s :: QueueOf(w', s) == QueueOf(w, s);
  }

  /** One file is added to one queue, and what it is recorded as is new. */
  lemma AddedText(w: World, w': World, session: string, name: string, file: File, texts: Texts, texts': Texts)
    requires QueueTexts(w, texts) && texts.Keys <= w.used
    requires w'.queues == w.queues[session := QueueOf(w, session)[name := file]]
    requires if NamesRequest(name)
      then (session, TrimReq(name)) !in w.used && texts' == texts[(session, TrimReq(name)) := file]
      else texts' == texts
    ensures QueueTexts(w', texts')
  {
    hide NamesRequest, TrimReq;
    forall s, n | n in QueueOf(w', s) && NamesRequest(n)
      ensures IsText(texts', (s, TrimReq(n)), QueueOf(w', s)[n])
    {
      if s != session || n != name {
        assert n in QueueOf(w, s) && QueueOf(w', s)[n] == QueueOf(w, s)[n];
        QueuedText(w, s, n, texts);
      }
    }
  }

  lemma SubmitKeepsTexts(w: World, e: Event, w': World, texts: Texts)
    requires TextsInv(w, texts) && (e.Submit? || e.Litter?) && Step(w, e, w') && w' != w
    ensures TextsInv(w', Recorded(texts, w, e))
  {
    hide ParseStagedName, TrimReq, ValidKey, EndsWith, Recoverable, QueueTexts;
    if e.Submit? {
      TrimOfQueueName(e.key);
    }
    AddedText(w, w', e.session, if e.Submit? then e.key + REQ else e.name, e.file, texts, Recorded(texts, w, e));
  }

  lemma DyingTakingKeepsTexts(w: World, e: Event, w': World, texts: Texts)
    requires TextsInv(w, texts) && e.DiesTaking? && Step(w, e, w') && w' != w
    ensures TextsInv(w', texts)
  {
    hide ParseStagedName, StagedName, TrimReq, ValidKey, EndsWith, Recoverable, QueueTexts, StagingTexts;
    LesserQueue(w, w', e.session, QueueOf(w, e.session) - {e.name}, texts);
    QueuedText(w, e.session, e.name, texts);
    StagedText(w, w', (e.session, TrimReq(e.name)), QueueOf(w, e.session)[e.name], texts);
  }

  lemma RecoverKeepsTexts(w: World, e: Event, w': World, texts: Texts)
    requires TextsInv(w, texts) && e.Recover? && Step(w, e, w')
    ensures TextsInv(w', texts)
  {
    hide ParseStagedName, TrimReq, ValidKey, EndsWith, Recoverable, NamesRequest;
    var found :| IsRecovery(w.staging, e.stale, found) && EachOnce(found) && Recovered(w, e.stale, found, w');
    assert forall s :: QueueOf(w', s) == QueueOf(w, s);
    forall t | t in found ensures IsText(texts, RequestOf(t), File(true, t.text)) {
      assert Recovers(w.staging, e.stale, t.staged);
    }
  }

  lemma StepKeepsTexts(w: World, e: Event, w': World, texts: Texts)
    requires TextsInv(w, texts) && Step(w, e, w')
    ensures TextsInv(w', Recorded(texts, w, e))
  {
    hide TextsInv, Recoverable, TakeAll, IsListing, RecoverableFiles, IsRecovery, Expired, ValidKey;
    match e {
      case Submit(_, _, _) =>
        if w' != w {
          SubmitKeepsTexts(w, e, w', texts);
        }
      case Litter(_, _, _) =>
        if w' != w {
          SubmitKeepsTexts(w, e, w', texts);
        }
      case Take(s, names) =>
        if w' != w {
          TakeStepKeepsTexts(w, s, names, w', texts);
        }
      case Serve(i, _) =>
        if i < |w.working| {
          LessKeepsTexts(w, w', texts);
        }
      case Interrupted(i, _) =>
        if i < |w.working| {
          LessKeepsTexts(w, w', texts);
        }
      case Crash => LessKeepsTexts(w, w', texts);
      case DiesTaking(_, _) =>
        if w' != w {
          DyingTakingKeepsTexts(w, e, w', texts);
        }
      case Recover(_) => RecoverKeepsTexts(w, e, w', texts);
      case DiesRecovering(_, _) =>
        if w' != w {
          LessKeepsTexts(w, w', texts);
        }
    }
  }

  lemma NoTextsYet()
    ensures TextsInv(EMPTY, map[])
  {}

  lemma {:induction false} RunKeepsTexts(worlds: seq<World>, events: seq<Event>, n: nat)
    requires IsRun(worlds, events) && n <= |events|
    ensures TextsInv(worlds[n], TextsOf(worlds, events, n))
  {
    hide Step, TextsInv, Recorded;
    if n > 0 {
      RunKeepsTexts(worlds, events, n - 1);
      assert Step(worlds[n - 1], events[n - 1], worlds[n]);
      StepKeepsTexts(worlds[n - 1], events[n - 1], worlds[n], TextsOf(worlds, events, n - 1));
    } else {
      NoTextsYet();
    }
  }

  lemma {:induction false} RecordedWasSubmitted(worlds: seq<World>, events: seq<Event>, n: nat, r: Request)
    requires |worlds| > |events| && n <= |events| && r in TextsOf(worlds, events, n)
    ensures exists k :: 0 <= k < n && events[k] == Submit(r.0, r.1, TextsOf(worlds, events, n)[r])
  {
    hide Recoverable, ValidKey;
    var before := TextsOf(worlds, events, n - 1);
    var e := events[n - 1];
    if e.Submit? && (e.session, e.key) == r && TextsOf(worlds, events, n)[r] == e.file {
      assert events[n - 1] == Submit(r.0, r.1, TextsOf(worlds, events, n)[r]);
    } else {
      RecordedWasSubmitted(worlds, events, n - 1, r);
    }
  }

  /**
   * Over every run, whatever was taken, staged, left behind by a death and recovered: each request at
   * hand is one that its own session submitted under that key, with exactly the text it has there.
   */
  lemma ServedTextIsSubmitted(worlds: seq<World>, events: seq<Event>, n: nat, t: TakenRequest)
    requires IsRun(worlds, events) && n <= |events| && t in worlds[n].working
    ensures exists k :: 0 <= k < n && events[k] == Submit(t.session, t.key, File(true, t.text))
  {
    RunKeepsTexts(worlds, events, n);
    RecordedWasSubmitted(worlds, events, n, RequestOf(t));
    hide IsRun, QueueTexts, StagingTexts, TextsOf;
  }
}

/** Whole runs of the bridge: clients, the broker, its crashes, and what becomes of each request. */
module BridgeRuns {
  import opened BridgeQueue
  import opened BridgeResponses
  import opened Common
  import opened StagedNames
  import opened Utf8

  /** A request: the session it came from and its key. */
  type Request = (string, string)

  /**
   * Everything there is: the sessions' queues, the staging directory, what the broker is working
   * on; which requests were ever submitted readable (`owed`), and submitted at all; whose staged file
   * was removed after all (`retired`); and to which an answer was written, or left to a saga.
   */
  datatype World = World(queues: map<string, Directory>, staging: Directory, working: seq<TakenRequest>,
                         owed: set<Request>, used: set<Request>, retired: set<Request>,
                         answered: set<Request>, deferred: set<Request>)

  const EMPTY := World(map[], map[], [], {}, {}, {}, {}, {})

  function QueueOf(w: World, session: string): Directory {
    if session in w.queues then w.queues[session] else map[]
  }

  /** A name that is a request's when the broker strips and validates it. */
  predicate NamesRequest(name: string) { EndsWith(name, REQ) && ValidKey(TrimReq(name)) }

  /**
   * What can happen: a client submits a request under its own key, or leaves any file that names no
   * request; the broker takes some names, and serves what it works on, whatever that comes to; it
   * dies, also between answering a request and finishing it, between moving a request and reading it,
   * or while it recovers; and it recovers what it finds staged, unless it is too old.
   */
  datatype Event = Submit(session: string, key: string, file: File)
                 | Litter(session: string, name: string, file: File)
                 | Take(session: string, names: seq<string>)
                 | Serve(index: nat, reply: Reply)
                 | Interrupted(index: nat, reply: Reply)
                 | Crash
                 | DiesTaking(session: string, name: string)
                 | Recover(stale: set<string>)
                 | DiesRecovering(stale: set<string>, removed: set<string>)

  function RequestOf(t: TakenRequest): Request { (t.session, t.key) }

  /** The step relation; a step that cannot happen leaves the world as it is. */
  ghost predicate Step(w: World, e: Event, w': World) {
    match e
    case Submit(s, k, file) =>
      if s == "" || !Recoverable(s) || !ValidKey(k) || (s, k) in w.used then w' == w else
      w' == w.(queues := w.queues[s := QueueOf(w, s)[k + REQ := file]], used := w.used + {(s, k)},
               owed := if file.readable then w.owed + {(s, k)} else w.owed)
    case Litter(s, name, file) =>
      if NamesRequest(name) then w' == w
      else w' == w.(queues := w.queues[s := QueueOf(w, s)[name := file]])
    case Take(s, names) =>
      if s == "" || !Recoverable(s) || !IsListing(QueueOf(w, s), names) then w' == w else
      var t := TakeAll(Taking(QueueOf(w, s), w.staging, [], []), s, names);
      w' == w.(queues := w.queues[s := t.queue], staging := t.staging, working := w.working + t.taken)
    case Serve(i, reply) =>
      if i >= |w.working| then w' == w else
      w' == Replied(w, RequestOf(w.working[i]), reply).(
        staging := w.staging - {w.working[i].staged}, retired := w.retired + {RequestOf(w.working[i])},
        working := w.working[..i] + w.working[i + 1..])
    case Interrupted(i, reply) =>
      if i >= |w.working| then w' == w else
      w' == Replied(w, RequestOf(w.working[i]), reply).(working := [])
    case Crash => w' == w.(working := [])
    case DiesTaking(s, name) =>
      if s == "" || !Recoverable(s) || name !in QueueOf(w, s) || !NamesRequest(name) then w' == w else
      w' == Moved(w, (s, TrimReq(name)), name).(working := [])
    case Recover(stale) =>
      exists found :: IsRecovery(w.staging, stale, found) && EachOnce(found) && Recovered(w, stale, found, w')
    case DiesRecovering(stale, removed) =>
      if exists n :: n in removed && Recovers(w.staging, stale, n) then w' == w else
      w' == w.(staging := w.staging - removed, retired := w.retired + Expired(w, removed), working := [])
  }

  /** A request file moved from its queue to staging, and not looked at yet. */
  function Moved(w: World, r: Request, name: string): World
    requires name in QueueOf(w, r.0)
  {
    w.(queues := w.queues[r.0 := QueueOf(w, r.0) - {name}],
       staging := w.staging[StagedName(r.0, r.1) := QueueOf(w, r.0)[name]])
  }

  /** What replying to a request records. */
  function Replied(w: World, r: Request, reply: Reply): World {
    w.(answered := if Writes(reply) then w.answered + {r} else w.answered,
       deferred := if reply.Deferred? then w.deferred + {r} else w.deferred)
  }

  predicate Recovered(w: World, stale: set<string>, found: seq<TakenRequest>, w': World) {
    w' == w.(staging := RecoverableFiles(w.staging, stale), working := w.working + found,
             retired := w.retired + Expired(w, stale))
  }

  /** The owed requests whose staged files are too old. */
  function Expired(w: World, stale: set<string>): set<Request> {
    set r | r in w.owed && Staged(w, r) && StagedName(r.0, r.1) in stale
  }

  /** What a call of `TakeRequests` does to one session's queue is a step of the run. */
  lemma TakeRequestsIsAStep(w: World, session: string, listing: seq<Option<string>>, scanned: nat, chosen: seq<string>,
                            refused: seq<Refusal>, t: Taking)
    requires session != "" && Recoverable(session) && Lists(QueueOf(w, session), listing) && scanned <= |listing|
    requires multiset(chosen) <= multiset(WantedNames(listing[..scanned]))
    requires t == TakeAll(Taking(QueueOf(w, session), w.staging, [], refused), session, chosen)
    ensures Step(w, Take(session, chosen), Midway(w, session, t))
  {
    hide Recoverable, TakeAll, IsListing, Lists, WantedNames;
    ChosenIsListing(QueueOf(w, session), listing, scanned, chosen);
    RefusalsChangeNothing(Taking(QueueOf(w, session), w.staging, [], []), refused, session, chosen);
  }

  ghost predicate IsRun(worlds: seq<World>, events: seq<Event>) {
    |worlds| == |events| + 1 && worlds[0] == EMPTY
    && forall i :: 0 <= i < |events| ==> Step(worlds[i], events[i], worlds[i + 1])
  }

  predicate Queued(w: World, r: Request) { r.1 + REQ in QueueOf(w, r.0) }

  predicate Staged(w: World, r: Request) { StagedName(r.0, r.1) in w.staging }

  /** A queue holds no file under a request's name but the request itself. */
  predicate QueueInv(w: World, session: string) {
    forall name :: name in QueueOf(w, session) && NamesRequest(name) ==>
      && name == TrimReq(name) + REQ && (session, TrimReq(name)) in w.used
      && (QueueOf(w, session)[name].readable <==> (session, TrimReq(name)) in w.owed)
  }

  /** A staged file is a request out of its queue, and one that is owed an answer if it can be read. */
  predicate StagingInv(w: World, name: string)
    requires name in w.staging
  {
    && ParseStagedName(name).Some?
    && var r := ParseStagedName(name).value;
       && Sound(r) && name == StagedName(r.0, r.1) && r in w.used && !Queued(w, r) && r !in w.retired
       && (w.staging[name].readable <==> r in w.owed)
  }

  predicate Sound(r: Request) { r.0 != "" && Recoverable(r.0) && ValidKey(r.1) }

  /** A request friring owes an answer is queued or staged until its staged file is removed, and never after. */
  predicate OwedInv(w: World, r: Request) {
    Sound(r) && if r in w.retired then !Queued(w, r) && !Staged(w, r)
      else (Queued(w, r) && QueueOf(w, r.0)[r.1 + REQ].readable) || Staged(w, r)
  }

  ghost predicate QueuesInv(w: World) { forall s :: QueueInv(w, s) }

  ghost predicate AllStagingInv(w: World) { forall name :: name in w.staging ==> StagingInv(w, name) }

  ghost predicate AllOwedInv(w: World) { forall r :: r in w.owed ==> OwedInv(w, r) }

  /** The broker works on an owed request that has left its queue, under its own staged name. */
  predicate WorkInv(w: World, t: TakenRequest) {
    RequestOf(t) in w.owed && t.staged == StagedName(t.session, t.key) && !Queued(w, RequestOf(t))
  }

  ghost predicate WorkingInv(w: World) { forall t :: t in w.working ==> WorkInv(w, t) }

  ghost predicate Inv(w: World) {
    QueuesInv(w) && AllStagingInv(w) && AllOwedInv(w) && WorkingInv(w) && w.owed <= w.used && w.retired <= w.owed
  }

  // ---- Every step keeps the invariant ------------------------------------------------------

  /** Staged names of different requests differ. */
  lemma StagedNamesDiffer(r: Request, q: Request)
    requires Sound(r) && Sound(q) && StagedName(r.0, r.1) == StagedName(q.0, q.1)
    ensures r == q
  {
    StagedNameRoundTripIff(r.0, r.1);
    StagedNameRoundTripIff(q.0, q.1);
  }

  /** A world in the middle of a take. */
  function Midway(w: World, session: string, t: Taking): World {
    w.(queues := w.queues[session := t.queue], staging := t.staging, working := w.working + t.taken)
  }

  lemma OtherStaysStaged(t: Taking, session: string, name: string, q: Request)
    requires Sound(q) && (q.0 != session || q.1 != TrimReq(name))
    requires session != "" && Recoverable(session)
    ensures StagedName(q.0, q.1) in TakeOne(t, session, name).staging <==> StagedName(q.0, q.1) in t.staging
  {
    var key := TrimReq(name);
    if ValidKey(key) && StagedName(q.0, q.1) == StagedName(session, key) {
      StagedNamesDiffer(q, (session, key));
    }
    hide SanitizeSignalKey, StagedName, TrimReq, ValidKey, Recoverable;
  }

  lemma OtherStaysQueued(t: Taking, session: string, name: string, n: string)
    requires n != name
    ensures var t' := TakeOne(t, session, name);
      (n in t'.queue <==> n in t.queue) && (n in t.queue ==> t'.queue[n] == t.queue[n])
  {
    hide StagedName, TrimReq, ValidKey;
  }

  /** Taking a name leaves every other request where it is. */
  lemma OtherRequestUntouched(w: World, session: string, t: Taking, name: string, q: Request)
    requires Sound(q) && (q.0 != session || q.1 != TrimReq(name))
    requires session != "" && Recoverable(session)
    ensures var before, after := Midway(w, session, t), Midway(w, session, TakeOne(t, session, name));
      && Queued(after, q) == Queued(before, q) && Staged(after, q) == Staged(before, q)
      && (Queued(before, q) ==> QueueOf(after, q.0)[q.1 + REQ] == QueueOf(before, q.0)[q.1 + REQ])
  {
    TrimOfQueueName(q.1);
    hide SanitizeSignalKey, StagedName, TrimReq, ValidKey, Recoverable, TakeOne;
    OtherStaysStaged(t, session, name, q);
    if q.0 == session {
      OtherStaysQueued(t, session, name, q.1 + REQ);
    }
  }

  /** A taken request is staged if it could be read, and was owed only if it could. */
  lemma TakenRequestIsStaged(w: World, session: string, t: Taking, key: string)
    requires Sound((session, key)) && key + REQ in t.queue
    ensures var after := Midway(w, session, TakeOne(t, session, key + REQ));
      && !Queued(after, (session, key))
      && (t.queue[key + REQ].readable ==> Staged(after, (session, key)))
  {
    TrimOfQueueName(key);
  }

  lemma OwedAfterTake(w: World, session: string, t: Taking, key: string, q: Request)
    requires Sound((session, key)) && key + REQ in t.queue
    requires OwedInv(Midway(w, session, t), q) && !Staged(Midway(w, session, t), (session, key))
    ensures OwedInv(Midway(w, session, TakeOne(t, session, key + REQ)), q)
  {
    TrimOfQueueName(key);
    if q == (session, key) {
      TakenRequestIsStaged(w, session, t, key);
    } else {
      OtherRequestUntouched(w, session, t, key + REQ, q);
    }
    hide ParseStagedName, SanitizeSignalKey, StagedName, TrimReq, ValidKey, FindSplit, TakeOne;
  }

  lemma StagingAfterTake(w: World, session: string, t: Taking, key: string, n: string)
    requires Sound((session, key)) && key + REQ in t.queue
    requires t.queue[key + REQ].readable ==> (session, key) in w.owed
    requires (session, key) !in w.retired && (session, key) in w.used
    requires n in t.staging ==> StagingInv(Midway(w, session, t), n)
    requires n in TakeOne(t, session, key + REQ).staging
    ensures StagingInv(Midway(w, session, TakeOne(t, session, key + REQ)), n)
  {
    TrimOfQueueName(key);
    StagedNameRoundTripIff(session, key);
    if n == StagedName(session, key) {
      TakenRequestIsStaged(w, session, t, key);
    } else {
      OtherRequestUntouched(w, session, t, key + REQ, ParseStagedName(n).value);
    }
    hide SanitizeSignalKey, StagedName, TrimReq, ValidKey, FindSplit, ParseStagedName;
  }

  lemma QueueAfterTake(w: World, session: string, t: Taking, name: string, s: string)
    requires QueueInv(Midway(w, session, t), s)
    ensures QueueInv(Midway(w, session, TakeOne(t, session, name)), s)
  {
    hide SanitizeSignalKey, StagedName, TrimReq, ValidKey, FindSplit, ParseStagedName, EndsWith;
  }

  /** A queued request is not staged, and is owed an answer if it can be read. */
  lemma QueuedIsNotStaged(w: World, r: Request)
    requires Sound(r) && Inv(w) && Queued(w, r)
    ensures !Staged(w, r) && r !in w.retired && r in w.used && (QueueOf(w, r.0)[r.1 + REQ].readable <==> r in w.owed)
  {
    assert r in w.owed ==> OwedInv(w, r);
    TrimOfQueueName(r.1);
    StagedNameRoundTripIff(r.0, r.1);
    assert QueueInv(w, r.0);
    assert NamesRequest(r.1 + REQ);
    hide SanitizeSignalKey, StagedName, TrimReq, ValidKey, FindSplit, ParseStagedName, EndsWith, OwedInv;
  }

  lemma StagedIsSound(w: World, name: string)
    requires Inv(w) && name in w.staging
    ensures ParseStagedName(name).Some? && Sound(ParseStagedName(name).value)
  {
    hide ParseStagedName, StagedName;
    assert StagingInv(w, name);
  }

  /** Taking puts nothing back into a queue. */
  lemma TakingUnqueues(w: World, session: string, t: Taking, name: string, q: Request)
    requires Queued(Midway(w, session, TakeOne(t, session, name)), q)
    ensures Queued(Midway(w, session, t), q)
  {
    hide StagedName, TrimReq, ValidKey;
  }

  lemma WorkAfterTake(w: World, session: string, t: Taking, key: string, x: TakenRequest)
    requires Sound((session, key)) && key + REQ in t.queue
    requires t.queue[key + REQ].readable ==> (session, key) in w.owed
    requires x in TakeOne(t, session, key + REQ).taken && x !in t.taken
    ensures WorkInv(Midway(w, session, TakeOne(t, session, key + REQ)), x)
  {
    TrimOfQueueName(key);
    TakenRequestIsStaged(w, session, t, key);
    hide SanitizeSignalKey, StagedName, TrimReq, ValidKey, Recoverable, EndsWith, Queued, Staged;
  }

  lemma WorkingAfterTake(w: World, session: string, t: Taking, key: string)
    requires Sound((session, key)) && key + REQ in t.queue && WorkingInv(Midway(w, session, t))
    requires t.queue[key + REQ].readable ==> (session, key) in w.owed
    ensures WorkingInv(Midway(w, session, TakeOne(t, session, key + REQ)))
  {
    hide TakeOne, StagedName, Queued, Sound, ValidKey, RequestOf;
    var before, after := Midway(w, session, t), Midway(w, session, TakeOne(t, session, key + REQ));
    forall x | x in after.working ensures WorkInv(after, x) {
      if x in before.working {
        assert WorkInv(before, x);
        if Queued(after, RequestOf(x)) {
          TakingUnqueues(w, session, t, key + REQ, RequestOf(x));
        }
      } else {
        WorkAfterTake(w, session, t, key, x);
      }
    }
  }

  lemma WorkingAfterDrop(w: World, session: string, t: Taking, name: string)
    requires WorkingInv(Midway(w, session, t)) && !ValidKey(TrimReq(name))
    ensures WorkingInv(Midway(w, session, TakeOne(t, session, name)))
  {
    hide StagedName, Queued, ValidKey, RequestOf;
    var before, after := Midway(w, session, t), Midway(w, session, TakeOne(t, session, name));
    assert after.working == before.working;
    forall x | x in after.working ensures WorkInv(after, x) {
      assert WorkInv(before, x);
      if Queued(after, RequestOf(x)) {
        TakingUnqueues(w, session, t, name, RequestOf(x));
      }
    }
  }

  /** Moving a request from its queue to staging keeps the invariant. */
  lemma TakeRequestKeepsInv(w: World, session: string, t: Taking, key: string)
    requires Sound((session, key)) && Inv(Midway(w, session, t)) && key + REQ in t.queue
    ensures Inv(Midway(w, session, TakeOne(t, session, key + REQ)))
  {
    hide SanitizeSignalKey, StagedName, TrimReq, ValidKey, FindSplit, ParseStagedName, EndsWith, Staged;
    hide OwedInv, StagingInv, QueueInv, TakeOne, Recoverable;
    var before, after := Midway(w, session, t), Midway(w, session, TakeOne(t, session, key + REQ));
    QueuedIsNotStaged(before, (session, key));
    WorkingAfterTake(w, session, t, key);
    hide WorkingInv;
    forall q | q in after.owed ensures OwedInv(after, q) {
      OwedAfterTake(w, session, t, key, q);
    }
    forall n | n in after.staging ensures StagingInv(after, n) {
      StagingAfterTake(w, session, t, key, n);
    }
    forall s ensures QueueInv(after, s) {
      QueueAfterTake(w, session, t, key + REQ, s);
    }
  }

  /** Dropping a file that names no request keeps the invariant. */
  lemma DropKeepsInv(w: World, session: string, t: Taking, name: string)
    requires session != "" && Recoverable(session)
    requires Inv(Midway(w, session, t)) && !ValidKey(TrimReq(name))
    ensures Inv(Midway(w, session, TakeOne(t, session, name)))
  {
    var before, after := Midway(w, session, t), Midway(w, session, TakeOne(t, session, name));
    hide SanitizeSignalKey, StagedName, TrimReq, ValidKey, FindSplit, ParseStagedName, EndsWith, Staged;
    forall q | q in after.owed ensures OwedInv(after, q) {
      assert OwedInv(before, q);
      OtherRequestUntouched(w, session, t, name, q);
    }
    forall n | n in after.staging ensures StagingInv(after, n) {
      assert StagingInv(before, n);
      OtherRequestUntouched(w, session, t, name, ParseStagedName(n).value);
    }
    forall s ensures QueueInv(after, s) {
      assert QueueInv(before, s);
      QueueAfterTake(w, session, t, name, s);
    }
    WorkingAfterDrop(w, session, t, name);
  }

  /** Taking one listed name keeps the invariant. */
  lemma TakeOneKeepsInv(w: World, session: string, t: Taking, name: string)
    requires session != "" && Recoverable(session) && Inv(Midway(w, session, t))
    requires name in t.queue && EndsWith(name, REQ)
    ensures Inv(Midway(w, session, TakeOne(t, session, name)))
  {
    if ValidKey(TrimReq(name)) {
      assert QueueInv(Midway(w, session, t), session);
      TakeRequestKeepsInv(w, session, t, TrimReq(name));
    } else {
      DropKeepsInv(w, session, t, name);
    }
  }

  lemma SameQueueInv(w: World, w': World, s: string)
    requires QueueInv(w, s) && QueueOf(w', s) == QueueOf(w, s) && w'.used == w.used && w'.owed == w.owed
    ensures QueueInv(w', s)
  {
    hide SanitizeSignalKey, StagedName, TrimReq, ValidKey, FindSplit, ParseStagedName, EndsWith, QueueOf, NamesRequest;
  }

  lemma SameStagingInv(w: World, w': World, n: string)
    requires n in w.staging && StagingInv(w, n) && n in w'.staging && w'.staging[n] == w.staging[n]
    requires w'.owed == w.owed && w'.used == w.used && forall s :: QueueOf(w', s) == QueueOf(w, s)
    requires ParseStagedName(n).Some? && ParseStagedName(n).value !in w'.retired
    ensures StagingInv(w', n)
  {
    hide SanitizeSignalKey, StagedName, TrimReq, ValidKey, FindSplit, ParseStagedName, EndsWith, QueueOf;
  }

  lemma SameOwedInv(w: World, w': World, q: Request)
    requires OwedInv(w, q) && forall s :: QueueOf(w', s) == QueueOf(w, s)
    requires if q in w'.retired then !Queued(w, q) && !Staged(w', q)
      else q !in w.retired && (Staged(w, q) ==> Staged(w', q))
    ensures OwedInv(w', q)
  {
    hide SanitizeSignalKey, StagedName, TrimReq, ValidKey, FindSplit, ParseStagedName, EndsWith, QueueOf;
    hide Sound, Staged;
  }

  /** A step that touches no queue, and retires exactly what it unstages, keeps the invariant. */
  lemma SameQueuesKeepInv(w: World, w': World)
    requires Inv(w) && WorkingInv(w') && forall s :: QueueOf(w', s) == QueueOf(w, s)
    requires w'.used == w.used && w'.owed == w.owed && w'.retired <= w.owed
    requires forall n :: n in w'.staging ==> n in w.staging && w'.staging[n] == w.staging[n]
    requires forall n :: n in w'.staging ==> ParseStagedName(n).Some? && ParseStagedName(n).value !in w'.retired
    requires forall q :: q in w.owed ==>
      if q in w'.retired then !Queued(w, q) && !Staged(w', q) else q !in w.retired && (Staged(w, q) ==> Staged(w', q))
    ensures Inv(w')
  {
    hide SanitizeSignalKey, StagedName, TrimReq, ValidKey, FindSplit, ParseStagedName, EndsWith, QueueOf;
    hide QueueInv, StagingInv, OwedInv, WorkInv, Staged, Queued;
    forall s ensures QueueInv(w', s) {
      SameQueueInv(w, w', s);
    }
    forall n | n in w'.staging ensures StagingInv(w', n) {
      SameStagingInv(w, w', n);
    }
    forall q | q in w'.owed ensures OwedInv(w', q) {
      SameOwedInv(w, w', q);
    }
  }

  /** A step that touches no directory and retires nothing keeps the invariant. */
  lemma SameFilesKeepInv(w: World, w': World)
    requires Inv(w) && WorkingInv(w') && forall s :: QueueOf(w', s) == QueueOf(w, s)
    requires w'.used == w.used && w'.owed == w.owed && w'.retired == w.retired && w'.staging == w.staging
    ensures Inv(w')
  {
    hide SanitizeSignalKey, StagedName, TrimReq, ValidKey, FindSplit, ParseStagedName, EndsWith, QueueOf, Queued;
    forall n | n in w'.staging ensures ParseStagedName(n).Some? && ParseStagedName(n).value !in w'.retired {
      assert StagingInv(w, n);
    }
    forall q | q in w.owed && q in w'.retired ensures !Queued(w, q) && !Staged(w', q) {
      assert OwedInv(w, q);
    }
    hide QueuesInv, AllStagingInv, AllOwedInv;
    SameQueuesKeepInv(w, w');
  }

  lemma TakeStarts(w: World, session: string)
    requires Inv(w)
    ensures Inv(Midway(w, session, Taking(QueueOf(w, session), w.staging, [], [])))
  {
    var w' := Midway(w, session, Taking(QueueOf(w, session), w.staging, [], []));
    assert forall s :: QueueOf(w', s) == QueueOf(w, s);
    assert w'.working == w.working;
    SameWorking(w, w');
    hide Staged, QueuesInv, AllStagingInv, AllOwedInv, QueueOf;
    SameFilesKeepInv(w, w');
  }

  /** Working on less, with the same queues, is still working on owed requests. */
  lemma SameWorking(w: World, w': World)
    requires WorkingInv(w) && w'.owed == w.owed && forall s :: QueueOf(w', s) == QueueOf(w, s)
    requires forall t :: t in w'.working ==> t in w.working
    ensures WorkingInv(w')
  {
    hide StagedName, QueueOf;
    forall t | t in w'.working ensures WorkInv(w', t) {
      assert WorkInv(w, t);
    }
  }

  lemma {:induction false} TakeKeepsInv(w: World, session: string, names: seq<string>)
    requires session != "" && Recoverable(session) && Inv(w) && IsListing(QueueOf(w, session), names)
    ensures Inv(Midway(w, session, TakeAll(Taking(QueueOf(w, session), w.staging, [], []), session, names)))
  {
    hide Inv, Recoverable, Midway, TakeOne;
    if names == [] {
      TakeStarts(w, session);
    } else {
      var init, last := names[..|names| - 1], names[|names| - 1];
      TakeKeepsInv(w, session, init);
      TakeAllEmpties(Taking(QueueOf(w, session), w.staging, [], []), session, init, last);
      TakeOneKeepsInv(w, session, TakeAll(Taking(QueueOf(w, session), w.staging, [], []), session, init), last);
    }
  }

  /** One file is added to one queue: a request under a new key, or a file that names none. */
  predicate AddsFile(w: World, session: string, name: string, file: File, w': World) {
    && w' == w.(queues := w.queues[session := QueueOf(w, session)[name := file]], used := w'.used, owed := w'.owed)
    && if NamesRequest(name)
       then var r := (session, TrimReq(name));
         Sound(r) && name == r.1 + REQ && r !in w.used && w'.used == w.used + {r}
         && w'.owed == if file.readable then w.owed + {r} else w.owed
       else w'.used == w.used && w'.owed == w.owed
  }

  lemma QueueAfterAdd(w: World, session: string, name: string, file: File, w': World, s: string)
    requires AddsFile(w, session, name, file, w') && QueueInv(w, s) && w.owed <= w.used
    ensures QueueInv(w', s)
  {
    hide SanitizeSignalKey, StagedName, TrimReq, ValidKey, FindSplit, ParseStagedName, EndsWith, Recoverable;
  }

  /** A request that was there before stays queued or unqueued as it was. */
  lemma OldRequestAfterAdd(w: World, session: string, name: string, file: File, w': World, q: Request)
    requires AddsFile(w, session, name, file, w') && q in w.used && Sound(q)
    ensures Queued(w', q) == Queued(w, q)
    ensures Queued(w, q) ==> QueueOf(w', q.0)[q.1 + REQ] == QueueOf(w, q.0)[q.1 + REQ]
  {
    TrimOfQueueName(q.1);
    hide SanitizeSignalKey, TrimReq, ValidKey, FindSplit, EndsWith, Recoverable;
  }

  lemma OwedAfterAdd(w: World, session: string, name: string, file: File, w': World, q: Request)
    requires AddsFile(w, session, name, file, w') && Inv(w) && q in w'.owed
    ensures OwedInv(w', q)
  {
    if q in w.owed {
      assert OwedInv(w, q);
      OldRequestAfterAdd(w, session, name, file, w', q);
    }
    hide SanitizeSignalKey, StagedName, TrimReq, ValidKey, FindSplit, EndsWith, Recoverable, QueuesInv, AllStagingInv;
  }

  lemma StagingAfterAdd(w: World, session: string, name: string, file: File, w': World, n: string)
    requires AddsFile(w, session, name, file, w') && Inv(w) && n in w'.staging
    ensures StagingInv(w', n)
  {
    hide SanitizeSignalKey, StagedName, TrimReq, ValidKey, FindSplit, ParseStagedName, EndsWith, Recoverable, QueuesInv;
    StagedIsSound(w, n);
    assert StagingInv(w, n);
    OldRequestAfterAdd(w, session, name, file, w', ParseStagedName(n).value);
    hide AllStagingInv, AllOwedInv, Queued;
  }

  /** Adding one file to one queue keeps the invariant when the file is a new request or names none. */
  lemma AddFileKeepsInv(w: World, session: string, name: string, file: File, w': World)
    requires Inv(w) && AddsFile(w, session, name, file, w')
    ensures Inv(w')
  {
    forall s ensures QueueInv(w', s) {
      assert QueueInv(w, s);
      hide QueueInv, AddsFile;
      QueueAfterAdd(w, session, name, file, w', s);
    }
    forall q | q in w'.owed ensures OwedInv(w', q) {
      hide OwedInv, AddsFile, Inv;
      OwedAfterAdd(w, session, name, file, w', q);
    }
    forall n | n in w'.staging ensures StagingInv(w', n) {
      hide StagingInv, AddsFile, Inv;
      StagingAfterAdd(w, session, name, file, w', n);
    }
    forall t | t in w'.working ensures WorkInv(w', t) {
      hide WorkInv, AddsFile;
      WorkAfterAdd(w, session, name, file, w', t);
    }
    AddSameOwed(w, session, name, file, w');
    hide OwedInv, StagingInv, QueueInv, WorkInv, AddsFile;
  }

  lemma AddSameOwed(w: World, session: string, name: string, file: File, w': World)
    requires w.owed <= w.used && w.retired <= w.owed && AddsFile(w, session, name, file, w')
    ensures w'.owed <= w'.used && w'.retired <= w'.owed && w'.working == w.working
  {
    hide NamesRequest, Sound, TrimReq;
  }

  lemma WorkAfterAdd(w: World, session: string, name: string, file: File, w': World, t: TakenRequest)
    requires AddsFile(w, session, name, file, w') && Inv(w) && t in w'.working
    ensures WorkInv(w', t)
  {
    hide SanitizeSignalKey, StagedName, TrimReq, ValidKey, FindSplit, EndsWith, Recoverable;
    hide QueuesInv, AllStagingInv, Queued;
    assert WorkInv(w, t);
    assert OwedInv(w, RequestOf(t));
    OldRequestAfterAdd(w, session, name, file, w', RequestOf(t));
    hide AllOwedInv, NamesRequest;
  }

  /** Removing one request's staged file leaves the others'. */
  lemma OthersStayStaged(w: World, w': World, r: Request, q: Request)
    requires Sound(r) && Sound(q) && w'.staging == w.staging - {StagedName(r.0, r.1)}
    ensures if q == r then !Staged(w', q) else Staged(w', q) == Staged(w, q)
  {
    if StagedName(q.0, q.1) == StagedName(r.0, r.1) {
      StagedNamesDiffer(q, r);
    }
    hide Sound, StagedName;
  }

  lemma OwedIsSound(w: World, q: Request)
    requires AllOwedInv(w) && q in w.owed
    ensures Sound(q) && (q in w.retired ==> !Queued(w, q) && !Staged(w, q))
  {
    hide Sound, Queued, Staged;
    assert OwedInv(w, q);
  }

  lemma FromInv(w: World)
    requires Inv(w)
    ensures QueuesInv(w) && AllStagingInv(w) && AllOwedInv(w) && WorkingInv(w)
  {}

  /** A staged file is its own request's, and that request is not retired. */
  lemma StagedIsOwn(w: World, n: string)
    requires AllStagingInv(w) && n in w.staging
    ensures ParseStagedName(n).Some? && ParseStagedName(n).value !in w.retired
    ensures n == StagedName(ParseStagedName(n).value.0, ParseStagedName(n).value.1)
  {
    hide ParseStagedName, StagedName, Queued;
    assert StagingInv(w, n);
  }

  /** Serving a request retires it, and no other, whatever became of its answer. */
  lemma ServeKeepsInv(w: World, w': World, i: nat, reply: Reply)
    requires Inv(w) && Step(w, Serve(i, reply), w')
    ensures Inv(w')
    ensures i < |w.working| ==> w'.retired == w.retired + {RequestOf(w.working[i])}
  {
    hide QueuesInv, AllStagingInv, AllOwedInv, Sound, StagedName, Staged, Queued, QueueOf, Inv, Writes;
    if i < |w.working| {
      var r := RequestOf(w.working[i]);
      assert w.working[i] in w.working;
      FromInv(w);
      assert WorkInv(w, w.working[i]);
      assert forall s :: QueueOf(w', s) == QueueOf(w, s) by { SameQueuesOf(w, w'); }
      assert forall t :: t in w'.working ==> t in w.working;
      SameWorking(w, w');
      hide WorkInv, WorkingInv;
      OwedIsSound(w, r);
      forall q | q in w.owed
        ensures if q in w'.retired then !Queued(w, q) && !Staged(w', q)
          else q !in w.retired && (Staged(w, q) ==> Staged(w', q))
      {
        OwedIsSound(w, q);
        OthersStayStaged(w, w', r, q);
      }
      forall n | n in w'.staging ensures ParseStagedName(n).Some? && ParseStagedName(n).value !in w'.retired {
        StagedIsOwn(w, n);
      }
      RetiredAreOwed(w);
      SameQueuesKeepInv(w, w');
    }
  }

  lemma RetiredAreOwed(w: World)
    requires Inv(w)
    ensures w.retired <= w.owed
  {}

  lemma SameQueuesOf(w: World, w': World)
    requires w'.queues == w.queues
    ensures forall s :: QueueOf(w', s) == QueueOf(w, s)
  {}

  /** Dying, also right after an answer was written, keeps the invariant. */
  lemma DyingKeepsInv(w: World, w': World)
    requires Inv(w) && w' == w.(working := [], answered := w'.answered, deferred := w'.deferred)
    ensures Inv(w')
  {
    hide QueuesInv, AllStagingInv, AllOwedInv, StagedName, QueueOf;
    SameQueuesOf(w, w');
    SameFilesKeepInv(w, w');
  }

  /** Recovery unstages of the owed requests exactly those that are too old. */
  lemma RecoveryUnstagesStale(w: World, w': World, stale: set<string>, q: Request)
    requires AllStagingInv(w) && Sound(q) && q in w.owed && w'.staging == RecoverableFiles(w.staging, stale)
    ensures Staged(w', q) <==> Staged(w, q) && StagedName(q.0, q.1) !in stale
  {
    StagedNameRoundTripIff(q.0, q.1);
    hide SanitizeSignalKey, StagedName, TrimReq, ValidKey, FindSplit, ParseStagedName, EndsWith, QueueOf;
    if Staged(w, q) {
      assert StagingInv(w, StagedName(q.0, q.1));
    }
  }

  lemma RecoveredIsOwed(w: World, stale: set<string>, found: seq<TakenRequest>, t: TakenRequest)
    requires AllStagingInv(w) && IsRecovery(w.staging, stale, found) && t in found
    ensures WorkInv(w, t)
  {
    hide SanitizeSignalKey, StagedName, TrimReq, ValidKey, FindSplit, ParseStagedName, EndsWith, Queued;
    assert Recovers(w.staging, stale, t.staged);
    assert StagingInv(w, t.staged);
  }

  lemma WorkingAfterRecovery(w: World, w': World, stale: set<string>, found: seq<TakenRequest>)
    requires Inv(w) && IsRecovery(w.staging, stale, found) && Recovered(w, stale, found, w')
    ensures WorkingInv(w')
  {
    hide QueuesInv, AllOwedInv, IsRecovery, RecoverableFiles, StagedName, Expired, Queued;
    forall t | t in w'.working ensures WorkInv(w', t) {
      if t in found {
        RecoveredIsOwed(w, stale, found, t);
      }
      SameWork(w, w', t);
    }
  }

  lemma SameWork(w: World, w': World, t: TakenRequest)
    requires WorkInv(w, t) && w'.owed == w.owed && w'.queues == w.queues
    ensures WorkInv(w', t)
  {
    hide StagedName;
  }

  /** Unstaging of the owed requests exactly those that are retired with it keeps the invariant. */
  lemma UnstagingKeepsInv(w: World, w': World, gone: set<string>)
    requires Inv(w) && WorkingInv(w') && w'.queues == w.queues && w'.used == w.used && w'.owed == w.owed
    requires forall n :: n in w'.staging ==> n in w.staging && w'.staging[n] == w.staging[n]
    requires forall q :: q in w.owed ==> (Staged(w', q) <==> Staged(w, q) && StagedName(q.0, q.1) !in gone)
    requires w'.retired == w.retired + Expired(w, gone)
    requires forall n :: n in w'.staging && ParseStagedName(n).Some? ==>
      ParseStagedName(n).value !in Expired(w, gone)
    ensures Inv(w')
  {
    FromInv(w);
    SameQueuesOf(w, w');
    RetiredAreOwed(w);
    hide QueuesInv, AllStagingInv, AllOwedInv, WorkingInv, StagedName, Queued, Inv, QueueOf, Staged;
    forall q | q in w.owed
      ensures if q in w'.retired then !Queued(w, q) && !Staged(w', q)
          else q !in w.retired && (Staged(w, q) ==> Staged(w', q))
    {
      OwedIsSound(w, q);
      if Staged(w, q) {
        StagedIsNotQueued(w, q);
      }
    }
    forall n | n in w'.staging ensures ParseStagedName(n).Some? && ParseStagedName(n).value !in w'.retired {
      StagedIsOwn(w, n);
    }
    SameQueuesKeepInv(w, w');
  }

  /** What is still staged is not among what went. */
  lemma StagedIsNotExpired(w: World, gone: set<string>, n: string)
    requires AllStagingInv(w) && n in w.staging && n !in gone && ParseStagedName(n).Some?
    ensures ParseStagedName(n).value !in Expired(w, gone)
  {
    hide StagedName, ParseStagedName;
    StagedIsOwn(w, n);
  }

  lemma RecoverKeepsInv(w: World, w': World, stale: set<string>, found: seq<TakenRequest>)
    requires Inv(w) && IsRecovery(w.staging, stale, found) && Recovered(w, stale, found, w')
    ensures Inv(w')
    ensures forall q :: q in w.owed ==> (Staged(w', q) <==> Staged(w, q) && StagedName(q.0, q.1) !in stale)
  {
    WorkingAfterRecovery(w, w', stale, found);
    FromInv(w);
    hide QueuesInv, AllStagingInv, AllOwedInv, WorkingInv, IsRecovery, Expired, StagedName, Inv, Staged;
    forall q | q in w.owed ensures Staged(w', q) <==> Staged(w, q) && StagedName(q.0, q.1) !in stale {
      OwedIsSound(w, q);
      RecoveryUnstagesStale(w, w', stale, q);
    }
    forall n | n in w'.staging && ParseStagedName(n).Some? ensures ParseStagedName(n).value !in Expired(w, stale) {
      StagedIsNotExpired(w, stale, n);
    }
    UnstagingKeepsInv(w, w', stale);
  }

  lemma DyingRecoveringKeepsInv(w: World, w': World, removed: set<string>)
    requires Inv(w)
    requires w' == w.(staging := w.staging - removed, retired := w.retired + Expired(w, removed), working := [])
    ensures Inv(w')
  {
    FromInv(w);
    hide QueuesInv, AllStagingInv, AllOwedInv, Expired, StagedName, Inv;
    assert WorkingInv(w');
    forall n | n in w'.staging && ParseStagedName(n).Some? ensures ParseStagedName(n).value !in Expired(w, removed) {
      StagedIsNotExpired(w, removed, n);
    }
    UnstagingKeepsInv(w, w', removed);
  }

  /** An unreadable request moved to staging is nobody's. */
  lemma StrayKeepsInv(w: World, w': World, r: Request, file: File)
    requires Inv(w) && Sound(r) && r in w.used && r !in w.owed && !Queued(w, r) && !file.readable
    requires w' == w.(staging := w.staging[StagedName(r.0, r.1) := file], working := [])
    ensures Inv(w')
  {
    FromInv(w);
    RetiredAreOwed(w);
    hide QueuesInv, AllStagingInv, AllOwedInv, StagedName, QueueOf, Sound, ParseStagedName, Queued;
    SameQueuesOf(w, w');
    forall s ensures QueueInv(w', s) {
      QueueInvOf(w, s);
      SameQueueInv(w, w', s);
    }
    forall q | q in w'.owed ensures OwedInv(w', q) {
      StrayIsNotOwed(w, w', r, file, q);
    }
    forall n | n in w'.staging ensures StagingInv(w', n) {
      StagingWithStray(w, w', r, file, n);
    }
    EveryInv(w');
  }

  lemma QueueInvOf(w: World, s: string)
    requires QueuesInv(w)
    ensures QueueInv(w, s)
  {}

  lemma EveryInv(w: World)
    requires (forall s :: QueueInv(w, s)) && (forall n :: n in w.staging ==> StagingInv(w, n))
    requires (forall q :: q in w.owed ==> OwedInv(w, q)) && w.working == [] && w.owed <= w.used && w.retired <= w.owed
    ensures Inv(w)
  {
    hide QueueInv, StagingInv, OwedInv;
  }

  lemma StrayIsNotOwed(w: World, w': World, r: Request, file: File, q: Request)
    requires AllOwedInv(w) && q in w.owed && Sound(r) && r !in w.owed
    requires w'.staging == w.staging[StagedName(r.0, r.1) := file]
    requires w'.queues == w.queues && w'.retired == w.retired
    ensures OwedInv(w', q)
  {
    assert OwedInv(w, q);
    if StagedName(q.0, q.1) == StagedName(r.0, r.1) {
      StagedNamesDiffer(q, r);
    }
    hide StagedName, Recoverable, ValidKey, ParseStagedName;
  }

  lemma StagingWithStray(w: World, w': World, r: Request, file: File, n: string)
    requires AllStagingInv(w) && Sound(r) && r in w.used && r !in w.owed && r !in w.retired && !Queued(w, r)
    requires !file.readable && w' == w.(staging := w.staging[StagedName(r.0, r.1) := file], working := [])
    requires n in w'.staging
    ensures StagingInv(w', n)
  {
    StagedNameRoundTripIff(r.0, r.1);
    hide SanitizeSignalKey, StagedName, ValidKey, FindSplit, ParseStagedName;
    if n != StagedName(r.0, r.1) {
      assert StagingInv(w, n);
    }
  }

  /** Taking an unreadable request and dying before its file is removed leaves the file staged. */
  lemma MovedIsTaken(w: World, s: string, key: string)
    requires Sound((s, key)) && key + REQ in QueueOf(w, s)
    ensures var file := QueueOf(w, s)[key + REQ];
      var taken := Midway(w, s, TakeOne(Taking(QueueOf(w, s), w.staging, [], []), s, key + REQ));
      var moved := Moved(w, (s, key), key + REQ);
      && !Queued(taken, (s, key))
      && moved.(working := []) == taken.(staging := taken.staging[StagedName(s, key) := file], working := [])
      && (file.readable ==> moved.(working := []) == taken.(working := []))
  {
    TrimOfQueueName(key);
    hide TrimReq, StagedName, ValidKey, Recoverable;
  }

  /** Dying between moving a request and reading it keeps the invariant. */
  lemma DyingTakingKeepsInv(w: World, w': World, s: string, name: string)
    requires Inv(w) && s != "" && Recoverable(s) && name in QueueOf(w, s) && NamesRequest(name)
    requires w' == Moved(w, (s, TrimReq(name)), name).(working := [])
    ensures Inv(w')
  {
    var key := TrimReq(name);
    FromInv(w);
    QueueInvOf(w, s);
    assert name == key + REQ && Sound((s, key));
    hide SanitizeSignalKey, StagedName, TrimReq, ValidKey, FindSplit, ParseStagedName, EndsWith, Recoverable;
    hide QueuesInv, AllStagingInv, AllOwedInv, WorkingInv, Inv, TakeOne;
    QueuedIsNotStaged(w, (s, key));
    MovedIsTaken(w, s, key);
    TakeStarts(w, s);
    TakeOneKeepsInv(w, s, Taking(QueueOf(w, s), w.staging, [], []), name);
    var taken := Midway(w, s, TakeOne(Taking(QueueOf(w, s), w.staging, [], []), s, name));
    if QueueOf(w, s)[name].readable {
      DyingKeepsInv(taken, w');
    } else {
      StrayKeepsInv(taken, w', (s, key), QueueOf(w, s)[name]);
    }
  }

  lemma StagedIsNotQueued(w: World, r: Request)
    requires Inv(w) && r in w.owed && Staged(w, r)
    ensures !Queued(w, r)
  {
    OwedIsSound(w, r);
    if Queued(w, r) {
      QueuedIsNotStaged(w, r);
    }
  }

  lemma StepKeepsInv(w: World, e: Event, w': World)
    requires Inv(w) && Step(w, e, w')
    ensures Inv(w')
  {
    hide Inv, Recoverable, TakeAll, IsListing, RecoverableFiles, IsRecovery;
    match e {
      case Submit(s, k, file) =>
        if w' != w {
          TrimOfQueueName(k);
          AddFileKeepsInv(w, s, k + REQ, file, w');
        }
      case Litter(s, name, file) =>
        if w' != w {
          AddFileKeepsInv(w, s, name, file, w');
        }
      case Take(s, names) =>
        if w' != w {
          TakeKeepsInv(w, s, names);
        }
      case Serve(i, reply) => ServeKeepsInv(w, w', i, reply);
      case Interrupted(i, reply) =>
        if w' != w {
          DyingKeepsInv(w, w');
        }
      case Crash => DyingKeepsInv(w, w');
      case DiesTaking(s, name) =>
        if w' != w {
          DyingTakingKeepsInv(w, w', s, name);
        }
      case Recover(stale) =>
        var found :| IsRecovery(w.staging, stale, found) && EachOnce(found) && Recovered(w, stale, found, w');
        RecoverKeepsInv(w, w', stale, found);
      case DiesRecovering(stale, removed) =>
        if w' != w {
          DyingRecoveringKeepsInv(w, w', removed);
        }
    }
  }

  lemma {:induction false} RunKeepsInv(worlds: seq<World>, events: seq<Event>, i: nat)
    requires IsRun(worlds, events) && i <= |events|
    ensures Inv(worlds[i])
  {
    if i > 0 {
      RunKeepsInv(worlds, events, i - 1);
      StepKeepsInv(worlds[i - 1], events[i - 1], worlds[i]);
    }
  }

  // ---- What becomes of a request -----------------------------------------------------------

  /** A step removes the staged file of `r`: it served it, or found it too old. */
  predicate Retires(w: World, e: Event, r: Request) {
    match e
    case Serve(i, _) => i < |w.working| && RequestOf(w.working[i]) == r
    case Recover(stale) => r in Expired(w, stale)
    case DiesRecovering(stale, removed) =>
      (forall n :: n in removed ==> !Recovers(w.staging, stale, n)) && r in Expired(w, removed)
    case _ => false
  }

  /** A step writes an answer to `r`, or leaves it to a saga. */
  predicate SettlesIn(w: World, e: Event, r: Request) {
    match e
    case Serve(i, reply) => i < |w.working| && RequestOf(w.working[i]) == r && Settles(reply)
    case Interrupted(i, reply) => i < |w.working| && RequestOf(w.working[i]) == r && Settles(reply)
    case _ => false
  }

  predicate Settled(w: World, r: Request) { r in w.answered || r in w.deferred }

  lemma StepHistory(w: World, e: Event, w': World, r: Request)
    requires Step(w, e, w')
    ensures r in w'.retired <==> r in w.retired || Retires(w, e, r)
    ensures Settled(w', r) <==> Settled(w, r) || SettlesIn(w, e, r)
  {
    hide Recoverable, TakeAll, IsListing, RecoverableFiles, IsRecovery, Expired, RequestOf, ValidKey, NamesRequest;
    if e.Recover? {
      var found :| IsRecovery(w.staging, e.stale, found) && EachOnce(found) && Recovered(w, e.stale, found, w');
    }
  }

  lemma NothingYet(r: Request)
    ensures r !in EMPTY.retired && !Settled(EMPTY, r)
  {}

  /** What a world has recorded of a request is what the steps before it did. */
  lemma {:induction false} HistoryIs(worlds: seq<World>, events: seq<Event>, n: nat, r: Request)
    requires IsRun(worlds, events) && n <= |events|
    ensures r in worlds[n].retired <==> exists k :: 0 <= k < n && Retires(worlds[k], events[k], r)
    ensures Settled(worlds[n], r) <==> exists k :: 0 <= k < n && SettlesIn(worlds[k], events[k], r)
  {
    hide Step, Retires, SettlesIn, Settled;
    if n > 0 {
      HistoryIs(worlds, events, n - 1, r);
      assert Step(worlds[n - 1], events[n - 1], worlds[n]);
      StepHistory(worlds[n - 1], events[n - 1], worlds[n], r);
    } else {
      NothingYet(r);
    }
  }

  /** A request friring has not lost: it is queued or staged, answered, or left to a saga. */
  predicate Kept(w: World, r: Request) { Queued(w, r) || Staged(w, r) || Settled(w, r) }

  /**
   * Over every run of submits, litter, takes, serves, crashes and recoveries: a readable request that
   * was submitted is never queued and staged at once; it is one of them exactly until its staged file
   * is removed; and it is lost exactly when that happened and no serving of it managed to write an
   * answer or left it to a saga.
   */
  lemma RequestIsKeptIff(worlds: seq<World>, events: seq<Event>, n: nat, r: Request)
    requires IsRun(worlds, events) && n <= |events| && r in worlds[n].owed
    ensures !(Queued(worlds[n], r) && Staged(worlds[n], r))
    ensures Queued(worlds[n], r) || Staged(worlds[n], r)
      <==> forall k :: 0 <= k < n ==> !Retires(worlds[k], events[k], r)
    ensures Kept(worlds[n], r) <==>
      (forall k :: 0 <= k < n ==> !Retires(worlds[k], events[k], r))
      || exists k :: 0 <= k < n && SettlesIn(worlds[k], events[k], r)
  {
    RunKeepsInv(worlds, events, n);
    assert OwedInv(worlds[n], r);
    if Queued(worlds[n], r) {
      QueuedIsNotStaged(worlds[n], r);
    }
    HistoryIs(worlds, events, n, r);
    hide IsRun, Inv, Retires, SettlesIn, Queued, Staged, Settled, Sound;
  }

  /** While every serving settles what it serves and nothing grows too old, no request is lost. */
  lemma NoRequestIsLost(worlds: seq<World>, events: seq<Event>, n: nat, r: Request)
    requires IsRun(worlds, events) && n <= |events| && r in worlds[n].owed
    requires forall k :: 0 <= k < n && Retires(worlds[k], events[k], r) ==> SettlesIn(worlds[k], events[k], r)
    ensures Kept(worlds[n], r) && !(Queued(worlds[n], r) && Staged(worlds[n], r))
  {
    RequestIsKeptIff(worlds, events, n, r);
    hide IsRun, Kept, Retires, SettlesIn;
  }

  /** A request submitted, taken and served with an answer that was not written. */
  function LosingEvents(s: string, k: string, text: string, reply: Reply): seq<Event> {
    [Submit(s, k, File(true, text)), Take(s, [k + REQ]), Serve(0, reply)]
  }

  function LosingWorlds(s: string, k: string, text: string): seq<World> {
    var file, r := File(true, text), (s, k);
    var submitted := EMPTY.(queues := map[s := map[k + REQ := file]], used := {r}, owed := {r});
    var taken := submitted.(queues := map[s := map[]], staging := map[StagedName(s, k) := file],
                            working := [TakenRequest(s, k, text, StagedName(s, k))]);
    [EMPTY, submitted, taken, taken.(staging := map[], working := [], retired := {r})]
  }

  lemma TakeOfOne(t: Taking, s: string, name: string)
    ensures TakeAll(t, s, [name]) == TakeOne(t, s, name)
  {
    hide TakeOne;
    assert [name][..0] == [];
  }

  lemma TakenInOne(s: string, k: string, file: File, name: string)
    requires ValidKey(k) && file.readable && name == k + REQ
    ensures TakeAll(Taking(map[name := file], map[], [], []), s, [name])
      == Taking(map[], map[StagedName(s, k) := file], [TakenRequest(s, k, file.text, StagedName(s, k))], [])
    ensures IsListing(map[name := file], [name])
  {
    hide TrimReq, ValidKey, StagedName, TakeAll;
    TrimOfQueueName(k);
    TakeOfOne(Taking(map[name := file], map[], [], []), s, name);
    var none: Directory := map[];
    assert map[name := file] - {name} == none && none - {StagedName(s, k)} == none;
  }

  lemma LosingFirstSteps(s: string, k: string, text: string)
    requires Sound((s, k))
    ensures var w := LosingWorlds(s, k, text);
      Step(w[0], Submit(s, k, File(true, text)), w[1]) && Step(w[1], Take(s, [k + REQ]), w[2])
  {
    TakenInOne(s, k, File(true, text), k + REQ);
    hide StagedName, TakeAll, IsListing, ValidKey, Recoverable;
    var w := LosingWorlds(s, k, text);
    assert w[1].queues == map[][s := map[][k + REQ := File(true, text)]];
    assert QueueOf(w[1], s) == map[k + REQ := File(true, text)];
  }

  lemma LosingServe(s: string, k: string, text: string, reply: Reply)
    requires !Settles(reply)
    ensures var w := LosingWorlds(s, k, text); Step(w[2], Serve(0, reply), w[3]) && !Kept(w[3], (s, k))
  {
    hide StagedName, Writes;
    var w := LosingWorlds(s, k, text);
    assert w[2].staging - {StagedName(s, k)} == map[];
  }

  lemma UnwrittenAnswerLosesRequest(s: string, k: string, text: string, reply: Reply)
    requires Sound((s, k)) && !Settles(reply)
    ensures IsRun(LosingWorlds(s, k, text), LosingEvents(s, k, text, reply))
    ensures (s, k) in LosingWorlds(s, k, text)[3].owed && !Kept(LosingWorlds(s, k, text)[3], (s, k))
  {
    hide Step, StagedName, Kept, Sound, Settles;
    LosingFirstSteps(s, k, text);
    LosingServe(s, k, text, reply);
  }

  /** An answer over the size limit is written nowhere, and its request is finished all the same. */
  lemma OversizedAnswerLosesRequest(s: string, k: string, text: string, body: seq<byte>, disk: Disk)
    requires Sound((s, k)) && |body| > MAX_BRIDGE_RESPONSE_BYTES
    ensures IsRun(LosingWorlds(s, k, text), LosingEvents(s, k, text, Answer(body, disk)))
    ensures (s, k) in LosingWorlds(s, k, text)[3].owed && !Kept(LosingWorlds(s, k, text)[3], (s, k))
  {
    hide Sound, IsRun, Kept, LosingWorlds, LosingEvents;
    UnwrittenAnswerLosesRequest(s, k, text, Answer(body, disk));
  }

  lemma RecoveryFinds(w: World, stale: set<string>, found: seq<TakenRequest>, r: Request)
    requires AllStagingInv(w) && Sound(r) && IsRecovery(w.staging, stale, found) && Staged(w, r)
    requires StagedName(r.0, r.1) !in stale && r in w.owed
    ensures exists t :: t in found && RequestOf(t) == r
  {
    StagedNameRoundTripIff(r.0, r.1);
    hide SanitizeSignalKey, StagedName, TrimReq, ValidKey, FindSplit, ParseStagedName, EndsWith, Queued, Recoverable;
    var name := StagedName(r.0, r.1);
    assert StagingInv(w, name);
    assert Recovers(w.staging, stale, name);
    var t :| t in found && t.staged == name;
  }

  lemma RecoverStepFinds(w: World, w': World, stale: set<string>, r: Request)
    requires Inv(w) && Step(w, Recover(stale), w') && r in w.owed && Staged(w, r)
    ensures if StagedName(r.0, r.1) in stale then !Staged(w', r)
      else Staged(w', r) && exists t :: t in w'.working && RequestOf(t) == r
  {
    hide QueuesInv, AllStagingInv, AllOwedInv, WorkingInv, IsRecovery, RecoverableFiles;
    hide Sound, RequestOf, Expired, StagedName, Staged;
    var found :| IsRecovery(w.staging, stale, found) && EachOnce(found) && Recovered(w, stale, found, w');
    RecoverKeepsInv(w, w', stale, found);
    OwedIsSound(w, r);
    if StagedName(r.0, r.1) !in stale {
      RecoveryFinds(w, stale, found, r);
      var t :| t in found && RequestOf(t) == r;
      assert t in w'.working;
    }
  }

  /** No request is at hand twice. */
  predicate NoneTwice(working: seq<TakenRequest>) {
    forall a, b :: 0 <= a < b < |working| ==> RequestOf(working[a]) != RequestOf(working[b])
  }

  lemma OwnNamesDiffer(found: seq<TakenRequest>)
    requires EachOnce(found) && forall t :: t in found ==> t.staged == StagedName(t.session, t.key)
    ensures NoneTwice(found)
  {
    hide StagedName;
  }

  lemma RecoverStepOnce(w: World, w': World, stale: set<string>)
    requires Inv(w) && Step(w, Recover(stale), w') && w.working == []
    ensures NoneTwice(w'.working)
  {
    hide QueuesInv, AllStagingInv, AllOwedInv, IsRecovery, RecoverableFiles, Expired, StagedName, EachOnce, NoneTwice;
    var found :| IsRecovery(w.staging, stale, found) && EachOnce(found) && Recovered(w, stale, found, w');
    WorkingAfterRecovery(w, w', stale, found);
    assert w'.working == found;
    hide Inv, Queued;
    forall t | t in found ensures t.staged == StagedName(t.session, t.key) {
      assert WorkInv(w', t);
    }
    OwnNamesDiffer(found);
  }

  /** A broker that recovers with nothing at hand gets no request twice. */
  lemma RecoveryFindsOnce(worlds: seq<World>, events: seq<Event>, i: nat)
    requires IsRun(worlds, events) && i < |events| && events[i].Recover? && worlds[i].working == []
    ensures NoneTwice(worlds[i + 1].working)
  {
    RunKeepsInv(worlds, events, i);
    hide Inv, Step, NoneTwice;
    RecoverStepOnce(worlds[i], worlds[i + 1], events[i].stale);
  }

  /** Recovery hands every staged request that is not too old back to the broker, and keeps it staged. */
  lemma RecoveryFindsEveryStaged(worlds: seq<World>, events: seq<Event>, i: nat, r: Request)
    requires IsRun(worlds, events) && i < |events| && events[i].Recover?
    requires r in worlds[i].owed && Staged(worlds[i], r)
    ensures if StagedName(r.0, r.1) in events[i].stale then !Staged(worlds[i + 1], r)
      else Staged(worlds[i + 1], r) && exists t :: t in worlds[i + 1].working && RequestOf(t) == r
  {
    RunKeepsInv(worlds, events, i);
    hide Inv, Step, StagedName, Staged;
    RecoverStepFinds(worlds[i], worlds[i + 1], events[i].stale, r);
  }
}

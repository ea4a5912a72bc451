/** Launching and relaunching sessions, and the egress instance each launch prepares first. */
module Launch {
  import opened Common

  /** A session's key, an egress instance's number, a pane and a container. */
  type Key = nat
  type Id = nat
  type Pane = nat
  type Container = nat

  datatype Entry = Bound | Committed | Released | Retired

  /** Everything that ever happened to one instance, and the session it was bound for. */
  datatype Instance = Instance(owner: Key, history: seq<Entry>)

  /** What the supervisor holds: the live instances, the provisional ones, and their histories. */
  datatype Egress = Egress(live: map<Key, Id>, pending: map<Key, Id>, instances: seq<Instance>)

  const NO_EGRESS := Egress(map[], map[], [])

  function Noted(instances: seq<Instance>, id: Id, entry: Entry): seq<Instance>
  {
    if id < |instances|
    then instances[id := instances[id].(history := instances[id].history + [entry])]
    else instances
  }

  function ReleasePending(e: Egress, key: Key): Egress {
    if key !in e.pending then e
    else Egress(e.live, e.pending - {key}, Noted(e.instances, e.pending[key], Released))
  }

  function RetireLive(e: Egress, key: Key): Egress {
    if key !in e.live then e
    else Egress(e.live - {key}, e.pending, Noted(e.instances, e.live[key], Retired))
  }

  /** Bind a new instance for `key`; a composition nobody launched gives way to it. */
  function Start(e: Egress, key: Key): Egress {
    var e' := ReleasePending(e, key);
    Egress(e'.live, e'.pending[key := |e'.instances|], e'.instances + [Instance(key, [Bound])])
  }

  predicate Prepared(e: Egress, key: Key, id: Id) { key in e.pending && e.pending[key] == id }

  function Commit(e: Egress, key: Key, id: Id): Egress {
    if !Prepared(e, key, id) then e else
    var e' := RetireLive(e, key);
    Egress(e'.live[key := id], e'.pending - {key}, Noted(e'.instances, id, Committed))
  }

  function Discard(e: Egress, key: Key, id: Id): Egress {
    if Prepared(e, key, id) then ReleasePending(e, key) else e
  }

  function Stop(e: Egress, key: Key): Egress { RetireLive(ReleasePending(e, key), key) }

  /** Shut down whatever is provisional or live. */
  function Emptied(e: Egress): Egress {
    Egress(map[], map[], seq(|e.instances|, i requires 0 <= i < |e.instances| =>
      var instance := e.instances[i];
      if i in e.pending.Values then instance.(history := instance.history + [Released])
      else if i in e.live.Values then instance.(history := instance.history + [Retired])
      else instance))
  }

  /** One launch's claim: nothing to do, an instance to take over, or the session's to stop. */
  datatype Outcome = Keep | TakeOver(id: Id) | Clear

  function CommitClaim(e: Egress, key: Key, claim: Outcome): Egress {
    match claim case Keep => e case TakeOver(id) => Commit(e, key, id) case Clear => Stop(e, key)
  }

  function DropClaim(e: Egress, key: Key, claim: Outcome): Egress {
    if claim.TakeOver? then Discard(e, key, claim.id) else e
  }

  /** How far a composition that came to nothing got with its proxy. */
  datatype Binding = NoProxy | FailedToStart | Started

  /**
   * How composing the sandboxed invocation goes: refused or answered by the unsandboxed fallback,
   * in both cases before a proxy was asked for, because it would not start, or after it was bound; or
   * composed, with or without a proxy, to run on the host or in a container.
   */
  datatype Composition = Refused(binding: Binding) | Skipped(binding: Binding)
                       | Composed(filtered: bool, place: Option<Container>)

  /** What a launch meets on its way; `spawned` is the pane when the backend opens one. */
  datatype Weather = Weather(composition: Composition, readyOk: bool, policyOk: bool,
                             killOk: bool, spawned: Option<Pane>)

  /** Where a session's pane lives. */
  datatype Home = Host | Place(container: Container)

  /** A session: its pane (none while it is a placeholder), the pane's I/O handles and its home. */
  datatype Session = Session(pane: Option<Pane>, io: Option<Pane>, home: Home)

  function PlaceOf(c: Composition): Option<Container> { if c.Composed? then c.place else None }

  function ClaimOf(e: Egress, c: Composition): Outcome {
    match c
    case Composed(true, _) => TakeOver(|e.instances|)
    case Composed(false, _) => Clear
    case _ => Keep
  }

  /** The supervisor after a composition, which releases whatever it does not hand on. */
  function AfterComposing(e: Egress, key: Key, c: Composition): Egress {
    match c
    case Composed(filtered, _) => if filtered then Start(e, key) else e
    case Refused(binding) => AfterBinding(e, key, binding)
    case Skipped(binding) => AfterBinding(e, key, binding)
  }

  /** The supervisor after a composition that came to nothing. */
  function AfterBinding(e: Egress, key: Key, binding: Binding): Egress {
    match binding
    case NoProxy => e
    case FailedToStart => ReleasePending(e, key)
    case Started => Discard(Start(e, key), key, |e.instances|)
  }

  /** The steps after the kill that can still fail: readiness of a place, and opening the pane. */
  predicate Opens(w: Weather) {
    (PlaceOf(w.composition).Some? ==> w.readyOk) && w.spawned.Some?
  }

  function HomeAfter(w: Weather, before: Home): Home {
    match PlaceOf(w.composition) case Some(c) => Place(c) case None => before
  }

  /** A first launch, and what it leaves of the supervisor. */
  function SpawnResult(e: Egress, key: Key, w: Weather): (Option<Session>, Egress) {
    var e1 := AfterComposing(e, key, w.composition);
    var claim := ClaimOf(e, w.composition);
    if w.composition.Refused? then (None, e1)
    else if !Opens(w) || (PlaceOf(w.composition).None? && !w.policyOk) then (None, DropClaim(e1, key, claim))
    else (Some(Session(w.spawned, w.spawned, HomeAfter(w, Host))), CommitClaim(e1, key, claim))
  }

  /** The launch moves the session out of the container its pane is in. */
  predicate Moved(s: Session, w: Weather) {
    s.home.Place? && PlaceOf(w.composition) != Some(s.home.container)
  }

  /** A relaunch that would leave a container for the host, which the pane cannot follow. */
  predicate Homeless(s: Session, w: Weather) { s.home.Place? && PlaceOf(w.composition).None? }

  /** The old pane stands in the way: it could not be killed where it still is. */
  predicate KillFails(s: Session, w: Weather) { s.pane.Some? && !w.killOk && !Moved(s, w) }

  /** Whether a relaunch kills the old pane. */
  predicate Kills(s: Session, w: Weather) {
    !w.composition.Refused? && !Homeless(s, w) && s.pane.Some? && w.killOk
  }

  /** Whether a relaunch ends with a new pane. */
  predicate Relaunches(s: Session, w: Weather) {
    !w.composition.Refused? && !Homeless(s, w) && !KillFails(s, w) && Opens(w)
  }

  function RestartResult(s: Session, e: Egress, key: Key, w: Weather): (Session, Egress) {
    var e1 := AfterComposing(e, key, w.composition);
    var claim := ClaimOf(e, w.composition);
    if w.composition.Refused? then (s, e1)
    else if !Relaunches(s, w) then (s, DropClaim(e1, key, claim))
    else (Session(w.spawned, w.spawned, HomeAfter(w, s.home)), CommitClaim(e1, key, claim))
  }

  // ---- The launch path, step by step -------------------------------------------------------

  class Supervisor {
    var proxies: map<Key, Id>
    var pending: map<Key, Id>
    var nextId: Id
    ghost var instances: seq<Instance>

    ghost function State(): Egress reads this { Egress(proxies, pending, instances) }

    ghost predicate Valid() reads this { nextId == |instances| }

    constructor ()
      ensures Valid() && State() == NO_EGRESS
    {
      proxies, pending, nextId, instances := map[], map[], 0, [];
    }

    /** Release what is provisional for `key`, and bind a new instance if its proxy starts. */
    method Prepare(key: Key, starts: bool) returns (id: Option<Id>)
      requires Valid()
      modifies this
      ensures Valid() && State() == if starts then Start(old(State()), key) else ReleasePending(old(State()), key)
      ensures id == if starts then Some(|old(instances)|) else None
    {
      if key in pending {
        instances := Noted(instances, pending[key], Released);
        pending := pending - {key};
      }
      if !starts {
        return None;
      }
      id := Some(nextId);
      nextId := nextId + 1;
      pending := pending[key := id.value];
      instances := instances + [Instance(key, [Bound])];
    }

    /** A composition that came to nothing releases what it bound. */
    method ComposeNothing(key: Key, binding: Binding)
      requires Valid()
      modifies this
      ensures Valid() && State() == AfterBinding(old(State()), key, binding)
    {
      if !binding.NoProxy? {
        var id := Prepare(key, binding.Started?);
        if id.Some? {
          DiscardInstance(key, id.value);
        }
      }
    }

    method CommitInstance(key: Key, id: Id)
      requires Valid()
      modifies this
      ensures Valid() && State() == Commit(old(State()), key, id)
    {
      if key in pending && pending[key] == id {
        pending := pending - {key};
        if key in proxies {
          instances := Noted(instances, proxies[key], Retired);
          proxies := proxies - {key};
        }
        proxies := proxies[key := id];
        instances := Noted(instances, id, Committed);
      }
    }

    method DiscardInstance(key: Key, id: Id)
      requires Valid()
      modifies this
      ensures Valid() && State() == Discard(old(State()), key, id)
    {
      if key in pending && pending[key] == id {
        pending := pending - {key};
        instances := Noted(instances, id, Released);
      }
    }

    method StopSession(key: Key)
      requires Valid()
      modifies this
      ensures Valid() && State() == Stop(old(State()), key)
    {
      if key in pending {
        instances := Noted(instances, pending[key], Released);
        pending := pending - {key};
      }
      if key in proxies {
        instances := Noted(instances, proxies[key], Retired);
        proxies := proxies - {key};
      }
    }

    method StopAll()
      requires Valid()
      modifies this
      ensures Valid() && State() == Emptied(old(State()))
    {
      instances := Emptied(State()).instances;
      pending := map[];
      proxies := map[];
    }

    /** Apply a launch's outcome to its session. */
    method CommitEgress(key: Key, claim: Outcome)
      requires Valid()
      modifies this
      ensures Valid() && State() == CommitClaim(old(State()), key, claim)
    {
      match claim {
        case Keep =>
        case TakeOver(id) => CommitInstance(key, id);
        case Clear => StopSession(key);
      }
    }

    /** What dropping a claim uncommitted does. */
    method DropEgress(key: Key, claim: Outcome)
      requires Valid()
      modifies this
      ensures Valid() && State() == DropClaim(old(State()), key, claim)
    {
      if claim.TakeOver? {
        DiscardInstance(key, claim.id);
      }
    }

    /** Compose an invocation; `None` when the launch is refused. */
    method Compose(key: Key, c: Composition) returns (claim: Option<Outcome>)
      requires Valid()
      modifies this
      ensures Valid() && State() == AfterComposing(old(State()), key, c)
      ensures claim == if c.Refused? then None else Some(ClaimOf(old(State()), c))
    {
      match c {
        case Refused(binding) =>
          ComposeNothing(key, binding);
          return None;
        case Skipped(binding) =>
          ComposeNothing(key, binding);
          return Some(Keep);
        case Composed(filtered, _) =>
          if filtered {
            var id := Prepare(key, true);
            return Some(TakeOver(id.value));
          }
          return Some(Clear);
      }
    }
  }

  /** Spawn a session: compose, ready the place, check the policy's socket, open the pane, commit. */
  method Spawn(supervisor: Supervisor, key: Key, w: Weather) returns (session: Option<Session>)
    requires supervisor.Valid()
    modifies supervisor
    ensures supervisor.Valid()
    ensures (session, supervisor.State()) == SpawnResult(old(supervisor.State()), key, w)
  {
    var claim := supervisor.Compose(key, w.composition);
    if claim.None? {
      return None;
    }
    var place := PlaceOf(w.composition);
    if place.Some? && !w.readyOk {
      supervisor.DropEgress(key, claim.value);
      return None;
    }
    if place.None? && !w.policyOk {
      supervisor.DropEgress(key, claim.value);
      return None;
    }
    if w.spawned.None? {
      supervisor.DropEgress(key, claim.value);
      return None;
    }
    supervisor.CommitEgress(key, claim.value);
    return Some(Session(w.spawned, w.spawned, if place.Some? then Place(place.value) else Host));
  }

  /** A session object, relaunched in place. */
  class LiveSession {
    const key: Key
    var pane: Option<Pane>
    var io: Option<Pane>
    var home: Home
    ghost var killed: seq<Pane>

    function State(): Session reads this { Session(pane, io, home) }

    constructor (key: Key, s: Session)
      ensures this.key == key && State() == s && killed == []
    {
      this.key, pane, io, home, killed := key, s.pane, s.io, s.home, [];
    }

    /** Kill the pane, unless the backend fails to. */
    method Kill(works: bool)
      requires pane.Some?
      modifies this`killed
      ensures killed == old(killed) + if works then [pane.value] else []
    {
      if works {
        killed := killed + [pane.value];
      }
    }

    /** Compose first, then kill the old pane, ready the place, open the new pane, and commit. */
    method Restart(supervisor: Supervisor, w: Weather) returns (ok: bool)
      requires supervisor.Valid()
      modifies this, supervisor
      ensures supervisor.Valid()
      ensures (State(), supervisor.State()) == RestartResult(old(State()), old(supervisor.State()), key, w)
      ensures ok == Relaunches(old(State()), w)
      ensures killed == old(killed) + if Kills(old(State()), w) then [old(pane).value] else []
    {
      var claim := supervisor.Compose(key, w.composition);
      if claim.None? {
        return false;
      }
      var place := PlaceOf(w.composition);
      var moved := home.Place? && place != Some(home.container);
      if place.None? && home.Place? {
        supervisor.DropEgress(key, claim.value);
        return false;
      }
      if pane.Some? {
        Kill(w.killOk);
        if !w.killOk && !moved {
          supervisor.DropEgress(key, claim.value);
          return false;
        }
      }
      if place.Some? && !w.readyOk {
        supervisor.DropEgress(key, claim.value);
        return false;
      }
      if w.spawned.None? {
        supervisor.DropEgress(key, claim.value);
        return false;
      }
      supervisor.CommitEgress(key, claim.value);
      pane, io := w.spawned, w.spawned;
      if place.Some? {
        home := Place(place.value);
      }
      return true;
    }
  }

  // ---- Every instance is accounted for -----------------------------------------------------

  /** The four lives an instance can have had so far. */
  predicate IsLife(history: seq<Entry>) {
    history == [Bound] || history == [Bound, Committed]
    || history == [Bound, Released] || history == [Bound, Committed, Retired]
  }

  /** What the supervisor holds of one instance is what the instance's history says. */
  predicate AccountedFor(e: Egress, id: Id)
    requires id < |e.instances|
  {
    var i := e.instances[id];
    && IsLife(i.history)
    && (i.history == [Bound] <==> Prepared(e, i.owner, id))
    && (i.history == [Bound, Committed] <==> i.owner in e.live && e.live[i.owner] == id)
  }

  /** Provisional and live instances are exactly those the supervisor holds, for their owners. */
  predicate Inv(e: Egress) {
    && (forall key :: key in e.pending ==>
          e.pending[key] < |e.instances| && e.instances[e.pending[key]].owner == key)
    && (forall key :: key in e.live ==>
          e.live[key] < |e.instances| && e.instances[e.live[key]].owner == key)
    && forall id :: 0 <= id < |e.instances| ==> AccountedFor(e, id)
  }

  lemma ReleaseKeepsInv(e: Egress, key: Key)
    requires Inv(e)
    ensures Inv(ReleasePending(e, key))
  {
    var e' := ReleasePending(e, key);
    forall id | 0 <= id < |e'.instances| ensures AccountedFor(e', id) {
      assert AccountedFor(e, id);
      if Prepared(e, key, id) {
        assert e'.instances[id].history == [Bound] + [Released] == [Bound, Released];
      }
    }
  }

  lemma RetireKeepsInv(e: Egress, key: Key)
    requires Inv(e)
    ensures Inv(RetireLive(e, key))
  {
    var e' := RetireLive(e, key);
    forall id | 0 <= id < |e'.instances| ensures AccountedFor(e', id) {
      assert AccountedFor(e, id);
      if key in e.live && e.live[key] == id {
        assert e'.instances[id].history == [Bound, Committed] + [Retired] == [Bound, Committed, Retired];
      }
    }
  }

  lemma StartKeepsInv(e: Egress, key: Key)
    requires Inv(e)
    ensures Inv(Start(e, key))
  {
    ReleaseKeepsInv(e, key);
    var e1, e' := ReleasePending(e, key), Start(e, key);
    hide ReleasePending;
    assert key !in e1.pending by { NothingPendingAfterRelease(e, key); }
    forall id | 0 <= id < |e'.instances| ensures AccountedFor(e', id) {
      if id < |e1.instances| {
        assert AccountedFor(e1, id);
      }
    }
  }

  lemma NothingPendingAfterRelease(e: Egress, key: Key)
    ensures key !in ReleasePending(e, key).pending
  {}

  lemma NothingLiveAfterRetire(e: Egress, key: Key)
    ensures key !in RetireLive(e, key).live && RetireLive(e, key).pending == e.pending
  {}

  lemma CommitKeepsInv(e: Egress, key: Key, id: Id)
    requires Inv(e)
    ensures Inv(Commit(e, key, id))
  {
    RetireKeepsInv(e, key);
    if Prepared(e, key, id) {
      var e1, e' := RetireLive(e, key), Commit(e, key, id);
      NothingLiveAfterRetire(e, key);
      hide RetireLive;
      forall i | 0 <= i < |e'.instances| ensures AccountedFor(e', i) {
        assert AccountedFor(e1, i);
      }
    }
  }

  lemma ClaimKeepsInv(e: Egress, key: Key, claim: Outcome)
    requires Inv(e)
    ensures Inv(CommitClaim(e, key, claim)) && Inv(DropClaim(e, key, claim))
  {
    ReleaseKeepsInv(e, key);
    RetireKeepsInv(ReleasePending(e, key), key);
    if claim.TakeOver? {
      CommitKeepsInv(e, key, claim.id);
    }
    hide Inv, ReleasePending, RetireLive, Commit;
  }

  lemma ComposingKeepsInv(e: Egress, key: Key, c: Composition)
    requires Inv(e)
    ensures Inv(AfterComposing(e, key, c))
  {
    ReleaseKeepsInv(e, key);
    StartKeepsInv(e, key);
    ReleaseKeepsInv(Start(e, key), key);
    hide Inv, ReleasePending, Start;
  }

  /** Asking for a proxy releases what was provisional for the session before, however the composition ends. */
  lemma ComposingSupersedes(e: Egress, key: Key, c: Composition, id: Id)
    requires Inv(e) && Prepared(e, key, id)
    requires if c.Composed? then c.filtered else !c.binding.NoProxy?
    ensures var e' := AfterComposing(e, key, c);
      id < |e'.instances| && e'.instances[id] == Instance(key, [Bound, Released]) && !Prepared(e', key, id)
  {
    assert AccountedFor(e, id);
  }

  /** With nothing provisional before, only a filtered composition leaves something provisional. */
  lemma ComposingEffect(e: Egress, key: Key, c: Composition)
    requires e.pending == map[]
    ensures var e' := AfterComposing(e, key, c);
      && e'.live == e.live
      && e'.pending == if ClaimOf(e, c).TakeOver? then map[key := |e.instances|] else map[]
  {}

  /** Committing or dropping a claim leaves nothing provisional; only committing changes what is live. */
  lemma ClaimEffect(e: Egress, key: Key, claim: Outcome)
    requires e.pending == if claim.TakeOver? then map[key := claim.id] else map[]
    ensures DropClaim(e, key, claim).live == e.live && DropClaim(e, key, claim).pending == map[]
    ensures CommitClaim(e, key, claim).pending == map[]
    ensures CommitClaim(e, key, claim).live ==
      match claim case Keep => e.live case TakeOver(id) => e.live[key := id] case Clear => e.live - {key}
  {}

  /** With nothing provisional before, an attempt leaves nothing provisional. */
  lemma AttemptEffect(e: Egress, key: Key, c: Composition)
    requires Inv(e) && e.pending == map[]
    ensures var e1, claim := AfterComposing(e, key, c), ClaimOf(e, c);
      && Inv(e1) && Inv(CommitClaim(e1, key, claim)) && Inv(DropClaim(e1, key, claim))
      && e1.live == DropClaim(e1, key, claim).live == e.live
      && (c.Refused? ==> e1.pending == map[])
      && CommitClaim(e1, key, claim).pending == DropClaim(e1, key, claim).pending == map[]
      && CommitClaim(e1, key, claim).live == match c
           case Composed(true, _) => e.live[key := |e.instances|]
           case Composed(false, _) => e.live - {key}
           case _ => e.live
  {
    ComposingKeepsInv(e, key, c);
    ComposingEffect(e, key, c);
    ClaimKeepsInv(AfterComposing(e, key, c), key, ClaimOf(e, c));
    ClaimEffect(AfterComposing(e, key, c), key, ClaimOf(e, c));
    hide Inv, AfterComposing, CommitClaim, DropClaim;
  }

  /** A relaunch that fails leaves its session and the instance it is using as they were. */
  lemma FailureLeavesSessionAlone(s: Session, e: Egress, key: Key, w: Weather)
    requires Inv(e) && e.pending == map[]
    ensures var (s', e') := RestartResult(s, e, key, w);
      && Inv(e') && e'.pending == map[]
      && (!Relaunches(s, w) ==> s' == s && e'.live == e.live)
      && (Relaunches(s, w) ==>
            && s'.pane == s'.io == w.spawned
            && e'.live == match w.composition
                 case Composed(true, _) => e.live[key := |e.instances|]
                 case Composed(false, _) => e.live - {key}
                 case _ => e.live)
  {
    AttemptEffect(e, key, w.composition);
    hide Inv, AfterComposing, CommitClaim, DropClaim;
  }

  lemma FailedSpawnLeavesNothing(e: Egress, key: Key, w: Weather)
    requires Inv(e) && e.pending == map[]
    ensures var (s, e') := SpawnResult(e, key, w);
      && Inv(e') && e'.pending == map[] && (s.None? ==> e'.live == e.live)
      && e'.live.Keys <= e.live.Keys + {key}
  {
    AttemptEffect(e, key, w.composition);
    hide Inv, AfterComposing, CommitClaim, DropClaim;
  }

  // ---- Whole runs --------------------------------------------------------------------------

  datatype Attempt = SpawnAttempt(key: Key, w: Weather) | RestartAttempt(key: Key, w: Weather)
                   | CloseSession(key: Key)

  datatype World = World(sessions: map<Key, Session>, egress: Egress)

  function Step(world: World, a: Attempt): World {
    match a
    case SpawnAttempt(key, w) =>
      if key in world.sessions then world else
      var (s, e) := SpawnResult(world.egress, key, w);
      World(if s.Some? then world.sessions[key := s.value] else world.sessions, e)
    case RestartAttempt(key, w) =>
      if key !in world.sessions then world else
      var (s, e) := RestartResult(world.sessions[key], world.egress, key, w);
      World(world.sessions[key := s], e)
    case CloseSession(key) => World(world.sessions - {key}, Stop(world.egress, key))
  }

  function Run(attempts: seq<Attempt>): World {
    if attempts == [] then World(map[], NO_EGRESS)
    else Step(Run(attempts[..|attempts| - 1]), attempts[|attempts| - 1])
  }

  lemma StepKeepsAccounts(world: World, a: Attempt)
    requires Inv(world.egress) && world.egress.pending == map[]
    requires world.egress.live.Keys <= world.sessions.Keys
    ensures var world' := Step(world, a);
      && Inv(world'.egress) && world'.egress.pending == map[]
      && world'.egress.live.Keys <= world'.sessions.Keys
  {
    hide Inv, SpawnResult, RestartResult;
    match a {
      case SpawnAttempt(key, w) =>
        FailedSpawnLeavesNothing(world.egress, key, w);
        var (s, e) := SpawnResult(world.egress, key, w);
        assert s.None? ==> e.live.Keys == world.egress.live.Keys;
      case RestartAttempt(key, w) =>
        if key in world.sessions {
          FailureLeavesSessionAlone(world.sessions[key], world.egress, key, w);
        }
      case CloseSession(key) =>
        ReleaseKeepsInv(world.egress, key);
        RetireKeepsInv(ReleasePending(world.egress, key), key);
    }
  }

  lemma {:induction false} RunKeepsAccounts(attempts: seq<Attempt>)
    ensures var world := Run(attempts);
      && Inv(world.egress) && world.egress.pending == map[]
      && world.egress.live.Keys <= world.sessions.Keys
  {
    if attempts != [] {
      RunKeepsAccounts(attempts[..|attempts| - 1]);
      StepKeepsAccounts(Run(attempts[..|attempts| - 1]), attempts[|attempts| - 1]);
      hide Inv, Step;
    }
  }

  lemma NothingProvisionalMeansSettled(e: Egress, id: Id)
    requires Inv(e) && e.pending == map[] && id < |e.instances|
    ensures IsLife(e.instances[id].history) && e.instances[id].history != [Bound]
  {
    assert AccountedFor(e, id);
  }

  /**
   * Over every sequence of spawns, relaunches and closes with any mix of failures: every instance
   * ever bound was committed or released exactly once, and retired at most once after that; nothing
   * stays provisional; and the live instances are one each for sessions that exist.
   */
  lemma EveryInstanceIsAccountedFor(attempts: seq<Attempt>)
    ensures var e := Run(attempts).egress;
      && e.pending == map[] && e.live.Keys <= Run(attempts).sessions.Keys
      && forall id :: 0 <= id < |e.instances| ==>
           IsLife(e.instances[id].history) && e.instances[id].history != [Bound]
    ensures var e := Run(attempts).egress;
      forall key :: key in e.live ==>
        e.live[key] < |e.instances| && e.instances[e.live[key]] == Instance(key, [Bound, Committed])
  {
    RunKeepsAccounts(attempts);
    var e := Run(attempts).egress;
    hide Run, IsLife;
    forall id | 0 <= id < |e.instances|
      ensures IsLife(e.instances[id].history) && e.instances[id].history != [Bound]
    {
      NothingProvisionalMeansSettled(e, id);
    }
    forall key | key in e.live ensures e.instances[e.live[key]] == Instance(key, [Bound, Committed]) {
      assert AccountedFor(e, e.live[key]);
    }
  }

  /**
   * A refused composition never kills a pane. A relaunch leaves the session naming the pane it
   * killed exactly when the kill worked and the new pane then could not be opened.
   */
  lemma DeadPaneIsKeptIff(s: Session, e: Egress, key: Key, w: Weather)
    requires w.spawned != s.pane
    ensures w.composition.Refused? ==> !Kills(s, w) && RestartResult(s, e, key, w).0 == s
    ensures Kills(s, w) && RestartResult(s, e, key, w).0.pane == s.pane <==> Kills(s, w) && !Opens(w)
  {
    hide AfterComposing, CommitClaim, DropClaim;
  }

  // ---- Where a session lives ---------------------------------------------------------------

  /**
   * A first launch succeeds exactly when it is not refused, its place is ready, or on the host its
   * policy's socket is, and a pane opens; the session then has that pane.
   */
  lemma SpawnSucceedsIff(e: Egress, key: Key, w: Weather)
    ensures var (s, _) := SpawnResult(e, key, w);
      var place := if w.composition.Composed? then w.composition.place else None;
      && (s.Some? <==> !w.composition.Refused? && w.spawned.Some? && if place.Some? then w.readyOk else w.policyOk)
      && (s.Some? ==> s.value.pane == s.value.io == w.spawned)
  {
    hide AfterComposing, CommitClaim, DropClaim;
  }

  /**
   * A relaunch succeeds exactly when it is not refused and does not leave a container for the host,
   * the old pane is gone or could be left behind in another container, and a new one opens.
   */
  lemma RestartSucceedsIff(s: Session, w: Weather)
    ensures var place := if w.composition.Composed? then w.composition.place else None;
      Relaunches(s, w) <==>
        && !w.composition.Refused? && w.spawned.Some? && (place.Some? ==> w.readyOk)
        && (s.home.Place? ==> place.Some?)
        && (s.pane.None? || w.killOk || (s.home.Place? && place != Some(s.home.container)))
  {}

  /** Attempt `k` launched the session into a container. */
  predicate Places(attempts: seq<Attempt>, key: Key, k: nat)
    requires k < |attempts|
  {
    var before, a := Run(attempts[..k]), attempts[k];
    match a
    case SpawnAttempt(id, w) =>
      && id == key && key !in before.sessions && w.composition.Composed? && w.composition.place.Some?
      && SpawnResult(before.egress, key, w).0.Some?
    case RestartAttempt(id, w) =>
      && id == key && key in before.sessions && w.composition.Composed? && w.composition.place.Some?
      && Relaunches(before.sessions[key], w)
    case CloseSession(_) => false
  }

  /** The container of a composition that has one. */
  function ContainerOf(a: Attempt): Container
    requires !a.CloseSession? && a.w.composition.Composed? && a.w.composition.place.Some?
  {
    a.w.composition.place.value
  }

  /** Attempt `k` was the last that launched the session into a container since it was last closed. */
  predicate LastPlaced(attempts: seq<Attempt>, key: Key, k: nat) {
    && k < |attempts| && Places(attempts, key, k)
    && forall j :: k < j < |attempts| ==> !Places(attempts, key, j) && attempts[j] != CloseSession(key)
  }

  lemma PlacesInPrefix(attempts: seq<Attempt>, key: Key, k: nat, n: nat)
    requires k < n <= |attempts|
    ensures Places(attempts[..n], key, k) == Places(attempts, key, k)
  {
    assert attempts[..n][..k] == attempts[..k];
    hide Run, SpawnResult;
  }

  lemma LastPlacedBefore(attempts: seq<Attempt>, key: Key, k: nat)
    requires attempts != [] && k < |attempts| - 1
    ensures var n := |attempts| - 1;
      LastPlaced(attempts, key, k) <==>
        LastPlaced(attempts[..n], key, k) && !Places(attempts, key, n) && attempts[n] != CloseSession(key)
  {
    hide Places;
    var n := |attempts| - 1;
    forall j | 0 <= j < n ensures Places(attempts[..n], key, j) == Places(attempts, key, j) {
      PlacesInPrefix(attempts, key, j, n);
    }
  }

  /** What one more attempt does to where a session lives. */
  lemma HomeAfterOne(attempts: seq<Attempt>, key: Key)
    requires attempts != []
    ensures var n := |attempts| - 1;
      var before, after := Run(attempts[..n]).sessions, Run(attempts).sessions;
      && (Places(attempts, key, n) ==> key in after && after[key].home == Place(ContainerOf(attempts[n])))
      && (!Places(attempts, key, n) && attempts[n] != CloseSession(key) && key in before ==>
            key in after && after[key].home == before[key].home)
      && (!Places(attempts, key, n) && key in after && after[key].home.Place? ==>
            attempts[n] != CloseSession(key) && key in before)
  {
    hide AfterComposing, CommitClaim, DropClaim;
  }

  lemma {:induction false} StaysWherePlaced(attempts: seq<Attempt>, key: Key, k: nat)
    requires LastPlaced(attempts, key, k)
    ensures key in Run(attempts).sessions && Run(attempts).sessions[key].home == Place(ContainerOf(attempts[k]))
  {
    var n := |attempts| - 1;
    HomeAfterOne(attempts, key);
    if k < n {
      LastPlacedBefore(attempts, key, k);
      StaysWherePlaced(attempts[..n], key, k);
      hide Run, Places;
    }
  }

  lemma {:induction false} WasPlaced(attempts: seq<Attempt>, key: Key) returns (k: nat)
    requires key in Run(attempts).sessions && Run(attempts).sessions[key].home.Place?
    ensures LastPlaced(attempts, key, k)
  {
    var n := |attempts| - 1;
    HomeAfterOne(attempts, key);
    if Places(attempts, key, n) {
      k := n;
    } else {
      k := WasPlaced(attempts[..n], key);
      LastPlacedBefore(attempts, key, k);
    }
    hide Run, Places;
  }

  /**
   * Over every run: a session lives in the container it was last successfully launched into since it
   * was last closed, and on the host exactly when it was launched into none.
   */
  lemma HomeIsWhereLaunched(attempts: seq<Attempt>, key: Key)
    ensures forall k: nat :: LastPlaced(attempts, key, k) ==>
      key in Run(attempts).sessions && Run(attempts).sessions[key].home == Place(ContainerOf(attempts[k]))
    ensures key in Run(attempts).sessions ==>
      (Run(attempts).sessions[key].home.Host? <==> !exists k: nat :: LastPlaced(attempts, key, k))
  {
    forall k: nat | LastPlaced(attempts, key, k)
      ensures key in Run(attempts).sessions && Run(attempts).sessions[key].home == Place(ContainerOf(attempts[k]))
    {
      StaysWherePlaced(attempts, key, k);
    }
    if key in Run(attempts).sessions && Run(attempts).sessions[key].home.Place? {
      var k := WasPlaced(attempts, key);
    }
    hide Run, LastPlaced;
  }

  /** So a session once launched into a container is never relaunched on the host, and keeps its pane. */
  lemma PlacedNeverLeavesForHost(attempts: seq<Attempt>, key: Key, k: nat, w: Weather)
    requires LastPlaced(attempts, key, k) && (w.composition.Composed? ==> w.composition.place.None?)
    ensures var before, after := Run(attempts), Run(attempts + [RestartAttempt(key, w)]);
      && key in before.sessions && after.sessions == before.sessions
      && !Kills(before.sessions[key], w)
  {
    StaysWherePlaced(attempts, key, k);
    assert (attempts + [RestartAttempt(key, w)])[..|attempts|] == attempts;
    hide AfterComposing, CommitClaim, DropClaim, LastPlaced;
    RestartSucceedsIff(Run(attempts).sessions[key], w);
  }
}

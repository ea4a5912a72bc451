/** The supervisor's orders in any interleaving: launches prepare, commit and drop side by side. */
module EgressRuns {
  import opened Launch

  /** The orders the supervisor serves one at a time; `starts` is whether the proxy comes up. */
  datatype Order = Prepares(key: Key, starts: bool) | Commits(key: Key, id: Id) | Discards(key: Key, id: Id)
                 | Stops(key: Key) | StopsAll

  function Served(e: Egress, o: Order): Egress {
    match o
    case Prepares(key, starts) => if starts then Start(e, key) else ReleasePending(e, key)
    case Commits(key, id) => Commit(e, key, id)
    case Discards(key, id) => Discard(e, key, id)
    case Stops(key) => Stop(e, key)
    case StopsAll => Emptied(e)
  }

  /** The supervisor after the given orders, whoever sent them. */
  function Serve(orders: seq<Order>): Egress {
    if orders == [] then NO_EGRESS else Served(Serve(orders[..|orders| - 1]), orders[|orders| - 1])
  }

  lemma ServeNext(orders: seq<Order>, o: Order)
    ensures Serve(orders + [o]) == Served(Serve(orders), o)
  {
    hide Served;
    assert (orders + [o])[..|orders|] == orders;
  }

  // ---- Accounting --------------------------------------------------------------------------

  lemma HeldForOwner(e: Egress, id: Id)
    requires Inv(e) && id < |e.instances|
    ensures id in e.pending.Values <==> Prepared(e, e.instances[id].owner, id)
    ensures var key := e.instances[id].owner; id in e.live.Values <==> key in e.live && e.live[key] == id
  {
    hide AccountedFor;
  }

  lemma EmptyingSettles(e: Egress, id: Id)
    requires Inv(e) && id < |e.instances|
    ensures var history := Emptied(e).instances[id].history;
      IsLife(history) && history != [Bound] && history != [Bound, Committed]
  {
    HeldForOwner(e, id);
    assert AccountedFor(e, id);
    hide Inv;
    var was := e.instances[id].history;
    assert Emptied(e).instances[id].history ==
      if was == [Bound] then [Bound, Released] else if was == [Bound, Committed] then was + [Retired] else was;
  }

  lemma EmptyingKeepsInv(e: Egress)
    requires Inv(e)
    ensures Inv(Emptied(e))
  {
    var e' := Emptied(e);
    forall id | 0 <= id < |e'.instances| ensures AccountedFor(e', id) {
      EmptyingSettles(e, id);
      hide Inv, Emptied, IsLife;
    }
  }

  lemma OrderKeepsInv(e: Egress, o: Order)
    requires Inv(e)
    ensures Inv(Served(e, o))
  {
    hide Inv, Start, ReleasePending, RetireLive, Commit, Emptied;
    match o {
      case Prepares(key, starts) =>
        StartKeepsInv(e, key);
        ReleaseKeepsInv(e, key);
      case Commits(key, id) => CommitKeepsInv(e, key, id);
      case Discards(key, id) => ReleaseKeepsInv(e, key);
      case Stops(key) =>
        ReleaseKeepsInv(e, key);
        RetireKeepsInv(ReleasePending(e, key), key);
      case StopsAll => EmptyingKeepsInv(e);
    }
  }

  /**
   * However the orders of any number of launches interleave, every instance ever bound is provisional
   * or live exactly when its history says so, was settled at most once and retired at most once.
   */
  lemma {:induction false} OrdersKeepAccounts(orders: seq<Order>)
    ensures Inv(Serve(orders))
  {
    if orders == [] {
      assert Inv(NO_EGRESS);
    } else {
      hide Inv, Served;
      OrdersKeepAccounts(orders[..|orders| - 1]);
      OrderKeepsInv(Serve(orders[..|orders| - 1]), orders[|orders| - 1]);
    }
  }

  // ---- What becomes of a claim -------------------------------------------------------------

  /** The orders that end what is provisional for a session. */
  predicate Settles(o: Order, key: Key, id: Id) {
    match o
    case Prepares(k, _) => k == key
    case Commits(k, i) => k == key && i == id
    case Discards(k, i) => k == key && i == id
    case Stops(k) => k == key
    case StopsAll => true
  }

  /** A claim is good as long as nothing settled its instance. */
  predicate IsGood(e: Egress, key: Key, id: Id) {
    id < |e.instances| && e.instances[id] == Instance(key, [Bound])
  }

  lemma GoodMeansPrepared(e: Egress, key: Key, id: Id)
    requires Inv(e)
    ensures IsGood(e, key, id) <==> Prepared(e, key, id)
  {
    if id < |e.instances| {
      assert AccountedFor(e, id);
    }
  }

  /** Committing or dropping a claim does something exactly when the claim is still good. */
  lemma ClaimTakesEffectIff(e: Egress, key: Key, id: Id)
    requires Inv(e)
    ensures Commit(e, key, id) != e <==> IsGood(e, key, id)
    ensures Discard(e, key, id) != e <==> IsGood(e, key, id)
  {
    GoodMeansPrepared(e, key, id);
    hide Inv, RetireLive;
    if Prepared(e, key, id) {
      NothingPendingAfterRelease(e, key);
      assert key !in Commit(e, key, id).pending;
    }
  }

  /** One order leaves a good claim alone, honours it or releases its instance. */
  lemma OrderFate(e: Egress, o: Order, key: Key, id: Id)
    requires Inv(e) && IsGood(e, key, id)
    ensures var e' := Served(e, o);
      && id < |e'.instances|
      && e'.instances[id] == Instance(key,
           if !Settles(o, key, id) then [Bound] else if o.Commits? then [Bound, Committed] else [Bound, Released])
  {
    GoodMeansPrepared(e, key, id);
    assert AccountedFor(e, id);
  }

  /** A live instance is retired exactly when its session stops or a good claim for it is committed. */
  lemma LiveFate(e: Egress, o: Order, key: Key, id: Id)
    requires Inv(e) && id < |e.instances| && e.instances[id] == Instance(key, [Bound, Committed])
    ensures var e' := Served(e, o);
      var retires := o == Stops(key) || o.StopsAll? || (o.Commits? && o.key == key && IsGood(e, key, o.id));
      && id < |e'.instances|
      && e'.instances[id] == Instance(key, if retires then [Bound, Committed, Retired] else [Bound, Committed])
  {
    assert AccountedFor(e, id);
    if o.Commits? {
      GoodMeansPrepared(e, o.key, o.id);
    }
  }

  lemma OrderExtends(e: Egress, o: Order, id: Id)
    requires id < |e.instances|
    ensures var e' := Served(e, o);
      && id < |e'.instances| && e'.instances[id].owner == e.instances[id].owner
      && e.instances[id].history <= e'.instances[id].history
  {}

  /** What happened to an instance is only ever added to. */
  lemma {:induction false} OrdersExtend(before: seq<Order>, rest: seq<Order>, id: Id)
    requires id < |Serve(before).instances|
    ensures var (e, e') := (Serve(before), Serve(before + rest));
      && id < |e'.instances| && e'.instances[id].owner == e.instances[id].owner
      && e.instances[id].history <= e'.instances[id].history
  {
    if rest == [] {
      assert before + rest == before;
    } else {
      var init, last := rest[..|rest| - 1], rest[|rest| - 1];
      assert before + rest == (before + init) + [last];
      hide Served;
      OrdersExtend(before, init, id);
      ServeNext(before + init, last);
      OrderExtends(Serve(before + init), last, id);
    }
  }

  /** A claim whose instance was settled changes nothing, ever again, whoever commits or drops it. */
  lemma SettledClaimIsDead(before: seq<Order>, rest: seq<Order>, key: Key, id: Id)
    requires id < |Serve(before).instances| && Serve(before).instances[id].history != [Bound]
    ensures var e := Serve(before + rest); Commit(e, key, id) == Discard(e, key, id) == e
  {
    OrdersKeepAccounts(before);
    OrdersKeepAccounts(before + rest);
    assert AccountedFor(Serve(before), id);
    hide Serve, Inv, Commit, Discard;
    OrdersExtend(before, rest, id);
    ClaimTakesEffectIff(Serve(before + rest), key, id);
  }

  predicate NoneSettles(orders: seq<Order>, key: Key, id: Id) {
    forall i :: 0 <= i < |orders| ==> !Settles(orders[i], key, id)
  }

  /** The claim is committed at `j`, before anything else settled its instance. */
  predicate HonouredAt(orders: seq<Order>, key: Key, id: Id, j: nat) {
    j < |orders| && orders[j] == Commits(key, id) && NoneSettles(orders[..j], key, id)
  }

  lemma ClaimStarts(before: seq<Order>, key: Key)
    ensures var id := |Serve(before).instances|;
      IsGood(Serve(before + [Prepares(key, true)]), key, id)
  {
    hide ReleasePending;
    ServeNext(before, Prepares(key, true));
    ReleasingBindsNothing(Serve(before), key);
  }

  lemma ReleasingBindsNothing(e: Egress, key: Key)
    ensures |ReleasePending(e, key).instances| == |e.instances|
  {}

  /** A claim stays good exactly as long as no order settles its instance. */
  lemma {:induction false} StillGoodIffNoneSettles(before: seq<Order>, rest: seq<Order>, key: Key, id: Id)
    requires IsGood(Serve(before), key, id)
    ensures IsGood(Serve(before + rest), key, id) <==> NoneSettles(rest, key, id)
  {
    if rest == [] {
      assert before + rest == before;
    } else {
      var init, last := rest[..|rest| - 1], rest[|rest| - 1];
      assert before + rest == (before + init) + [last];
      assert NoneSettles(rest, key, id) <==> NoneSettles(init, key, id) && !Settles(last, key, id);
      hide Serve, Settles, NoneSettles, Served, Inv;
      StillGoodIffNoneSettles(before, init, key, id);
      ServeNext(before + init, last);
      OrdersExtend(before, init, id);
      OrderExtends(Serve(before + init), last, id);
      if IsGood(Serve(before + init), key, id) {
        OrdersKeepAccounts(before + init);
        OrderFate(Serve(before + init), last, key, id);
      }
    }
  }

  lemma {:induction false} FirstSettling(orders: seq<Order>, key: Key, id: Id) returns (j: nat)
    requires !NoneSettles(orders, key, id)
    ensures j < |orders| && Settles(orders[j], key, id) && NoneSettles(orders[..j], key, id)
  {
    var init := orders[..|orders| - 1];
    hide Settles;
    if NoneSettles(init, key, id) {
      j := |orders| - 1;
    } else {
      j := FirstSettling(init, key, id);
      assert orders[..j] == init[..j];
    }
  }

  /** The order that settles a claim's instance decides its fate for good. */
  lemma SettlingDecides(before: seq<Order>, o: Order, rest: seq<Order>, key: Key, id: Id)
    requires IsGood(Serve(before), key, id) && Settles(o, key, id)
    ensures var e := Serve(before + [o] + rest);
      && id < |e.instances| && e.instances[id].history != [Bound]
      && (Committed in e.instances[id].history <==> o == Commits(key, id))
  {
    OrdersKeepAccounts(before);
    OrdersKeepAccounts(before + [o] + rest);
    ServeNext(before, o);
    OrderFate(Serve(before), o, key, id);
    hide Serve, Served, Start, Commit, Discard, Stop, Emptied;
    OrdersExtend(before + [o], rest, id);
    assert AccountedFor(Serve(before + [o] + rest), id);
    hide Inv, AccountedFor;
    var was, now := Serve(before + [o]).instances[id].history, Serve(before + [o] + rest).instances[id].history;
    assert now[..2] == was[..2];
  }

  /**
   * However orders interleave: an instance a launch binds is provisional exactly as long as no order
   * settles it, and is ever committed exactly when its own launch's commit is the first that does.
   * What comes between, a newer launch, a stop or a drop, decides the other way.
   */
  lemma ClaimFate(before: seq<Order>, key: Key, rest: seq<Order>)
    ensures var (id, e) := (|Serve(before).instances|, Serve(before + [Prepares(key, true)] + rest));
      && id < |e.instances| && e.instances[id].owner == key
      && (e.instances[id].history == [Bound] <==> NoneSettles(rest, key, id))
      && (Committed in e.instances[id].history <==> exists j: nat :: HonouredAt(rest, key, id, j))
  {
    var id, bound := |Serve(before).instances|, before + [Prepares(key, true)];
    ClaimStarts(before, key);
    hide Serve;
    StillGoodIffNoneSettles(bound, rest, key, id);
    OrdersExtend(bound, rest, id);
    if !NoneSettles(rest, key, id) {
      var j := FirstSettling(rest, key, id);
      StillGoodIffNoneSettles(bound, rest[..j], key, id);
      SettlingDecides(bound + rest[..j], rest[j], rest[j + 1..], key, id);
      assert bound + rest == (bound + rest[..j]) + [rest[j]] + rest[j + 1..];
      FirstIsOnly(rest, key, id, j);
    }
  }

  lemma PrefixSettlesNothing(orders: seq<Order>, key: Key, id: Id, n: nat)
    requires n <= |orders| && NoneSettles(orders[..n], key, id)
    ensures forall i :: 0 <= i < n ==> !Settles(orders[i], key, id)
  {
    assert forall i :: 0 <= i < n ==> orders[..n][i] == orders[i];
  }

  lemma FirstIsOnly(orders: seq<Order>, key: Key, id: Id, j: nat)
    requires j < |orders| && Settles(orders[j], key, id) && NoneSettles(orders[..j], key, id)
    ensures (exists i: nat :: HonouredAt(orders, key, id, i)) <==> orders[j] == Commits(key, id)
  {
    if orders[j] == Commits(key, id) {
      assert HonouredAt(orders, key, id, j);
    }
    forall i: nat | HonouredAt(orders, key, id, i) ensures i == j {
      PrefixSettlesNothing(orders, key, id, i);
      PrefixSettlesNothing(orders, key, id, j);
    }
  }
}

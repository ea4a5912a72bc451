/** Which copy the clipboard ends up with: panes are drained one by one, and each tick keeps its newest. */
module PaneClipboardRuns {
  import opened PaneClipboard

  /** A step of one pane's threads, or the end of a tick. */
  datatype Event = Moves(action: Action) | TickEnds

  /**
   * The panes, what this tick has drained so far, everything earlier ticks drained, and the copies
   * they put on the clipboard, the last of which it holds.
   */
  datatype App = App(system: System, batch: seq<Copy>, settled: seq<Copy>, choices: seq<Copy>)

  /** What a step drains. */
  function Drains(s: System, a: Action): seq<Copy> {
    if a.Take? && a.pane < |s.panes| && s.panes[a.pane].drainer.Marked? then s.panes[a.pane].queue else []
  }

  /** The copy of a tick that was captured last. */
  function Latest(batch: seq<Copy>): (r: Copy)
    requires batch != []
    ensures r in batch && forall c :: c in batch ==> c.seqNo <= r.seqNo
  {
    if |batch| == 1 then batch[0] else
    var r := Latest(batch[..|batch| - 1]);
    var last := batch[|batch| - 1];
    if r.seqNo <= last.seqNo then last else r
  }

  function AppStep(a: App, e: Event): App {
    match e
    case Moves(action) => a.(system := Step(a.system, action), batch := a.batch + Drains(a.system, action))
    case TickEnds =>
      if a.batch == [] then a
      else App(a.system, [], a.settled + a.batch, a.choices + [Latest(a.batch)])
  }

  function AppRun(panes: nat, events: seq<Event>): App {
    if events == [] then App(Start(panes), [], [], [])
    else AppStep(AppRun(panes, events[..|events| - 1]), events[|events| - 1])
  }

  /** What the clipboard holds. */
  function Held(a: App): Copy
    requires a.choices != []
  {
    a.choices[|a.choices| - 1]
  }

  // ---- The invariant -----------------------------------------------------------------------

  /** Some pane has drained `c`. */
  predicate Delivered(s: System, c: Copy) { exists i :: 0 <= i < |s.panes| && c in s.panes[i].delivered }

  /** Some pane has captured the copy with position `n`. */
  predicate HasPosition(p: Pane, n: nat) { exists c :: c in Captured(p) && c.seqNo == n }

  predicate Taken(s: System, n: nat) { exists i :: 0 <= i < |s.panes| && HasPosition(s.panes[i], n) }

  /** The clipboard got a copy at least as late as `c`. */
  predicate Outdone(choices: seq<Copy>, c: Copy) { exists k :: 0 <= k < |choices| && c.seqNo <= choices[k].seqNo }

  ghost predicate DrainedInv(a: App) {
    && (forall c :: Delivered(a.system, c) ==> c in a.settled || c in a.batch)
    && (forall c :: c in a.settled || c in a.batch ==> Delivered(a.system, c))
  }

  predicate ChoicesInv(a: App) {
    && (forall c :: c in a.choices ==> c in a.settled)
    && forall c :: c in a.settled ==> Outdone(a.choices, c)
  }

  ghost predicate PositionsInv(s: System) { forall n: nat :: n < s.nextSeq ==> Taken(s, n) }

  ghost predicate AppInv(a: App) { Inv(a.system) && DrainedInv(a) && ChoicesInv(a) && PositionsInv(a.system) }

  lemma DrainingDelivers(s: System, action: Action, c: Copy)
    ensures Delivered(Step(s, action), c) <==> Delivered(s, c) || c in Drains(s, action)
  {
    var s' := Step(s, action);
    if action.pane < |s.panes| {
      var n := action.pane;
      assert s'.panes[n].delivered == s.panes[n].delivered + Drains(s, action);
      hide PaneStep;
      assert forall i :: 0 <= i < |s.panes| && i != n ==> s'.panes[i] == s.panes[i];
    }
  }

  lemma StepKeepsCaptured(p: Pane, action: Action, nextSeq: nat, n: nat)
    requires HasPosition(p, n)
    ensures HasPosition(PaneStep(p, action, nextSeq), n)
  {
    var c :| c in Captured(p) && c.seqNo == n;
    assert c in Captured(PaneStep(p, action, nextSeq));
  }

  lemma StepKeepsPositions(s: System, action: Action)
    requires PositionsInv(s)
    ensures PositionsInv(Step(s, action))
  {
    var s' := Step(s, action);
    forall n: nat | n < s'.nextSeq ensures Taken(s', n) {
      if n < s.nextSeq {
        assert Taken(s, n);
        var i :| 0 <= i < |s.panes| && HasPosition(s.panes[i], n);
        if i == action.pane {
          StepKeepsCaptured(s.panes[i], action, s.nextSeq, n);
        }
        assert HasPosition(s'.panes[i], n);
      } else {
        StampTakes(s.panes[action.pane], action, s.nextSeq);
        assert HasPosition(s'.panes[action.pane], n);
      }
    }
  }

  lemma StampTakes(p: Pane, action: Action, nextSeq: nat)
    requires action.Stamp? && p.pusher.Resting?
    ensures HasPosition(PaneStep(p, action, nextSeq), nextSeq)
  {
    assert Copy(nextSeq, action.text) in Captured(PaneStep(p, action, nextSeq));
  }

  lemma MoveKeepsAppInv(a: App, action: Action)
    requires AppInv(a)
    ensures AppInv(AppStep(a, Moves(action)))
  {
    StepKeepsInv(a.system, action);
    StepKeepsPositions(a.system, action);
    forall c ensures Delivered(Step(a.system, action), c) <==> Delivered(a.system, c) || c in Drains(a.system, action) {
      DrainingDelivers(a.system, action, c);
    }
    hide Inv, PositionsInv, Delivered, Drains, Step;
  }

  lemma TickKeepsAppInv(a: App)
    requires AppInv(a)
    ensures AppInv(AppStep(a, TickEnds))
  {
    hide Inv, PositionsInv, Delivered;
    var a' := AppStep(a, TickEnds);
    forall c | c in a'.settled ensures Outdone(a'.choices, c) {
      if c in a.settled {
        var k :| 0 <= k < |a.choices| && c.seqNo <= a.choices[k].seqNo;
        assert a'.choices[k] == a.choices[k];
      } else {
        assert c.seqNo <= a'.choices[|a'.choices| - 1].seqNo;
      }
    }
  }

  lemma {:induction false} RunKeepsAppInv(panes: nat, events: seq<Event>)
    ensures AppInv(AppRun(panes, events))
  {
    if events != [] {
      RunKeepsAppInv(panes, events[..|events| - 1]);
      var a, e := AppRun(panes, events[..|events| - 1]), events[|events| - 1];
      hide AppInv, AppStep;
      if e.Moves? {
        MoveKeepsAppInv(a, e.action);
      } else {
        TickKeepsAppInv(a);
      }
    } else {
      RunKeepsInv(panes, []);
    }
  }

  // ---- Which copy wins ---------------------------------------------------------------------

  /** The clipboard holds the copy captured last of all that ticks have drained. */
  predicate HoldsLatest(a: App) {
    a.choices != [] && forall c :: c in a.settled ==> c.seqNo <= Held(a).seqNo
  }

  /** No tick put an older copy on the clipboard than one before it. */
  predicate LastChoiceIsLatest(a: App) {
    a.choices != [] && forall k :: 0 <= k < |a.choices| ==> a.choices[k].seqNo <= Held(a).seqNo
  }

  /**
   * One more tick in any run: afterwards the clipboard holds the latest of everything drained exactly
   * when the tick drained nothing and it did before, or something captured after all drained earlier.
   */
  lemma TickKeepsLatestIff(panes: nat, events: seq<Event>)
    ensures var a := AppRun(panes, events);
      HoldsLatest(AppStep(a, TickEnds)) <==>
        if a.batch == [] then HoldsLatest(a)
        else exists c :: c in a.batch && forall d :: d in a.settled ==> d.seqNo <= c.seqNo
  {
    var a := AppRun(panes, events);
    hide AppRun;
    if a.batch != [] {
      var a' := AppStep(a, TickEnds);
      assert Held(a') == Latest(a.batch);
      assert Held(a') in a.batch;
      if HoldsLatest(a') {
        assert forall d :: d in a.settled ==> d in a'.settled;
      }
    }
  }

  /** The clipboard holds the latest of all drained copies exactly when no earlier tick chose a later one. */
  lemma HoldsLatestIff(panes: nat, events: seq<Event>)
    ensures var a := AppRun(panes, events); HoldsLatest(a) <==> LastChoiceIsLatest(a)
  {
    RunKeepsAppInv(panes, events);
    var a := AppRun(panes, events);
    hide AppRun, DrainedInv, PositionsInv, Inv;
    if LastChoiceIsLatest(a) {
      forall c | c in a.settled ensures c.seqNo <= Held(a).seqNo {
        assert Outdone(a.choices, c);
      }
    }
  }

  /** Nothing is on its way any more. */
  predicate AllDrained(a: App) {
    a.batch == [] && forall i :: 0 <= i < |a.system.panes| ==>
      Quiet(a.system.panes[i]) && a.system.panes[i].queue == []
  }

  lemma LastCaptureIsDelivered(s: System, i: nat)
    requires Inv(s) && i < |s.panes| && s.nextSeq > 0 && HasPosition(s.panes[i], s.nextSeq - 1)
    requires Quiet(s.panes[i]) && s.panes[i].queue == []
    ensures exists c :: c in s.panes[i].delivered && c.seqNo == s.nextSeq - 1
  {
    var p := s.panes[i];
    var c :| c in Captured(p) && c.seqNo == s.nextSeq - 1;
    var j :| 0 <= j < |p.sent| && p.sent[j] == c;
    assert j == |p.sent| - 1;
    DeliveredThenQueued(p, s.nextSeq);
    assert p.fates[j].Drained?;
  }

  /**
   * In any run, once everything captured has been drained, the clipboard holds the copy that was
   * captured last of all exactly when no tick chose an older copy than a tick before it.
   */
  lemma LastCaptureWinsIff(panes: nat, events: seq<Event>)
    requires AllDrained(AppRun(panes, events)) && AppRun(panes, events).system.nextSeq > 0
    ensures var a := AppRun(panes, events);
      a.choices != [] && (Held(a).seqNo == a.system.nextSeq - 1 <==> LastChoiceIsLatest(a))
  {
    RunKeepsAppInv(panes, events);
    HoldsLatestIff(panes, events);
    var a := AppRun(panes, events);
    var s := a.system;
    assert Taken(s, s.nextSeq - 1);
    var i :| 0 <= i < |s.panes| && HasPosition(s.panes[i], s.nextSeq - 1);
    LastCaptureIsDelivered(s, i);
    var c :| c in s.panes[i].delivered && c.seqNo == s.nextSeq - 1;
    assert Delivered(s, c);
    assert Outdone(a.choices, c);
    SettledWereCaptured(a);
    hide AppRun, DrainedInv, PositionsInv, Inv;
  }

  lemma SettledWereCaptured(a: App)
    requires AppInv(a)
    ensures forall c :: c in a.settled ==> c.seqNo < a.system.nextSeq
  {
    forall c | c in a.settled ensures c.seqNo < a.system.nextSeq {
      assert Delivered(a.system, c);
      var i :| 0 <= i < |a.system.panes| && c in a.system.panes[i].delivered;
      DeliveredIsCaptured(a.system.panes[i], a.system.nextSeq);
    }
  }

  lemma DeliveredIsCaptured(p: Pane, nextSeq: nat)
    requires PaneInv(p, nextSeq)
    ensures forall c :: c in p.delivered ==> c in Captured(p)
  {
    IncreasingPrefix(p.sent, Captured(p)[|p.sent|..]);
    DeliveredIncreases(p.sent, p.fates);
  }

  // ---- One pane, and two -------------------------------------------------------------------

  lemma AppNext(panes: nat, events: seq<Event>, e: Event)
    ensures AppRun(panes, events + [e]) == AppStep(AppRun(panes, events), e)
  {
    hide AppStep;
    assert (events + [e])[..|events|] == events;
  }

  /** With one pane what was settled, and then this tick's batch, is all it delivered, in order. */
  lemma {:induction false} OnePaneInOrder(events: seq<Event>)
    ensures var a := AppRun(1, events);
      |a.system.panes| == 1 && a.settled + a.batch == a.system.panes[0].delivered
  {
    if events != [] {
      OnePaneInOrder(events[..|events| - 1]);
    }
  }

  lemma EarlierIsOlder(early: seq<Copy>, late: seq<Copy>)
    requires Increasing(early + late)
    ensures forall c, d :: c in early && d in late ==> c.seqNo < d.seqNo
  {
    var all := early + late;
    forall c, d | c in early && d in late ensures c.seqNo < d.seqNo {
      var i :| 0 <= i < |early| && early[i] == c;
      var j :| 0 <= j < |late| && late[j] == d;
      assert all[i] == c && all[|early| + j] == d;
    }
  }

  /** With one pane the clipboard always holds the latest copy drained. */
  lemma {:induction false} OnePaneHoldsLatest(events: seq<Event>)
    ensures AppRun(1, events).settled != [] ==> HoldsLatest(AppRun(1, events))
  {
    if events != [] {
      var init, e := events[..|events| - 1], events[|events| - 1];
      OnePaneHoldsLatest(init);
      if e.TickEnds? && AppRun(1, init).batch != [] {
        var a := AppRun(1, init);
        OnePaneInOrder(init);
        RunKeepsAppInv(1, init);
        DeliveredThenQueued(a.system.panes[0], a.system.nextSeq);
        IncreasingPrefix(a.system.panes[0].delivered, a.system.panes[0].queue);
        EarlierIsOlder(a.settled, a.batch);
        assert a.batch[0] in a.batch;
        TickKeepsLatestIff(1, init);
      }
    }
  }

  function Pushes(pane: nat, text: string): (r: seq<Event>)
    ensures |r| == 3
  {
    [Moves(Stamp(pane, text)), Moves(Enqueue(pane)), Moves(Bump(pane))]
  }

  function Draining(pane: nat): (r: seq<Event>)
    ensures |r| == 3
  {
    [Moves(Load(pane)), Moves(Mark(pane)), Moves(Take(pane))]
  }

  /** Three steps, taken from `a` on. */
  function Three(a: App, events: seq<Event>): App
    requires |events| == 3
  {
    AppStep(AppStep(AppStep(a, events[0]), events[1]), events[2])
  }

  lemma ThreeMore(panes: nat, before: seq<Event>, events: seq<Event>)
    requires |events| == 3
    ensures AppRun(panes, before + events) == Three(AppRun(panes, before), events)
  {
    hide AppStep, AppRun;
    AppNext(panes, before, events[0]);
    AppNext(panes, before + [events[0]], events[1]);
    AppNext(panes, before + [events[0]] + [events[1]], events[2]);
    assert before + [events[0]] + [events[1]] + [events[2]] == before + events;
  }

  /** Drained before it got its copy, the first pane has its turn a tick later than the second. */
  function FirstTick(): seq<Event> { Draining(0) + Pushes(0, "older") + Pushes(1, "newer") + Draining(1) }

  function BothTicks(): seq<Event> { FirstTick() + [TickEnds] + Draining(0) + [TickEnds] }

  const OLD := Copy(0, "older")

  const NEW := Copy(1, "newer")

  /** A pane that got one copy, and the same one drained. */
  function Full(c: Copy): Pane { NEW_PANE.(queue := [c], gen := 1, sent := [c]) }

  function Empty(c: Copy): Pane { Full(c).(queue := [], lastSeen := 1, fates := [Drained], delivered := [c]) }

  function Panes(p: Pane, q: Pane): System { System(2, [p, q]) }

  /** One more step of a pane that is `p` when everything else is as in `s`. */
  lemma StepAgain(s: System, pane: nat, p: Pane, action: Action)
    requires pane < |s.panes| && action.pane == pane && !action.Stamp?
    ensures Step(s.(panes := s.panes[pane := p]), action)
      == s.(panes := s.panes[pane := PaneStep(p, action, s.nextSeq)])
  {
    hide PaneStep;
    assert s.panes[pane := p][pane := PaneStep(p, action, s.nextSeq)] ==
      s.panes[pane := PaneStep(p, action, s.nextSeq)];
  }

  lemma PushOnce(a: App, pane: nat, text: string)
    requires pane < |a.system.panes| && a.system.panes[pane] == NEW_PANE
    ensures Three(a, Pushes(pane, text)) == a.(system := System(a.system.nextSeq + 1,
      a.system.panes[pane := Full(Copy(a.system.nextSeq, text))]))
  {
    var c, s := Copy(a.system.nextSeq, text), a.system.(nextSeq := a.system.nextSeq + 1);
    var p := NEW_PANE.(pusher := Stamped(c));
    assert Step(a.system, Stamp(pane, text)) == s.(panes := s.panes[pane := p]);
    StepAgain(s, pane, p, Enqueue(pane));
    StepAgain(s, pane, PaneStep(p, Enqueue(pane), s.nextSeq), Bump(pane));
    var none: seq<Copy> := [];
    assert none + [c] == [c];
    hide Step;
    assert forall x: App :: x.batch + [] == x.batch;
  }

  lemma DrainOnce(a: App, pane: nat, c: Copy)
    requires pane < |a.system.panes| && a.system.panes[pane] == Full(c)
    ensures Three(a, Draining(pane)) == a.(batch := a.batch + [c],
      system := a.system.(panes := a.system.panes[pane := Empty(c)]))
  {
    var s, p := a.system, Full(c);
    assert s == s.(panes := s.panes[pane := p]);
    var loaded := PaneStep(p, Load(pane), s.nextSeq);
    StepAgain(s, pane, p, Load(pane));
    StepAgain(s, pane, loaded, Mark(pane));
    StepAgain(s, pane, PaneStep(loaded, Mark(pane), s.nextSeq), Take(pane));
    var none: seq<Copy>, fates: seq<Fate> := [], [];
    assert none + [c] == [c] && fates + seq(1, i => Drained) == [Drained];
    var marked := PaneStep(loaded, Mark(pane), s.nextSeq);
    assert PaneStep(marked, Take(pane), s.nextSeq) == Empty(c);
    hide Step;
    assert forall x: App :: x.batch + [] == x.batch;
  }

  lemma ClosedGateDrains(a: App, pane: nat)
    requires pane < |a.system.panes| && a.system.panes[pane] == NEW_PANE
    ensures Three(a, Draining(pane)) == a
  {
    assert a.system.panes[pane := NEW_PANE] == a.system.panes;
    assert a.batch + [] == a.batch;
  }

  lemma FirstPushes()
    ensures var a := App(System(0, [NEW_PANE, NEW_PANE]), [], [], []);
      Three(Three(Three(a, Draining(0)), Pushes(0, "older")), Pushes(1, "newer")) ==
        App(Panes(Full(OLD), Full(NEW)), [], [], [])
  {
    hide Three, Full;
    var a := App(System(0, [NEW_PANE, NEW_PANE]), [], [], []);
    ClosedGateDrains(a, 0);
    PushOnce(a, 0, "older");
    assert [NEW_PANE, NEW_PANE][0 := Full(OLD)] == [Full(OLD), NEW_PANE];
    PushOnce(App(System(1, [Full(OLD), NEW_PANE]), [], [], []), 1, "newer");
    assert [Full(OLD), NEW_PANE][1 := Full(NEW)] == [Full(OLD), Full(NEW)];
  }

  lemma NoEvents()
    ensures AppRun(2, []) == App(System(0, [NEW_PANE, NEW_PANE]), [], [], [])
  {
    assert Start(2).panes == [NEW_PANE, NEW_PANE];
  }

  lemma FirstTickRuns()
    ensures AppRun(2, FirstTick()) == App(Panes(Full(OLD), Empty(NEW)), [NEW], [], [])
  {
    hide AppRun, Three, Full, Empty, Draining, Pushes;
    var none: seq<Event> := [];
    NoEvents();
    FirstPushes();
    ThreeMore(2, none, Draining(0));
    assert none + Draining(0) == Draining(0);
    ThreeMore(2, Draining(0), Pushes(0, "older"));
    ThreeMore(2, Draining(0) + Pushes(0, "older"), Pushes(1, "newer"));
    ThreeMore(2, Draining(0) + Pushes(0, "older") + Pushes(1, "newer"), Draining(1));
    DrainOnce(App(Panes(Full(OLD), Full(NEW)), [], [], []), 1, NEW);
    assert [Full(OLD), Full(NEW)][1 := Empty(NEW)] == [Full(OLD), Empty(NEW)];
    var undrained: seq<Copy> := [];
    assert undrained + [NEW] == [NEW];
  }

  lemma SecondTickRuns()
    ensures AppRun(2, BothTicks()) == App(Panes(Empty(OLD), Empty(NEW)), [], [NEW, OLD], [NEW, OLD])
  {
    hide AppRun, Three, FirstTick, Draining, Full, Empty;
    FirstTickRuns();
    AppNext(2, FirstTick(), TickEnds);
    var none: seq<Copy> := [];
    assert none + [NEW] == [NEW] && none + [OLD] == [OLD] && [NEW] + [OLD] == [NEW, OLD];
    var a := App(Panes(Full(OLD), Empty(NEW)), [], [NEW], [NEW]);
    assert AppRun(2, FirstTick() + [TickEnds]) == a;
    ThreeMore(2, FirstTick() + [TickEnds], Draining(0));
    DrainOnce(a, 0, OLD);
    assert [Full(OLD), Empty(NEW)][0 := Empty(OLD)] == [Empty(OLD), Empty(NEW)];
    AppNext(2, FirstTick() + [TickEnds] + Draining(0), TickEnds);
  }

  /** With two panes the older of two copies, neither caught half-pushed, can end up on the clipboard. */
  lemma OlderCopyWins()
    ensures var a := AppRun(2, BothTicks());
      AllDrained(a) && a.choices == [NEW, OLD] && a.settled == [NEW, OLD] && !HoldsLatest(a)
  {
    SecondTickRuns();
    hide AppRun, BothTicks;
    assert NEW in AppRun(2, BothTicks()).settled;
  }
}

/** The queue of clipboard copies between a pane's reader thread and the application's tick. */
module PaneClipboard {
  /** A captured copy and its position in the process-wide capture order. */
  datatype Copy = Copy(seqNo: nat, text: string)

  /** How many undrained copies a pane keeps. */
  const CAP: nat := 8

  /** `queue` with `c` at its end, its oldest entry dropped first when it is full. */
  function Enqueued(queue: seq<Copy>, c: Copy): seq<Copy> {
    (if |queue| >= CAP then queue[1..] else queue) + [c]
  }

  /** The process-wide capture counter. */
  class CaptureCounter {
    var next: nat

    constructor () ensures next == 0 { next := 0; }
  }

  /** The shared cells, and the operations of the two threads when nothing interrupts them. */
  class Clipboard {
    var queue: seq<Copy>
    var gen: nat

    constructor () ensures queue == [] && gen == 0 { queue, gen := [], 0; }

    method Push(counter: CaptureCounter, text: string)
      modifies this, counter
      ensures counter.next == old(counter.next) + 1
      ensures queue == Enqueued(old(queue), Copy(old(counter.next), text))
      ensures gen == old(gen) + 1
    {
      var seqNo := counter.next;
      counter.next := seqNo + 1;
      if |queue| >= CAP {
        queue := queue[1..];
      }
      queue := queue + [Copy(seqNo, text)];
      gen := gen + 1;
    }

    method DrainNew(lastSeen: nat) returns (seen: nat, copies: seq<Copy>)
      modifies this`queue
      ensures seen == gen
      ensures copies == if gen == lastSeen then [] else old(queue)
      ensures queue == if gen == lastSeen then old(queue) else []
    {
      if gen == lastSeen {
        return lastSeen, [];
      }
      seen, copies := gen, queue;
      queue := [];
    }
  }

  // ---- The two threads, interleaved --------------------------------------------------------

  /** Where a pane's reader thread is in a push. */
  datatype Pusher = Resting | Stamped(copy: Copy) | Pushed

  /** Where the application is in draining a pane. */
  datatype Drainer = Waiting | Loaded(gen: nat) | Marked

  datatype Fate = Drained | Dropped

  /**
   * One pane: its shared cells, its two threads, and its history. `sent` is every copy ever
   * enqueued; `fates` says what became of those that left the queue.
   */
  datatype Pane = Pane(queue: seq<Copy>, gen: nat, lastSeen: nat, pusher: Pusher, drainer: Drainer,
                       sent: seq<Copy>, fates: seq<Fate>, delivered: seq<Copy>)

  datatype System = System(nextSeq: nat, panes: seq<Pane>)

  /** The atomic steps: stamp, enqueue and bump by a pusher; load, mark and take by the drainer. */
  datatype Action = Stamp(pane: nat, text: string) | Enqueue(pane: nat) | Bump(pane: nat)
                  | Load(pane: nat) | Mark(pane: nat) | Take(pane: nat)

  const NEW_PANE := Pane([], 0, 0, Resting, Waiting, [], [], [])

  function Start(panes: nat): System { System(0, seq(panes, i => NEW_PANE)) }

  /** A pane's own part of a step; a step whose turn it is not changes nothing. */
  function PaneStep(p: Pane, a: Action, nextSeq: nat): Pane {
    match a
    case Stamp(_, text) =>
      if p.pusher.Resting? then p.(pusher := Stamped(Copy(nextSeq, text))) else p
    case Enqueue(_) =>
      if !p.pusher.Stamped? then p else
      p.(pusher := Pushed, queue := Enqueued(p.queue, p.pusher.copy), sent := p.sent + [p.pusher.copy],
         fates := if |p.queue| >= CAP then p.fates + [Dropped] else p.fates)
    case Bump(_) =>
      if p.pusher.Pushed? then p.(pusher := Resting, gen := p.gen + 1) else p
    case Load(_) =>
      if p.drainer.Waiting? && p.gen != p.lastSeen then p.(drainer := Loaded(p.gen)) else p
    case Mark(_) =>
      if p.drainer.Loaded? then p.(drainer := Marked, lastSeen := p.drainer.gen) else p
    case Take(_) =>
      if !p.drainer.Marked? then p else
      p.(drainer := Waiting, queue := [], delivered := p.delivered + p.queue,
         fates := p.fates + seq(|p.queue|, i => Drained))
  }

  function Step(s: System, a: Action): System {
    if a.pane >= |s.panes| then s else
    System(if a.Stamp? && s.panes[a.pane].pusher.Resting? then s.nextSeq + 1 else s.nextSeq,
           s.panes[a.pane := PaneStep(s.panes[a.pane], a, s.nextSeq)])
  }

  function Run(panes: nat, actions: seq<Action>): System {
    if actions == [] then Start(panes)
    else Step(Run(panes, actions[..|actions| - 1]), actions[|actions| - 1])
  }

  /** Neither thread is in the middle of an operation on the pane. */
  predicate Quiet(p: Pane) { p.pusher.Resting? && p.drainer.Waiting? }

  /** The methods of `Clipboard` are the two threads' steps taken without interruption. */
  lemma MethodsAreUninterruptedSteps(p: Pane, pane: nat, text: string, nextSeq: nat)
    requires Quiet(p)
    ensures var stamped := PaneStep(p, Stamp(pane, text), nextSeq);
      var pushed := PaneStep(PaneStep(stamped, Enqueue(pane), nextSeq), Bump(pane), nextSeq);
      && pushed.queue == Enqueued(p.queue, Copy(nextSeq, text)) && pushed.gen == p.gen + 1 && Quiet(pushed)
    ensures var marked := PaneStep(PaneStep(p, Load(pane), nextSeq), Mark(pane), nextSeq);
      var drained := PaneStep(marked, Take(pane), nextSeq);
      && drained.lastSeen == p.gen && Quiet(drained)
      && drained.queue == (if p.gen == p.lastSeen then p.queue else [])
      && drained.delivered == p.delivered + (if p.gen == p.lastSeen then [] else p.queue)
  {}

  predicate IsPusherStep(a: Action) { a.Stamp? || a.Enqueue? || a.Bump? }

  /** A pane after some steps on it. */
  function PaneSteps(p: Pane, actions: seq<Action>, nextSeq: nat): Pane {
    if actions == [] then p
    else PaneStep(PaneSteps(p, actions[..|actions| - 1], nextSeq), actions[|actions| - 1], nextSeq)
  }

  lemma {:induction false} PusherLeavesDrainer(p: Pane, actions: seq<Action>, nextSeq: nat)
    requires forall a :: a in actions ==> IsPusherStep(a)
    ensures PaneSteps(p, actions, nextSeq).drainer == p.drainer
  {
    if actions != [] {
      assert actions[|actions| - 1] in actions;
      PusherLeavesDrainer(p, actions[..|actions| - 1], nextSeq);
    }
  }

  /** Whatever is pushed in between, a drain notes the generation it loaded, not a later one. */
  lemma DrainNotesWhatItLoaded(p: Pane, pane: nat, pushes: seq<Action>, nextSeq: nat)
    requires p.drainer.Waiting? && p.gen != p.lastSeen && forall a :: a in pushes ==> IsPusherStep(a)
    ensures var loaded := PaneStep(p, Load(pane), nextSeq);
      PaneStep(PaneSteps(loaded, pushes, nextSeq), Mark(pane), nextSeq).lastSeen == p.gen
  {
    PusherLeavesDrainer(PaneStep(p, Load(pane), nextSeq), pushes, nextSeq);
  }

  // ---- The invariant -----------------------------------------------------------------------

  predicate Increasing(s: seq<Copy>) { forall i, j :: 0 <= i < j < |s| ==> s[i].seqNo < s[j].seqNo }

  /** The copies that left the queue with the given fate, in order. */
  function WithFate(sent: seq<Copy>, fates: seq<Fate>, fate: Fate): seq<Copy>
    requires |fates| <= |sent|
  {
    if fates == [] then [] else
    var n := |fates| - 1;
    WithFate(sent, fates[..n], fate) + (if fates[n] == fate then [sent[n]] else [])
  }

  /** Every copy a pane has stamped, enqueued or not. */
  function Captured(p: Pane): seq<Copy> {
    if p.pusher.Stamped? then p.sent + [p.pusher.copy] else p.sent
  }

  /** The queue is what is left of `sent`, and a copy is dropped only behind `CAP` newer ones. */
  predicate QueueInv(p: Pane) {
    && |p.fates| <= |p.sent| && p.queue == p.sent[|p.fates|..] && |p.queue| <= CAP
    && p.delivered == WithFate(p.sent, p.fates, Drained)
    && forall i :: 0 <= i < |p.fates| && p.fates[i].Dropped? ==> i + CAP < |p.sent|
  }

  /** The generation counts finished pushes; whatever the drainer has marked has left the queue. */
  predicate GateInv(p: Pane) {
    && p.gen + (if p.pusher.Pushed? then 1 else 0) == |p.sent|
    && p.lastSeen <= p.gen
    && (p.drainer.Loaded? ==> p.drainer.gen <= p.gen)
    && (!p.drainer.Marked? ==> p.lastSeen <= |p.fates|)
  }

  predicate PaneInv(p: Pane, nextSeq: nat) {
    && |p.fates| <= |p.sent|
    && QueueInv(p) && GateInv(p) && Increasing(Captured(p))
    && forall c :: c in Captured(p) ==> c.seqNo < nextSeq
  }

  /** Panes never share a capture position. */
  predicate Disjoint(p: Pane, q: Pane) {
    forall c, d :: c in Captured(p) && d in Captured(q) ==> c.seqNo != d.seqNo
  }

  predicate Inv(s: System) {
    && (forall i :: 0 <= i < |s.panes| ==> PaneInv(s.panes[i], s.nextSeq))
    && forall i, j :: 0 <= i < j < |s.panes| ==> Disjoint(s.panes[i], s.panes[j])
  }

  lemma {:induction false} FatesOfLonger(sent: seq<Copy>, more: seq<Copy>, fates: seq<Fate>, fate: Fate)
    requires |fates| <= |sent|
    ensures WithFate(sent + more, fates, fate) == WithFate(sent, fates, fate)
  {
    if fates != [] {
      FatesOfLonger(sent, more, fates[..|fates| - 1], fate);
    }
  }

  lemma {:induction false} FatesDrained(sent: seq<Copy>, fates: seq<Fate>, n: nat)
    requires |fates| + n <= |sent|
    ensures WithFate(sent, fates + seq(n, i => Drained), Drained)
         == WithFate(sent, fates, Drained) + sent[|fates|..|fates| + n]
  {
    var all := fates + seq(n, i => Drained);
    if n == 0 {
      assert all == fates;
    } else {
      FatesDrained(sent, fates, n - 1);
      assert all[..|all| - 1] == fates + seq(n - 1, i => Drained);
    }
  }

  lemma EnqueueKeepsQueueInv(p: Pane, a: Action, nextSeq: nat)
    requires PaneInv(p, nextSeq) && a.Enqueue?
    ensures QueueInv(PaneStep(p, a, nextSeq))
  {
    if p.pusher.Stamped? {
      var p' := PaneStep(p, a, nextSeq);
      FatesOfLonger(p.sent, [p.pusher.copy], p.fates, Drained);
      if |p.queue| >= CAP {
        assert p'.fates[..|p'.fates| - 1] == p.fates;
      }
    }
  }

  lemma TakeKeepsQueueInv(p: Pane, a: Action, nextSeq: nat)
    requires PaneInv(p, nextSeq) && a.Take?
    ensures QueueInv(PaneStep(p, a, nextSeq))
  {
    if p.drainer.Marked? {
      FatesDrained(p.sent, p.fates, |p.queue|);
      assert p.sent[|p.fates|..|p.fates| + |p.queue|] == p.queue;
    }
  }

  lemma PaneStepKeepsInv(p: Pane, a: Action, nextSeq: nat)
    requires PaneInv(p, nextSeq)
    ensures PaneInv(PaneStep(p, a, nextSeq), if a.Stamp? && p.pusher.Resting? then nextSeq + 1 else nextSeq)
    ensures forall c :: c in Captured(PaneStep(p, a, nextSeq)) ==> c in Captured(p) || c.seqNo == nextSeq
  {
    EnqueueOrTake(p, a, nextSeq);
  }

  lemma EnqueueOrTake(p: Pane, a: Action, nextSeq: nat)
    requires PaneInv(p, nextSeq)
    ensures QueueInv(PaneStep(p, a, nextSeq))
  {
    if a.Enqueue? {
      EnqueueKeepsQueueInv(p, a, nextSeq);
    } else if a.Take? {
      TakeKeepsQueueInv(p, a, nextSeq);
    }
  }

  /** A step on one pane leaves it apart from a pane it does not touch. */
  lemma StepKeepsDisjoint(p: Pane, q: Pane, a: Action, nextSeq: nat)
    requires PaneInv(p, nextSeq) && PaneInv(q, nextSeq) && Disjoint(p, q)
    ensures Disjoint(PaneStep(p, a, nextSeq), q) && Disjoint(q, PaneStep(p, a, nextSeq))
  {
    PaneStepKeepsInv(p, a, nextSeq);
    hide PaneStep, Captured;
  }

  lemma StepKeepsInv(s: System, a: Action)
    requires Inv(s)
    ensures Inv(Step(s, a))
  {
    if a.pane < |s.panes| {
      var n, p := a.pane, s.panes[a.pane];
      var s' := Step(s, a);
      PaneStepKeepsInv(p, a, s.nextSeq);
      forall i | 0 <= i < |s.panes| && i != n
        ensures Disjoint(s'.panes[n], s.panes[i]) && Disjoint(s.panes[i], s'.panes[n])
      {
        assert Disjoint(p, s.panes[i]) by {
          if i < n {
            assert Disjoint(s.panes[i], p);
          }
        }
        StepKeepsDisjoint(p, s.panes[i], a, s.nextSeq);
      }
      hide PaneStep, Captured, QueueInv, GateInv, Increasing, Disjoint;
      assert forall i :: 0 <= i < |s.panes| && i != n ==> s'.panes[i] == s.panes[i];
    }
  }

  lemma {:induction false} RunKeepsInv(panes: nat, actions: seq<Action>)
    ensures Inv(Run(panes, actions))
  {
    if actions != [] {
      RunKeepsInv(panes, actions[..|actions| - 1]);
      StepKeepsInv(Run(panes, actions[..|actions| - 1]), actions[|actions| - 1]);
    }
  }

  lemma {:induction false} DeliveredIncreases(sent: seq<Copy>, fates: seq<Fate>)
    requires |fates| <= |sent| && Increasing(sent)
    ensures Increasing(WithFate(sent, fates, Drained))
    ensures forall c :: c in WithFate(sent, fates, Drained) ==> c in sent[..|fates|]
    ensures forall i :: 0 <= i < |fates| && fates[i].Drained? ==> sent[i] in WithFate(sent, fates, Drained)
  {
    if fates != [] {
      var n := |fates| - 1;
      var before := WithFate(sent, fates[..n], Drained);
      DeliveredIncreases(sent, fates[..n]);
      assert sent[..n + 1] == sent[..n] + [sent[n]];
      forall i | 0 <= i < |before| ensures before[i].seqNo < sent[n].seqNo {
        assert before[i] in sent[..n];
      }
    }
  }

  lemma IncreasingPrefix(a: seq<Copy>, b: seq<Copy>)
    requires Increasing(a + b)
    ensures Increasing(a)
  {
    assert forall i :: 0 <= i < |a| ==> a[i] == (a + b)[i];
  }

  /** Whatever was drained was captured before whatever is still queued. */
  lemma DeliveredThenQueued(p: Pane, nextSeq: nat)
    requires PaneInv(p, nextSeq)
    ensures Increasing(p.delivered + p.queue)
    ensures forall i :: 0 <= i < |p.fates| && p.fates[i].Drained? ==> p.sent[i] in p.delivered
  {
    IncreasingPrefix(p.sent, Captured(p)[|p.sent|..]);
    DeliveredIncreases(p.sent, p.fates);
    forall i, j | 0 <= i < |p.delivered| && 0 <= j < |p.queue| ensures p.delivered[i].seqNo < p.queue[j].seqNo {
      assert p.delivered[i] in p.sent[..|p.fates|];
    }
  }

  /**
   * In every interleaving: a quiet pane with undrained copies has its gate open; every copy ever
   * enqueued has been delivered, is still queued, or was dropped behind at least `CAP` newer ones;
   * the newest is never dropped; and each pane's copies are delivered in capture order.
   */
  lemma NoCopyIsLost(panes: nat, actions: seq<Action>, k: nat)
    requires k < |Run(panes, actions).panes|
    ensures var p := Run(panes, actions).panes[k];
      && (Quiet(p) && p.queue != [] ==> p.gen != p.lastSeen)
      && (forall i :: 0 <= i < |p.sent| ==>
            p.sent[i] in p.delivered || p.sent[i] in p.queue || i + CAP < |p.sent|)
      && (p.sent != [] ==> p.sent[|p.sent| - 1] in p.delivered + p.queue)
      && Increasing(p.delivered + p.queue)
  {
    RunKeepsInv(panes, actions);
    var p := Run(panes, actions).panes[k];
    var n := |p.fates|;
    DeliveredThenQueued(p, Run(panes, actions).nextSeq);
    hide Run, Increasing, WithFate, Disjoint;
    forall i | n <= i < |p.sent| ensures p.sent[i] in p.queue {
      assert p.queue[i - n] == p.sent[i];
    }
  }

  /** No two panes ever hold copies with the same capture position. */
  lemma CaptureOrderIsTotal(panes: nat, actions: seq<Action>, i: nat, j: nat)
    requires i < j < |Run(panes, actions).panes|
    ensures Disjoint(Run(panes, actions).panes[i], Run(panes, actions).panes[j])
  {
    RunKeepsInv(panes, actions);
  }
}

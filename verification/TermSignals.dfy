/** A pane's title and notification, written by its reader thread and polled by the application. */
module TermSignals {
  import opened Common

  type Text = Option<string>

  /** The generation a session starts from, which no counter value reaches. */
  const NEVER_SYNCED: nat := 0xFFFF_FFFF_FFFF_FFFF

  /** The shared cells and both sides' operations when nothing interrupts them. */
  class Cells {
    var title: Text
    var notification: Text
    var metaGen: nat

    constructor () ensures title == None && notification == None && metaGen == 0 {
      title, notification, metaGen := None, None, 0;
    }

    method StoreTitle(value: Text)
      modifies this
      ensures title == value && metaGen == old(metaGen) + 1 && notification == old(notification)
    {
      title := value;
      metaGen := metaGen + 1;
    }

    method StoreNotification(value: Text)
      modifies this
      ensures notification == value && metaGen == old(metaGen) + 1 && title == old(title)
    {
      notification := value;
      metaGen := metaGen + 1;
    }

    method SyncAgentMeta(lastSynced: nat) returns (synced: nat, pair: Option<(Text, Text)>)
      ensures synced == metaGen
      ensures pair == if metaGen == lastSynced then None else Some((title, notification))
    {
      if metaGen == lastSynced {
        return lastSynced, None;
      }
      return metaGen, Some((title, notification));
    }
  }

  // ---- The two threads, interleaved --------------------------------------------------------

  datatype Writer = Resting | WroteTitle | WroteNotification

  /** The application's read: nothing yet, the generation loaded, or the title read as well. */
  datatype Reader = Waiting | Loaded(gen: nat) | ReadTitle(gen: nat, title: Text)

  /** `returned` is the pair the application was last given. */
  datatype Meta = Meta(title: Text, notification: Text, gen: nat, writer: Writer,
                       reader: Reader, lastSynced: nat, returned: (Text, Text))

  /** The atomic steps of the writer (store a cell, bump) and of the reader (load, two reads). */
  datatype Action = StoreTitle(value: Text) | StoreNotification(value: Text) | Bump
                  | Load | TakeTitle | TakeNotification

  const START := Meta(None, None, 0, Resting, Waiting, NEVER_SYNCED, (None, None))

  /** One step; a step whose turn it is not changes nothing. */
  function Step(m: Meta, a: Action): Meta {
    match a
    case StoreTitle(v) => if m.writer.Resting? then m.(title := v, writer := WroteTitle) else m
    case StoreNotification(v) =>
      if m.writer.Resting? then m.(notification := v, writer := WroteNotification) else m
    case Bump => if m.writer.Resting? then m else m.(gen := m.gen + 1, writer := Resting)
    case Load =>
      if m.reader.Waiting? && m.gen != m.lastSynced
      then m.(reader := Loaded(m.gen), lastSynced := m.gen) else m
    case TakeTitle => if m.reader.Loaded? then m.(reader := ReadTitle(m.reader.gen, m.title)) else m
    case TakeNotification =>
      if m.reader.ReadTitle?
      then m.(reader := Waiting, returned := (m.reader.title, m.notification)) else m
  }

  function Run(actions: seq<Action>): Meta {
    if actions == [] then START else Step(Run(actions[..|actions| - 1]), actions[|actions| - 1])
  }

  /** The methods of `Cells` are the two sides' steps taken without interruption. */
  lemma MethodsAreUninterruptedSteps(m: Meta, value: Text)
    requires m.writer.Resting? && m.reader.Waiting?
    ensures Step(Step(m, StoreTitle(value)), Bump) == m.(title := value, gen := m.gen + 1)
    ensures Step(Step(m, StoreNotification(value)), Bump) == m.(notification := value, gen := m.gen + 1)
    ensures Step(Step(Step(m, Load), TakeTitle), TakeNotification) ==
      if m.gen == m.lastSynced then m else m.(lastSynced := m.gen, returned := (m.title, m.notification))
  {}

  /** A value read under generation `gen` is current, or a later bump has come or will come. */
  predicate Current(read: Text, cell: Text, gen: nat, m: Meta, pending: Writer) {
    read == cell || m.gen > gen || m.writer == pending
  }

  predicate Inv(m: Meta, steps: nat) {
    && m.gen <= steps
    && (m.lastSynced <= m.gen || (m.lastSynced == NEVER_SYNCED && m.reader.Waiting?))
    && (!m.reader.Waiting? ==> m.reader.gen == m.lastSynced)
    && (m.reader.Waiting? && m.lastSynced <= m.gen ==>
          && Current(m.returned.0, m.title, m.lastSynced, m, WroteTitle)
          && Current(m.returned.1, m.notification, m.lastSynced, m, WroteNotification))
    && (m.reader.ReadTitle? ==> Current(m.reader.title, m.title, m.lastSynced, m, WroteTitle))
  }

  lemma StepKeepsInv(m: Meta, a: Action, steps: nat)
    requires Inv(m, steps) && steps + 1 < NEVER_SYNCED
    ensures Inv(Step(m, a), steps + 1)
  {}

  lemma {:induction false} RunKeepsInv(actions: seq<Action>)
    requires |actions| < NEVER_SYNCED
    ensures Inv(Run(actions), |actions|)
  {
    if actions != [] {
      RunKeepsInv(actions[..|actions| - 1]);
      StepKeepsInv(Run(actions[..|actions| - 1]), actions[|actions| - 1], |actions| - 1);
    }
  }

  /**
   * In every interleaving: whenever the gate is closed and neither side is in the middle of an
   * operation, the pair last given to the application is the current title and notification.
   */
  lemma ClosedGateMeansInSync(actions: seq<Action>)
    requires |actions| < NEVER_SYNCED
    ensures var m := Run(actions);
      m.gen == m.lastSynced && m.writer.Resting? && m.reader.Waiting? ==>
        m.returned == (m.title, m.notification)
  {
    RunKeepsInv(actions);
  }

  /** Where the title in the reader's hand was read; the reader has done nothing since. */
  lemma {:induction false} TitleReadAt(actions: seq<Action>) returns (k: nat)
    requires Run(actions).reader.ReadTitle?
    ensures k < |actions| && actions[k].TakeTitle? && Run(actions[..k]).reader.Loaded?
    ensures Run(actions).reader.title == Run(actions[..k]).title
    ensures forall j :: k < j <= |actions| ==> Run(actions[..j]).reader == Run(actions).reader
  {
    var n := |actions| - 1;
    var init, last := actions[..n], actions[n];
    assert actions[..|actions|] == actions;
    if Run(init).reader.ReadTitle? {
      k := TitleReadAt(init);
      forall j | 0 <= j <= n ensures init[..j] == actions[..j] {}
      assert Run(actions).reader == Run(init).reader;
    } else {
      k := n;
    }
  }

  /**
   * In every interleaving: the pair a sync returns is the one held at its second read exactly when
   * the title then is the title at its first read; the notification always is.
   */
  lemma PairIsTornIff(actions: seq<Action>) returns (k: nat)
    requires Run(actions).reader.ReadTitle?
    ensures k < |actions| && actions[k].TakeTitle?
    ensures forall j :: k < j <= |actions| ==> Run(actions[..j]).reader == Run(actions).reader
    ensures var m := Run(actions + [TakeNotification]);
      && m.returned.1 == m.notification
      && (m.returned == (m.title, m.notification) <==> Run(actions[..k]).title == Run(actions).title)
  {
    k := TitleReadAt(actions);
    assert (actions + [TakeNotification])[..|actions|] == actions;
  }

  /** The pair is not read atomically: it can mix two moments, but then the gate is open again. */
  lemma TornPairReopensGate(t: Text, n: Text)
    ensures var m := Run([StoreTitle(None), Bump, Load, TakeTitle, StoreTitle(t), Bump,
                          StoreNotification(n), TakeNotification, Bump]);
      m.returned == (None, n) && m.title == t && m.gen != m.lastSynced
  {
    var a := [StoreTitle(None), Bump, Load, TakeTitle, StoreTitle(t), Bump,
              StoreNotification(n), TakeNotification, Bump];
    RunOfPrefix(a, 3);
    RunOfPrefix(a, 6);
    assert a[..9] == a;
    RunOfPrefix(a, 9);
  }

  lemma RunOfPrefix(a: seq<Action>, k: nat)
    requires 3 <= k <= |a|
    ensures Run(a[..k]) == Step(Step(Step(Run(a[..k - 3]), a[k - 3]), a[k - 2]), a[k - 1])
  {
    LastStep(a, k - 2);
    LastStep(a, k - 1);
    LastStep(a, k);
  }

  lemma LastStep(a: seq<Action>, k: nat)
    requires 1 <= k <= |a|
    ensures Run(a[..k]) == Step(Run(a[..k - 1]), a[k - 1])
  {
    assert a[..k][..k - 1] == a[..k - 1];
  }
}

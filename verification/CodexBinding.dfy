/** How current the rollout is that a Codex session is bound to, over every run of passes. */
module CodexBinding {
  import opened Common
  import opened Sorting
  import opened CodexDiscovery
  import opened CodexScan

  // ---- What a session is bound to ----------------------------------------------------------

  function BoundIn(t: Tree, dirs: seq<string>, ownId: Option<string>): Option<Path> {
    Bound(t, RecentFiles(t), dirs, ownId)
  }

  /** A pass looks for a rollout. */
  predicate Looks(s: CodexState, files: seq<Path>) { s.file.None? || NewestName(files) != s.newestSeen }

  /** The binding after passes over the given trees, and the tree of the last look that found a rollout. */
  function BindRun(trees: seq<Tree>, dirs: seq<string>, ownId: Option<string>): (CodexState, Option<Tree>) {
    if trees == [] then (UNBOUND, None) else
    var (s, found) := BindRun(trees[..|trees| - 1], dirs, ownId);
    var t := trees[|trees| - 1];
    var bound := BoundIn(t, dirs, ownId);
    (Rebind(s, RecentFiles(t), bound), if Looks(s, RecentFiles(t)) && bound.Some? then Some(t) else found)
  }

  lemma BindNext(trees: seq<Tree>, t: Tree, dirs: seq<string>, ownId: Option<string>)
    ensures BindRun(trees + [t], dirs, ownId).0 ==
      Rebind(BindRun(trees, dirs, ownId).0, RecentFiles(t), BoundIn(t, dirs, ownId))
  {
    hide RecentFiles, BoundIn, Rebind, Looks;
    assert (trees + [t])[..|trees|] == trees;
  }

  /**
   * After every run of passes a session is bound to what belonged to it when a pass last looked and
   * found something, and to nothing if none did; and the newest name it knows is the last pass's.
   */
  lemma {:induction false} BoundAtLastFind(trees: seq<Tree>, dirs: seq<string>, ownId: Option<string>)
    ensures var (s, found) := BindRun(trees, dirs, ownId);
      && s.file == (if found.Some? then BoundIn(found.value, dirs, ownId) else None)
      && (found.Some? ==> found.value in trees && s.file.Some?)
      && (trees != [] ==> s.newestSeen == NewestName(RecentFiles(trees[|trees| - 1])))
  {
    hide RecentFiles, BoundIn, NewestName;
    if trees != [] {
      BoundAtLastFind(trees[..|trees| - 1], dirs, ownId);
    }
  }

  /**
   * After one more pass a session is bound to what belongs to it now exactly when the pass looked and
   * found something, or had nothing to hold on to; or did not look, and nothing else belongs to it.
   */
  lemma BindingIsCurrentIff(trees: seq<Tree>, t: Tree, dirs: seq<string>, ownId: Option<string>)
    ensures var (s, now) := (BindRun(trees, dirs, ownId).0, BoundIn(t, dirs, ownId));
      BindRun(trees + [t], dirs, ownId).0.file == now <==>
        if Looks(s, RecentFiles(t)) then now.Some? || s.file.None? else s.file == now
  {
    hide RecentFiles, BoundIn, NewestName, BindRun;
    BindNext(trees, t, dirs, ownId);
  }

  /** What belongs to a session depends on the listing and the heads alone. */
  lemma SameHeadsBindAlike(t: Tree, u: Tree, dirs: seq<string>, ownId: Option<string>)
    requires RecentFiles(t) == RecentFiles(u) && forall p :: p in RecentFiles(t) ==> t.head(p) == u.head(p)
    ensures BoundIn(t, dirs, ownId) == BoundIn(u, dirs, ownId)
  {
    hide RecentFiles, NameContains, NormalizeDir;
    if ownId.Some? {
      FirstAlike(HasId(t, ownId.value), HasId(u, ownId.value), RecentFiles(t));
    }
    FirstAlike(InDirs(t, dirs), InDirs(u, dirs), RecentFiles(t));
  }

  lemma {:induction false} FirstAlike(p: Path -> bool, q: Path -> bool, files: seq<Path>)
    requires forall f :: f in files ==> p(f) == q(f)
    ensures First(p, files) == First(q, files)
  {
    if files != [] {
      FirstAlike(p, q, files[1..]);
    }
  }

  lemma BindFirst(t: Tree, dirs: seq<string>, ownId: Option<string>)
    ensures BindRun([t], dirs, ownId).0 == Rebind(UNBOUND, RecentFiles(t), BoundIn(t, dirs, ownId))
  {
    hide RecentFiles, BoundIn, Rebind;
    var none: seq<Tree> := [];
    assert none + [t] == [t];
    BindNext(none, t, dirs, ownId);
  }

  lemma BindsFirst(t: Tree, dirs: seq<string>, ownId: Option<string>)
    ensures BindRun([t], dirs, ownId).0.file == BoundIn(t, dirs, ownId)
  {
    hide RecentFiles, BoundIn, BindRun, NewestName;
    BindFirst(t, dirs, ownId);
  }

  /** A look that finds nothing leaves the binding as it was. */
  lemma VainLookKeepsBinding(trees: seq<Tree>, t: Tree, dirs: seq<string>, ownId: Option<string>)
    requires BoundIn(t, dirs, ownId).None?
    ensures BindRun(trees + [t], dirs, ownId).0.file == BindRun(trees, dirs, ownId).0.file
  {
    hide RecentFiles, BoundIn, BindRun, NewestName;
    BindNext(trees, t, dirs, ownId);
  }

  lemma BoundStays(trees: seq<Tree>, t: Tree, dirs: seq<string>, ownId: Option<string>)
    requires trees != [] && BindRun(trees, dirs, ownId).0.file.Some?
    requires NewestName(RecentFiles(t)) == NewestName(RecentFiles(trees[|trees| - 1]))
    ensures BindRun(trees + [t], dirs, ownId).0.file == BindRun(trees, dirs, ownId).0.file
  {
    hide RecentFiles, BoundIn, NewestName, BindRun;
    BoundAtLastFind(trees, dirs, ownId);
    BindNext(trees, t, dirs, ownId);
  }

  predicate NewestStays(early: Tree, later: seq<Tree>) {
    forall i :: 0 <= i < |later| ==> NewestName(RecentFiles(later[i])) == NewestName(RecentFiles(early))
  }

  /** A session that is bound stays with its rollout for as long as the newest name is the same. */
  lemma {:induction false} LateHeadIsMissed(early: Tree, later: seq<Tree>, dirs: seq<string>, ownId: Option<string>)
    requires BoundIn(early, dirs, ownId).Some? && NewestStays(early, later)
    ensures BindRun([early] + later, dirs, ownId).0.file == BoundIn(early, dirs, ownId)
  {
    hide RecentFiles, BoundIn, NewestName, BindRun;
    if later == [] {
      assert [early] + later == [early];
      BindsFirst(early, dirs, ownId);
    } else {
      var init, last := later[..|later| - 1], later[|later| - 1];
      LateHeadIsMissed(early, init, dirs, ownId);
      assert [early] + later == ([early] + init) + [last];
      assert ([early] + init)[|init|] == if init == [] then early else init[|init| - 1];
      BoundStays([early] + init, last, dirs, ownId);
    }
  }

  // ---- Two inputs on which a binding is not current ----------------------------------------

  const DAY: Path := ["2026", "01", "01"]

  const OLDER := RolloutAt('1')

  const NEWER := RolloutAt('2')

  function RolloutAt(time: char): string { "rollout-" + [time] + ".jsonl" }

  /** A tree of one day shard. */
  function OneDay(rollouts: seq<string>, head: Path -> Option<Meta>): Tree {
    Tree(p => if p < DAY then [Entry(DAY[|p|], true)]
              else if p == DAY then seq(|rollouts|, i requires 0 <= i < |rollouts| => Entry(rollouts[i], false))
              else [],
         head)
  }

  function InDay(rollouts: seq<string>): seq<Path> {
    seq(|rollouts|, i requires 0 <= i < |rollouts| => DAY + [rollouts[i]])
  }

  /** Rollout names in the order a walk lists them. */
  predicate AreRollouts(rollouts: seq<string>) {
    SortedBy(NewestFirst(), rollouts) && forall i :: 0 <= i < |rollouts| ==> IsRollout(Entry(rollouts[i], false))
  }

  lemma {:induction false} SortedStays(s: seq<string>)
    requires SortedBy(NewestFirst(), s)
    ensures SortBy(NewestFirst(), s) == s
  {
    hide NameLe;
    if s != [] {
      SortedStays(s[..|s| - 1]);
    }
  }

  lemma {:induction false} AllNames(keep: Entry -> bool, entries: seq<Entry>, names: seq<string>)
    requires |names| == |entries|
    requires forall i :: 0 <= i < |entries| ==> keep(entries[i]) && entries[i].name == names[i]
    ensures NamesOf(keep, entries) == names
  {
    if entries != [] {
      AllNames(keep, entries[..|entries| - 1], names[..|names| - 1]);
    }
  }

  lemma OneBelow(rollouts: seq<string>, head: Path -> Option<Meta>, k: nat)
    requires k < 3
    ensures var dirs := Dirs(OneDay(rollouts, head)); Below(dirs, [DAY[..k]]) == [DAY[..k + 1]]
  {
    var t := OneDay(rollouts, head);
    assert DAY[..k] < DAY && |DAY[..k]| == k;
    assert t.list(DAY[..k]) == [Entry(DAY[k], true)];
    AllNames(IsVisibleDir, t.list(DAY[..k]), [DAY[k]]);
    SortedStays([DAY[k]]);
    BelowOne(Dirs(t), DAY[..k]);
    assert DAY[..k] + [DAY[k]] == DAY[..k + 1];
  }

  lemma OneDayShards(rollouts: seq<string>, head: Path -> Option<Meta>)
    ensures RecentShards(OneDay(rollouts, head)) == [DAY]
  {
    hide Below, OneDay;
    var dirs := Dirs(OneDay(rollouts, head));
    OneBelow(rollouts, head, 0);
    OneBelow(rollouts, head, 1);
    OneBelow(rollouts, head, 2);
    BelowOne(dirs, []);
    assert DAY[..0] == [] && DAY[..3] == DAY;
  }

  lemma OneDayFiles(rollouts: seq<string>, head: Path -> Option<Meta>)
    requires AreRollouts(rollouts)
    ensures RecentFiles(OneDay(rollouts, head)) == InDay(rollouts)
  {
    hide SortedBy, IsRollout, Below, RecentShards;
    var t := OneDay(rollouts, head);
    OneDayShards(rollouts, head);
    AllNames(IsRollout, t.list(DAY), rollouts);
    SortedStays(rollouts);
    BelowOne(Rollouts(t), DAY);
  }

  lemma {:induction false} CommonFrontCompares(front: string, a: string, b: string)
    ensures NameLe(front + a, front + b) == NameLe(a, b)
  {
    if front == "" {
      assert front + a == a && front + b == b;
    } else {
      CommonFrontCompares(front[1..], a, b);
      assert (front + a)[1..] == front[1..] + a && (front + b)[1..] == front[1..] + b;
    }
  }

  lemma RolloutNames(time: char)
    ensures IsRollout(Entry(RolloutAt(time), false))
  {
    var name := RolloutAt(time);
    assert name[..8] == "rollout-" && name[|name| - 6..] == ".jsonl";
  }

  lemma OlderComesLater()
    ensures NewestFirst()(NEWER, OLDER)
  {
    var a, b := ['1'] + ".jsonl", ['2'] + ".jsonl";
    assert a[0] == '1' && b[0] == '2' && NameLe(a, b);
    CommonFrontCompares("rollout-", a, b);
    assert OLDER == "rollout-" + a && NEWER == "rollout-" + b;
  }

  lemma BothAreRollouts()
    ensures AreRollouts([NEWER, OLDER]) && AreRollouts([NEWER]) && AreRollouts([OLDER])
  {
    OlderComesLater();
    RolloutNames('1');
    RolloutNames('2');
    hide NameLe, IsRollout, RolloutAt, NewestFirst;
  }

  /** Heads of threads of their own in the given directories; a head without one is not written yet. */
  function Heads(newer: Option<string>, older: Option<string>): Path -> Option<Meta> {
    p => if p == DAY + [NEWER] && newer.Some? then Some(Meta(newer, None))
         else if p == DAY + [OLDER] && older.Some? then Some(Meta(older, None))
         else None
  }

  lemma BoundInDay(rollouts: seq<string>, head: Path -> Option<Meta>, dirs: seq<string>)
    requires AreRollouts(rollouts)
    ensures BoundIn(OneDay(rollouts, head), dirs, None) == First(InDirs(OneDay(rollouts, head), dirs), InDay(rollouts))
  {
    hide AreRollouts, OneDay, RecentFiles, InDirs, First;
    OneDayFiles(rollouts, head);
  }

  lemma NewestInDay(rollouts: seq<string>, head: Path -> Option<Meta>)
    requires AreRollouts(rollouts) && rollouts != []
    ensures NewestName(RecentFiles(OneDay(rollouts, head))) == Some(rollouts[0])
  {
    hide AreRollouts, OneDay, RecentFiles;
    OneDayFiles(rollouts, head);
  }

  lemma FirstOfTwo(qualifies: Path -> bool, a: Path, b: Path)
    ensures First(qualifies, [a, b]) == if qualifies(a) then Some(a) else if qualifies(b) then Some(b) else None
  {
    assert [a, b][1..] == [b];
  }

  lemma InDirHere(t: Tree, p: Path, cwd: Option<string>)
    requires t.head(p) == if cwd.Some? then Some(Meta(cwd, None)) else None
    requires cwd.Some? ==> cwd.value == "/a" || cwd.value == "/b"
    ensures InDirs(t, ["/a"])(p) <==> cwd == Some("/a")
  {}

  lemma HeadsInDay(rollouts: seq<string>, newer: Option<string>, older: Option<string>)
    ensures var t := OneDay(rollouts, Heads(newer, older));
      && t.head(DAY + [NEWER]) == (if newer.Some? then Some(Meta(newer, None)) else None)
      && t.head(DAY + [OLDER]) == (if older.Some? then Some(Meta(older, None)) else None)
  {
    assert NEWER[8] != OLDER[8];
    assert (DAY + [NEWER])[3] != (DAY + [OLDER])[3];
  }

  lemma InDayAre(a: string, b: string)
    ensures InDay([a, b]) == [DAY + [a], DAY + [b]] && InDay([a]) == [DAY + [a]]
  {}

  /** The newest name never changes, its head is written late, and no later pass binds it. */
  lemma LateHead(passes: nat)
    ensures var here := Some("/a");
      var early, late := OneDay([NEWER, OLDER], Heads(None, here)), OneDay([NEWER, OLDER], Heads(here, here));
      && BoundIn(early, ["/a"], None) == Some(DAY + [OLDER]) && BoundIn(late, ["/a"], None) == Some(DAY + [NEWER])
      && BindRun([early] + seq(passes, i => late), ["/a"], None).0.file == Some(DAY + [OLDER])
  {
    hide *;
    var here := Some("/a");
    var early, late := OneDay([NEWER, OLDER], Heads(None, here)), OneDay([NEWER, OLDER], Heads(here, here));
    TwoInDay(None, here);
    TwoInDay(here, here);
    SameNewest(early, late, passes);
    LateHeadIsMissed(early, seq(passes, i => late), ["/a"], None);
  }

  lemma SameNewest(early: Tree, late: Tree, passes: nat)
    requires NewestName(RecentFiles(early)) == NewestName(RecentFiles(late))
    ensures NewestStays(early, seq(passes, i => late))
  {
    hide RecentFiles, NewestName;
  }

  lemma TwoInDay(newer: Option<string>, older: Option<string>)
    requires newer in {None, Some("/a")} && older in {None, Some("/a")}
    ensures var t := OneDay([NEWER, OLDER], Heads(newer, older));
      && NewestName(RecentFiles(t)) == Some(NEWER)
      && BoundIn(t, ["/a"], None) ==
        if newer.Some? then Some(DAY + [NEWER]) else if older.Some? then Some(DAY + [OLDER]) else None
  {
    hide *;
    var t := OneDay([NEWER, OLDER], Heads(newer, older));
    BothAreRollouts();
    BoundInDay([NEWER, OLDER], Heads(newer, older), ["/a"]);
    NewestInDay([NEWER, OLDER], Heads(newer, older));
    InDayAre(NEWER, OLDER);
    HeadsInDay([NEWER, OLDER], newer, older);
    InDirHere(t, DAY + [NEWER], newer);
    InDirHere(t, DAY + [OLDER], older);
    FirstOfTwo(InDirs(t, ["/a"]), DAY + [NEWER], DAY + [OLDER]);
  }

  lemma OlderInDay()
    ensures BoundIn(OneDay([OLDER], Heads(None, Some("/a"))), ["/a"], None) == Some(DAY + [OLDER])
  {
    hide *;
    var head := Heads(None, Some("/a"));
    BothAreRollouts();
    BoundInDay([OLDER], head, ["/a"]);
    InDayAre(OLDER, OLDER);
    HeadsInDay([OLDER], None, Some("/a"));
    InDirHere(OneDay([OLDER], head), DAY + [OLDER], Some("/a"));
    FirstOfOne(InDirs(OneDay([OLDER], head), ["/a"]), DAY + [OLDER]);
  }

  lemma NewerInDay()
    ensures var after := OneDay([NEWER], Heads(Some("/b"), None));
      BoundIn(after, ["/a"], None) == None && RecentFiles(after) == [DAY + [NEWER]]
  {
    hide *;
    var head := Heads(Some("/b"), None);
    BothAreRollouts();
    OneDayFiles([NEWER], head);
    BoundInDay([NEWER], head, ["/a"]);
    InDayAre(NEWER, NEWER);
    HeadsInDay([NEWER], Some("/b"), None);
    InDirHere(OneDay([NEWER], head), DAY + [NEWER], Some("/b"));
    FirstOfOne(InDirs(OneDay([NEWER], head), ["/a"]), DAY + [NEWER]);
  }

  lemma FirstOfOne(qualifies: Path -> bool, a: Path)
    ensures First(qualifies, [a]) == if qualifies(a) then Some(a) else None
  {}

  /** A rollout goes, the newer one belongs elsewhere, and the session stays bound to the one that is gone. */
  lemma GoneRolloutStaysBound()
    ensures var before := OneDay([OLDER], Heads(None, Some("/a")));
      var after := OneDay([NEWER], Heads(Some("/b"), None));
      && BoundIn(before, ["/a"], None) == Some(DAY + [OLDER])
      && BoundIn(after, ["/a"], None) == None && RecentFiles(after) == [DAY + [NEWER]]
      && BindRun([before] + [after], ["/a"], None).0.file == Some(DAY + [OLDER])
  {
    hide *;
    var before := OneDay([OLDER], Heads(None, Some("/a")));
    var after := OneDay([NEWER], Heads(Some("/b"), None));
    OlderInDay();
    NewerInDay();
    BindsFirst(before, ["/a"], None);
    VainLookKeepsBinding([before], after, ["/a"], None);
  }
}

/** Finding a Codex session's rollout among date shards, and what scanning it reports. */
module CodexDiscovery {
  import opened Common
  import opened Sorting

  /** Date shards a walk visits at most. */
  const MAX_DAY_DIRS: nat := 45

  /** A path below the sessions directory, one name per component. */
  type Path = seq<string>

  datatype Entry = Entry(name: string, isDir: bool)

  /** What a rollout's first line says about its thread. */
  datatype Meta = Meta(cwd: Option<string>, parent: Option<string>)

  /** The sessions tree: what listing a directory returns, and what reading a rollout's head does. */
  datatype Tree = Tree(list: Path -> seq<Entry>, head: Path -> Option<Meta>)

  // ---- Directories in order ----------------------------------------------------------------

  /** Some of the names in each directory. */
  type Listing = Path -> seq<string>

  predicate IsVisibleDir(e: Entry) { e.isDir && (e.name == "" || e.name[0] != '.') }

  predicate IsRollout(e: Entry) {
    |e.name| >= 8 && e.name[..8] == "rollout-" && |e.name| >= 6 && e.name[|e.name| - 6..] == ".jsonl"
  }

  function NamesOf(keep: Entry -> bool, entries: seq<Entry>): seq<string> {
    if entries == [] then []
    else NamesOf(keep, entries[..|entries| - 1])
         + (if keep(entries[|entries| - 1]) then [entries[|entries| - 1].name] else [])
  }

  function Dirs(t: Tree): Listing { p => NamesOf(IsVisibleDir, t.list(p)) }

  function Rollouts(t: Tree): Listing { p => NamesOf(IsRollout, t.list(p)) }

  /** Exactly the names of the entries that are kept, in order. */
  lemma {:induction false} NamesAre(keep: Entry -> bool, entries: seq<Entry>)
    ensures var names, kept := NamesOf(keep, entries), Filter(keep, entries);
      |names| == |kept| && forall i :: 0 <= i < |kept| ==> names[i] == kept[i].name
  {
    if entries != [] {
      NamesAre(keep, entries[..|entries| - 1]);
    }
  }

  lemma {:induction false} NameIn(keep: Entry -> bool, entries: seq<Entry>, name: string)
    ensures name in NamesOf(keep, entries) <==> exists e :: e in entries && keep(e) && e.name == name
  {
    if entries != [] {
      NameIn(keep, entries[..|entries| - 1], name);
      assert entries == entries[..|entries| - 1] + [entries[|entries| - 1]];
    }
  }

  /** One directory's names as paths, newest first. */
  function Children(names: Listing, dir: Path): seq<Path> {
    var sorted := SortBy(NewestFirst(), names(dir));
    seq(|sorted|, i requires 0 <= i < |sorted| => dir + [sorted[i]])
  }

  /** The children of every directory, in the directories' order. */
  function Below(names: Listing, dirs: seq<Path>): seq<Path> {
    if dirs == [] then [] else Below(names, dirs[..|dirs| - 1]) + Children(names, dirs[|dirs| - 1])
  }

  /** Every day shard of every month of every year. */
  function Shards(t: Tree): seq<Path> { Below(Dirs(t), Below(Dirs(t), Children(Dirs(t), []))) }

  function RecentShards(t: Tree): seq<Path> { Shards(t)[..Min(MAX_DAY_DIRS, |Shards(t)|)] }

  function RecentFiles(t: Tree): seq<Path> { Below(Rollouts(t), RecentShards(t)) }

  /** `a` comes before `b` when paths are sorted descending, component by component. */
  predicate Newer(a: Path, b: Path) {
    exists k :: 0 <= k < |a| && k < |b| && a[..k] == b[..k] && a[k] != b[k] && NameLe(b[k], a[k])
  }

  predicate Descending(paths: seq<Path>) { forall i, j :: 0 <= i < j < |paths| ==> Newer(paths[i], paths[j]) }

  lemma {:induction false} BelowAppend(names: Listing, a: seq<Path>, b: seq<Path>)
    ensures Below(names, a + b) == Below(names, a) + Below(names, b)
  {
    hide Children;
    if b == [] {
      assert a + b == a;
    } else {
      var init, last := b[..|b| - 1], b[|b| - 1];
      BelowAppend(names, a, init);
      assert (a + b)[..|a + b| - 1] == a + init && (a + b)[|a + b| - 1] == last;
    }
  }

  lemma BelowOne(names: Listing, dir: Path)
    ensures Below(names, [dir]) == Children(names, dir)
  {
    assert [dir][..0] == [];
  }

  lemma NewerExtends(a: Path, b: Path, n: nat)
    requires n <= |a| && n <= |b| && Newer(a[..n], b[..n])
    ensures Newer(a, b)
  {
    var k :| 0 <= k < n && a[..n][..k] == b[..n][..k] && a[..n][k] != b[..n][k] && NameLe(b[..n][k], a[..n][k]);
    assert a[..k] == a[..n][..k] && b[..k] == b[..n][..k];
    assert a[k] != b[k];
  }

  lemma ChildrenDescend(names: Listing, dir: Path)
    requires Distinct(names(dir))
    ensures Descending(Children(names, dir))
  {
    var sorted, paths := SortBy(NewestFirst(), names(dir)), Children(names, dir);
    NamesAreOrdered();
    SortByIsSort(NewestFirst(), names(dir));
    PartOfDistinct(sorted, names(dir));
    hide SortBy, IsTotalOrder, NameLe;
    forall i, j | 0 <= i < j < |paths| ensures Newer(paths[i], paths[j]) {
      assert NewestFirst()(sorted[i], sorted[j]);
      assert paths[i][..|dir|] == dir == paths[j][..|dir|];
      assert paths[i][|dir|] == sorted[i] && paths[j][|dir|] == sorted[j];
    }
  }

  lemma SortedNamesAre(names: seq<string>, x: string)
    ensures x in SortBy(NewestFirst(), names) <==> x in names
  {
    NamesAreOrdered();
    SortByIsSort(NewestFirst(), names);
    hide SortBy, IsTotalOrder, IsTotalPreorder, SortedBy;
    assert x in multiset(SortBy(NewestFirst(), names)) <==> x in multiset(names);
  }

  lemma ChildrenAre(names: Listing, dir: Path, q: Path)
    ensures q in Children(names, dir) <==> |q| == |dir| + 1 && q[..|dir|] == dir && q[|dir|] in names(dir)
  {
    hide SortBy;
    var sorted, paths := SortBy(NewestFirst(), names(dir)), Children(names, dir);
    if q in paths {
      var i :| 0 <= i < |paths| && paths[i] == q;
      assert q == dir + [sorted[i]];
      SortedNamesAre(names(dir), sorted[i]);
    }
    if |q| == |dir| + 1 && q[..|dir|] == dir && q[|dir|] in names(dir) {
      SortedNamesAre(names(dir), q[|dir|]);
      var i :| 0 <= i < |sorted| && sorted[i] == q[|dir|];
      assert q == q[..|dir|] + [q[|dir|]];
      assert paths[i] == q;
    }
  }

  lemma DescendingAppend(a: seq<Path>, b: seq<Path>)
    requires Descending(a) && Descending(b) && forall p, q :: p in a && q in b ==> Newer(p, q)
    ensures Descending(a + b)
  {
    hide Newer;
  }

  /** Listing directories in turn lists everything below them and nothing else. */
  lemma {:induction false} BelowLists(names: Listing, dirs: seq<Path>, n: nat, q: Path)
    requires forall d :: d in dirs ==> |d| == n
    ensures q in Below(names, dirs) <==> |q| == n + 1 && q[..n] in dirs && q[n] in names(q[..n])
  {
    hide Children;
    if dirs != [] {
      var init, last := dirs[..|dirs| - 1], dirs[|dirs| - 1];
      assert dirs == init + [last];
      BelowLists(names, init, n, q);
      ChildrenAre(names, last, q);
    }
  }

  lemma LastIsOldest(dirs: seq<Path>, d: Path)
    requires Descending(dirs) && dirs != [] && d in dirs[..|dirs| - 1]
    ensures Newer(d, dirs[|dirs| - 1])
  {
    hide Newer;
    var i :| 0 <= i < |dirs| - 1 && dirs[i] == d;
  }

  /** Listing descending directories in turn gives one descending list. */
  lemma {:induction false} BelowDescends(names: Listing, dirs: seq<Path>, n: nat)
    requires Descending(dirs) && (forall d :: d in dirs ==> |d| == n) && forall d :: Distinct(names(d))
    ensures Descending(Below(names, dirs))
  {
    hide Children, Distinct, Newer;
    if dirs != [] {
      var init, last := dirs[..|dirs| - 1], dirs[|dirs| - 1];
      assert forall d :: d in init ==> d in dirs;
      BelowDescends(names, init, n);
      ChildrenDescend(names, last);
      forall p, q | p in Below(names, init) && q in Children(names, last) ensures Newer(p, q) {
        BelowLists(names, init, n, p);
        ChildrenAre(names, last, q);
        LastIsOldest(dirs, p[..n]);
        NewerExtends(p, q, n);
      }
      hide Descending;
      DescendingAppend(Below(names, init), Children(names, last));
    }
  }

  /** A directory never lists a name twice. */
  ghost predicate ListsOnce(t: Tree) {
    (forall p :: Distinct(Dirs(t)(p))) && forall p :: Distinct(Rollouts(t)(p))
  }

  predicate IsShard(t: Tree, p: Path) {
    |p| == 3 && p[0] in Dirs(t)([]) && p[1] in Dirs(t)(p[..1]) && p[2] in Dirs(t)(p[..2])
  }

  /** The nested listings are all the day shards there are, sorted descending. */
  lemma ShardsDescend(t: Tree)
    requires ListsOnce(t)
    ensures Descending(Shards(t)) && forall p :: p in Shards(t) <==> IsShard(t, p)
  {
    hide Children, Descending, Distinct, NamesOf, Below, Dirs;
    forall p ensures p in Shards(t) <==> IsShard(t, p) {
      ShardsAre(t, p);
    }
    var years := Children(Dirs(t), []);
    ChildrenDescend(Dirs(t), []);
    forall y | y in years ensures |y| == 1 {
      ChildrenAre(Dirs(t), [], y);
    }
    BelowDescends(Dirs(t), years, 1);
    forall m | m in Below(Dirs(t), years) ensures |m| == 2 {
      BelowLists(Dirs(t), years, 1, m);
    }
    BelowDescends(Dirs(t), Below(Dirs(t), years), 2);
  }

  lemma ShardsAre(t: Tree, p: Path)
    ensures p in Shards(t) <==> IsShard(t, p)
  {
    hide Children, Below, Dirs;
    var years := Children(Dirs(t), []);
    forall y ensures y in years <==> |y| == 1 && y[0] in Dirs(t)([]) {
      ChildrenAre(Dirs(t), [], y);
    }
    var months := Below(Dirs(t), years);
    forall m ensures m in months <==> |m| == 2 && m[..1] in years && m[1] in Dirs(t)(m[..1]) {
      BelowLists(Dirs(t), years, 1, m);
    }
    BelowLists(Dirs(t), months, 2, p);
    if |p| == 3 {
      assert p[..2][..1] == p[..1];
    }
  }

  /** The rollouts a walk returns are those of the newest shards, newest first. */
  lemma RecentFilesDescend(t: Tree)
    requires ListsOnce(t)
    ensures Descending(RecentFiles(t))
    ensures forall q :: q in RecentFiles(t) <==> |q| == 4 && q[..3] in RecentShards(t) && q[3] in Rollouts(t)(q[..3])
  {
    ShardsDescend(t);
    var recent := RecentShards(t);
    assert Descending(recent);
    forall p | p in recent ensures |p| == 3 {
      assert p in Shards(t);
    }
    hide Children, Distinct, NamesOf, Shards, Descending, Below, RecentShards;
    BelowDescends(Rollouts(t), recent, 3);
    forall q ensures q in RecentFiles(t) <==> |q| == 4 && q[..3] in recent && q[3] in Rollouts(t)(q[..3]) {
      BelowLists(Rollouts(t), recent, 3, q);
    }
  }

  /** A subdirectory that is not hidden. */
  ghost predicate HasSubdirectory(t: Tree, dir: Path, name: string) {
    (exists e :: e in t.list(dir) && e.isDir && e.name == name) && (name == "" || name[0] != '.')
  }

  /** The rollouts a walk returns: any entry so named in one of the recent shards. */
  lemma RecentFilesAre(t: Tree, q: Path)
    requires ListsOnce(t)
    ensures q in RecentFiles(t) <==>
      && |q| == 4 && q[..3] in RecentShards(t) && (exists e :: e in t.list(q[..3]) && e.name == q[3])
      && |q[3]| >= 8 && q[3][..8] == "rollout-" && q[3][|q[3]| - 6..] == ".jsonl"
  {
    hide *;
    RecentFilesDescend(t);
    if |q| == 4 {
      RolloutIn(t, q[..3], q[3]);
    }
  }

  lemma RolloutIn(t: Tree, dir: Path, name: string)
    ensures name in Rollouts(t)(dir) <==>
      && (exists e :: e in t.list(dir) && e.name == name)
      && |name| >= 8 && name[..8] == "rollout-" && name[|name| - 6..] == ".jsonl"
  {
    NameIn(IsRollout, t.list(dir), name);
    hide NamesOf;
  }

  lemma BehindPrefix<T>(s: seq<T>, n: nat, j: nat)
    requires n <= |s| && j < |s| && s[j] !in s[..n]
    ensures j >= n
  {
    if j < n {
      PrefixHas(s, n, j);
    }
  }

  lemma PrefixHas<T>(s: seq<T>, n: nat, j: nat)
    requires j < n <= |s|
    ensures s[j] in s[..n]
  {
    assert s[..n][j] == s[j];
  }

  /** The shards are the nested subdirectories, three deep. */
  lemma ShardsAreSubdirectories(t: Tree, p: Path)
    ensures p in Shards(t) <==>
      && |p| == 3 && HasSubdirectory(t, [], p[0])
      && HasSubdirectory(t, p[..1], p[1]) && HasSubdirectory(t, p[..2], p[2])
  {
    ShardsAre(t, p);
    hide Shards;
    if |p| == 3 {
      NameIn(IsVisibleDir, t.list([]), p[0]);
      NameIn(IsVisibleDir, t.list(p[..1]), p[1]);
      NameIn(IsVisibleDir, t.list(p[..2]), p[2]);
    }
  }

  /** The recent shards are all of them or 45, and newer than every shard left out. */
  lemma RecentShardsAreNewest(t: Tree)
    requires ListsOnce(t)
    ensures var recent := RecentShards(t);
      && |recent| == Min(45, |Shards(t)|) && (forall p :: p in recent ==> p in Shards(t))
      && forall p, q :: p in recent && q in Shards(t) && q !in recent ==> Newer(p, q)
  {
    ShardsDescend(t);
    hide Newer, Shards, ListsOnce;
    var all, recent := Shards(t), RecentShards(t);
    forall p, q | p in recent && q in all && q !in recent ensures Newer(p, q) {
      var i :| 0 <= i < |recent| && recent[i] == p;
      var j :| 0 <= j < |all| && all[j] == q;
      BehindPrefix(all, |recent|, j);
      assert all[i] == p;
    }
  }

  /** The day shards of some years. */
  function DaysOf(t: Tree, years: seq<Path>): seq<Path> { Below(Dirs(t), Below(Dirs(t), years)) }

  lemma DaysOfNext(t: Tree, years: seq<Path>, y: nat)
    requires y < |years|
    ensures DaysOf(t, years[..y + 1]) == DaysOf(t, years[..y]) + Below(Dirs(t), Children(Dirs(t), years[y]))
  {
    hide Children;
    assert years[..y + 1] == years[..y] + [years[y]];
    BelowAppend(Dirs(t), years[..y], [years[y]]);
    BelowOne(Dirs(t), years[y]);
    BelowAppend(Dirs(t), Below(Dirs(t), years[..y]), Children(Dirs(t), years[y]));
  }

  lemma BelowNext(names: Listing, dirs: seq<Path>, m: nat)
    requires m < |dirs|
    ensures Below(names, dirs[..m + 1]) == Below(names, dirs[..m]) + Children(names, dirs[m])
  {
    assert dirs[..m + 1][..m] == dirs[..m];
  }

  lemma BelowPrefix(names: Listing, dirs: seq<Path>, m: nat)
    requires m <= |dirs|
    ensures Below(names, dirs[..m]) <= Below(names, dirs)
  {
    assert dirs == dirs[..m] + dirs[m..];
    BelowAppend(names, dirs[..m], dirs[m..]);
  }

  /** What the walk has collected part-way through a month is how all shards begin. */
  lemma WalkIsPrefix(t: Tree, years: seq<Path>, y: nat, months: seq<Path>, m: nat, days: seq<Path>, d: nat)
    requires years == Children(Dirs(t), []) && y < |years|
    requires months == Children(Dirs(t), years[y]) && m < |months|
    requires days == Children(Dirs(t), months[m]) && d <= |days|
    ensures DaysOf(t, years[..y]) + Below(Dirs(t), months[..m]) + days[..d] <= Shards(t)
  {
    hide Children;
    BelowNext(Dirs(t), months, m);
    BelowPrefix(Dirs(t), months, m + 1);
    DaysOfNext(t, years, y);
    assert years == years[..y + 1] + years[y + 1..];
    BelowAppend(Dirs(t), years[..y + 1], years[y + 1..]);
    BelowAppend(Dirs(t), Below(Dirs(t), years[..y + 1]), Below(Dirs(t), years[y + 1..]));
  }

  /** Walk years, months and days newest first, and stop at enough day shards. */
  method RecentDayDirs(t: Tree) returns (dayDirs: seq<Path>)
    ensures dayDirs == RecentShards(t)
  {
    hide Below, Children;
    dayDirs := [];
    var years := Children(Dirs(t), []);
    assert DaysOf(t, years) == Shards(t);
    assert years[..0] == [];
    EmptyBelow(Dirs(t));
    for y := 0 to |years|
      invariant dayDirs == DaysOf(t, years[..y]) && |dayDirs| < MAX_DAY_DIRS
    {
      var months := Children(Dirs(t), years[y]);
      DaysOfNext(t, years, y);
      assert months[..0] == [];
      for m := 0 to |months|
        invariant dayDirs == DaysOf(t, years[..y]) + Below(Dirs(t), months[..m]) && |dayDirs| < MAX_DAY_DIRS
      {
        var days := Children(Dirs(t), months[m]);
        BelowNext(Dirs(t), months, m);
        for d := 0 to |days|
          invariant dayDirs == DaysOf(t, years[..y]) + Below(Dirs(t), months[..m]) + days[..d]
          invariant |dayDirs| < MAX_DAY_DIRS
        {
          dayDirs := dayDirs + [days[d]];
          assert days[..d + 1] == days[..d] + [days[d]];
          if |dayDirs| >= MAX_DAY_DIRS {
            WalkIsPrefix(t, years, y, months, m, days, d + 1);
            return dayDirs;
          }
        }
        assert days[..|days|] == days;
      }
      assert months[..|months|] == months;
    }
    assert years[..|years|] == years;
  }

  lemma EmptyBelow(names: Listing)
    ensures Below(names, []) == []
  {}

  /** The rollouts of the newest day shards, newest first. */
  method RecentRolloutFiles(t: Tree) returns (files: seq<Path>)
    ensures files == RecentFiles(t)
  {
    var dayDirs := RecentDayDirs(t);
    files := [];
    hide Children, RecentShards;
    for k := 0 to |dayDirs|
      invariant files == Below(Rollouts(t), dayDirs[..k])
    {
      BelowNext(Rollouts(t), dayDirs, k);
      files := files + Children(Rollouts(t), dayDirs[k]);
    }
    assert dayDirs[..|dayDirs|] == dayDirs;
  }
}

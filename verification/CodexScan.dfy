/** Binding a session to its Codex rollout, the memo one scan pass shares, and scanning. */
module CodexScan {
  import opened Common
  import opened Sorting
  import opened Tail
  import opened TailProofs
  import opened CodexDiscovery

  // ---- The memo ----------------------------------------------------------------------------

  /** What every session in one pass asks of the same tree, answered once. */
  class Discovery {
    var files: Option<seq<Path>>
    var heads: map<Path, Option<Meta>>
    ghost var walks: nat
    ghost var parsed: seq<Path>

    /** The memo answers as `t` does; the tree was walked at most once, each head parsed at most once. */
    ghost predicate Valid(t: Tree)
      reads this
    {
      && (files.Some? ==> files.value == RecentFiles(t))
      && (forall p :: p in heads ==> heads[p] == t.head(p))
      && walks == (if files.Some? then 1 else 0)
      && Distinct(parsed) && forall p :: p in heads <==> p in parsed
    }

    constructor ()
      ensures forall t :: Valid(t)
      ensures parsed == []
    {
      files, heads, walks, parsed := None, map[], 0, [];
    }

    /** One walk of the tree. */
    method Walk(t: Tree) returns (found: seq<Path>)
      modifies this`walks
      ensures found == RecentFiles(t) && walks == old(walks) + 1
    {
      found := RecentRolloutFiles(t);
      walks := walks + 1;
    }

    /** One parse of a rollout's head. */
    method ParseHead(t: Tree, path: Path) returns (m: Option<Meta>)
      modifies this`parsed
      ensures m == t.head(path) && parsed == old(parsed) + [path]
    {
      m := t.head(path);
      parsed := parsed + [path];
    }

    method Files(t: Tree) returns (r: seq<Path>)
      requires Valid(t)
      modifies this
      ensures Valid(t) && r == RecentFiles(t) && heads == old(heads)
    {
      if files.None? {
        var found := Walk(t);
        files := Some(found);
      }
      return files.value;
    }

    method Head(t: Tree, path: Path) returns (m: Option<Meta>)
      requires Valid(t)
      modifies this
      ensures Valid(t) && m == t.head(path) && heads.Keys == old(heads.Keys) + {path}
    {
      if path !in heads {
        m := ParseHead(t, path);
        heads := heads[path := m];
      }
      return heads[path];
    }
  }

  // ---- Which rollout belongs to a session --------------------------------------------------

  function TrimSlashes(s: string): (r: string)
    ensures |r| <= |s| && r == s[..|r|]
    ensures r == "" || r[|r| - 1] != '/'
    ensures forall i :: |r| <= i < |s| ==> s[i] == '/'
  {
    if s != "" && s[|s| - 1] == '/' then TrimSlashes(s[..|s| - 1]) else s
  }

  /** A directory without trailing separators; the root stays itself. */
  function NormalizeDir(s: string): string {
    if TrimSlashes(s) == "" then s else TrimSlashes(s)
  }

  predicate OccursAt(s: string, needle: string, i: nat) {
    i + |needle| <= |s| && s[i..i + |needle|] == needle
  }

  predicate Contains(s: string, needle: string) { exists i :: 0 <= i <= |s| && OccursAt(s, needle, i) }

  predicate NameContains(p: Path, needle: string) { p != [] && Contains(p[|p| - 1], needle) }

  /** A thread of its own, not a subagent's. */
  predicate TopLevel(t: Tree, p: Path) { t.head(p).Some? && t.head(p).value.parent.None? }

  function HasId(t: Tree, id: string): Path -> bool { p => NameContains(p, id) && TopLevel(t, p) }

  function InDirs(t: Tree, dirs: seq<string>): Path -> bool {
    p => TopLevel(t, p) && t.head(p).value.cwd.Some? && NormalizeDir(t.head(p).value.cwd.value) in dirs
  }

  /** `files[i]` is the first that qualifies. */
  predicate IsFirst(qualifies: Path -> bool, files: seq<Path>, i: nat) {
    i < |files| && qualifies(files[i]) && forall j :: 0 <= j < i ==> !qualifies(files[j])
  }

  /** The first path that qualifies. */
  function First(qualifies: Path -> bool, files: seq<Path>): (r: Option<Path>)
    ensures r.None? <==> forall i :: 0 <= i < |files| ==> !qualifies(files[i])
    ensures r.Some? ==> exists i :: 0 <= i < |files| && IsFirst(qualifies, files, i) && files[i] == r.value
  {
    if files == [] then None
    else if qualifies(files[0]) then
      assert IsFirst(qualifies, files, 0);
      Some(files[0])
    else
      var r := First(qualifies, files[1..]);
      assert forall i :: 0 < i < |files| ==> files[i] == files[1..][i - 1];
      assert forall i :: 0 <= i < |files[1..]| && IsFirst(qualifies, files[1..], i) ==>
        IsFirst(qualifies, files, i + 1);
      r
  }

  /** The rollout a fresh look at the tree attributes to a session: by its thread id, else by its directory. */
  function Bound(t: Tree, files: seq<Path>, dirs: seq<string>, ownId: Option<string>): Option<Path> {
    if ownId.Some? && ownId.value != "" && First(HasId(t, ownId.value), files).Some?
    then First(HasId(t, ownId.value), files)
    else First(InDirs(t, dirs), files)
  }

  method FindById(disc: Discovery, t: Tree, files: seq<Path>, id: string) returns (r: Option<Path>)
    requires disc.Valid(t)
    modifies disc
    ensures disc.Valid(t) && r == First(HasId(t, id), files)
  {
    for k := 0 to |files|
      invariant disc.Valid(t) && First(HasId(t, id), files) == First(HasId(t, id), files[k..])
    {
      assert files[k..][0] == files[k] && files[k..][1..] == files[k + 1..];
      if NameContains(files[k], id) {
        var head := disc.Head(t, files[k]);
        if head.Some? && head.value.parent.None? {
          return Some(files[k]);
        }
      }
    }
    return None;
  }

  method FindByDir(disc: Discovery, t: Tree, files: seq<Path>, dirs: seq<string>) returns (r: Option<Path>)
    requires disc.Valid(t)
    modifies disc
    ensures disc.Valid(t) && r == First(InDirs(t, dirs), files)
  {
    for k := 0 to |files|
      invariant disc.Valid(t) && First(InDirs(t, dirs), files) == First(InDirs(t, dirs), files[k..])
    {
      assert files[k..][0] == files[k] && files[k..][1..] == files[k + 1..];
      var head := disc.Head(t, files[k]);
      if head.Some? && head.value.parent.None? && head.value.cwd.Some? {
        if NormalizeDir(head.value.cwd.value) in dirs {
          return Some(files[k]);
        }
      }
    }
    return None;
  }

  /** Whatever the memo already holds, a session is bound as a fresh look would bind it. */
  method DiscoverCodexFile(disc: Discovery, t: Tree, files: seq<Path>, dirs: seq<string>, ownId: Option<string>)
    returns (r: Option<Path>)
    requires disc.Valid(t)
    modifies disc
    ensures disc.Valid(t) && r == Bound(t, files, dirs, ownId)
  {
    if ownId.Some? && ownId.value != "" {
      r := FindById(disc, t, files, ownId.value);
      if r.Some? {
        return r;
      }
    }
    r := FindByDir(disc, t, files, dirs);
  }

  /** What a session's rollout must satisfy: bear its id if any file does, else its directory. */
  function Belongs(t: Tree, files: seq<Path>, dirs: seq<string>, ownId: Option<string>): Path -> bool {
    if ownId.Some? && ownId.value != "" && exists i :: 0 <= i < |files| && HasId(t, ownId.value)(files[i])
    then HasId(t, ownId.value) else InDirs(t, dirs)
  }

  lemma ContainsIff(s: string, needle: string)
    ensures Contains(s, needle) <==> exists front: string, back: string :: s == front + needle + back
  {
    if Contains(s, needle) {
      var i :| 0 <= i <= |s| && OccursAt(s, needle, i);
      assert s == s[..i] + needle + s[i + |needle|..];
    }
    if front: string, back: string :| s == front + needle + back {
      assert OccursAt(s, needle, |front|);
    }
  }

  /** The rollout's name contains the id, and it is no subagent's. */
  ghost predicate BearsId(t: Tree, id: string, p: Path) {
    && p != [] && (exists front: string, back: string :: p[|p| - 1] == front + id + back)
    && t.head(p).Some? && t.head(p).value.parent.None?
  }

  /** The rollout is no subagent's and ran in one of the directories. */
  predicate RanIn(t: Tree, dirs: seq<string>, p: Path) {
    && t.head(p).Some? && t.head(p).value.parent.None?
    && t.head(p).value.cwd.Some? && NormalizeDir(t.head(p).value.cwd.value) in dirs
  }

  /** What bears the session's id belongs to it, if anything listed does; else what ran in its directories. */
  lemma BelongsIff(t: Tree, files: seq<Path>, dirs: seq<string>, ownId: Option<string>, p: Path)
    ensures Belongs(t, files, dirs, ownId)(p) <==>
      if ownId.Some? && ownId.value != "" && exists f :: f in files && BearsId(t, ownId.value, f)
      then BearsId(t, ownId.value, p) else RanIn(t, dirs, p)
  {
    hide Contains, NormalizeDir;
    if ownId.Some? {
      forall f ensures HasId(t, ownId.value)(f) <==> BearsId(t, ownId.value, f) {
        if f != [] {
          ContainsIff(f[|f| - 1], ownId.value);
        }
      }
      hide BearsId, HasId;
      assert (exists f :: f in files && BearsId(t, ownId.value, f))
        <==> exists i :: 0 <= i < |files| && HasId(t, ownId.value)(files[i]);
    }
  }

  /** A directory without its trailing slashes; one that is nothing else stays as it is. */
  lemma NormalizedIs(s: string)
    ensures var r := NormalizeDir(s);
      && |r| <= |s| && r == s[..|r|]
      && if forall i :: 0 <= i < |s| ==> s[i] == '/' then r == s
         else r != "" && r[|r| - 1] != '/' && forall i :: |r| <= i < |s| ==> s[i] == '/'
  {
    var r := TrimSlashes(s);
    assert r != "" ==> s[|r| - 1] != '/';
    hide TrimSlashes;
  }

  lemma FirstIsNewest(qualifies: Path -> bool, files: seq<Path>)
    requires Descending(files)
    ensures var r := First(qualifies, files);
      && (r.None? <==> forall p :: p in files ==> !qualifies(p))
      && (r.Some? ==> r.value in files && qualifies(r.value))
      && (r.Some? ==> forall p :: p in files && qualifies(p) ==> p == r.value || Newer(r.value, p))
  {
    hide Newer;
    var r := First(qualifies, files);
    forall p | p in files ensures qualifies(p) ==> r.Some? && (p == r.value || Newer(r.value, p)) {
      var j :| 0 <= j < |files| && files[j] == p;
    }
  }

  /** A session is bound, if anything belongs to it, to the newest thread of its own that does. */
  lemma BoundIsNewestOwnThread(t: Tree, dirs: seq<string>, ownId: Option<string>)
    requires ListsOnce(t)
    ensures var files := RecentFiles(t);
      var belongs, bound := Belongs(t, files, dirs, ownId), Bound(t, files, dirs, ownId);
      && (bound.None? <==> forall p :: p in files ==> !belongs(p))
      && (bound.Some? ==> bound.value in files && belongs(bound.value) && TopLevel(t, bound.value))
      && (bound.Some? ==> forall p :: p in files && belongs(p) ==> p == bound.value || Newer(bound.value, p))
  {
    RecentFilesDescend(t);
    hide RecentFiles, Newer, Descending, NameContains, NormalizeDir, ListsOnce, TrimSlashes;
    var files := RecentFiles(t);
    BoundIsFirst(t, files, dirs, ownId);
    BelongsToTopLevel(t, files, dirs, ownId);
    hide Bound, Belongs, First, TopLevel;
    FirstIsNewest(Belongs(t, files, dirs, ownId), files);
  }

  lemma BoundIsFirst(t: Tree, files: seq<Path>, dirs: seq<string>, ownId: Option<string>)
    ensures Bound(t, files, dirs, ownId) == First(Belongs(t, files, dirs, ownId), files)
  {
    hide HasId, InDirs;
  }

  lemma BelongsToTopLevel(t: Tree, files: seq<Path>, dirs: seq<string>, ownId: Option<string>)
    ensures forall p :: Belongs(t, files, dirs, ownId)(p) ==> TopLevel(t, p)
  {
    hide NameContains, NormalizeDir, TopLevel;
  }

  // ---- Scanning ----------------------------------------------------------------------------

  /** What a source remembers: its tail, the rollout it is bound to, and the newest file it has seen. */
  datatype CodexState = CodexState(tail: TailState, file: Option<Path>, newestSeen: Option<string>)

  const UNBOUND := CodexState(FRESH, None, None)

  function NewestName(files: seq<Path>): Option<string> {
    if files != [] && files[0] != [] then Some(files[0][|files[0]| - 1]) else None
  }

  /** Look for a rollout when there is none yet or a newer file has appeared; start over on another one. */
  function Rebind(s: CodexState, files: seq<Path>, bound: Option<Path>): CodexState {
    if s.file.Some? && NewestName(files) == s.newestSeen then s
    else if bound.Some? && bound != s.file then CodexState(FRESH, bound, NewestName(files))
    else s.(newestSeen := NewestName(files))
  }

  /** Tail the bound rollout; on a shrink start over, and report whether that ingested anything. */
  function CodexPass(t: TailState, first: PassIo, retry: PassIo, cap: nat): (TailState, bool) {
    var (t1, ingested) := TailPass(t, first, cap);
    if ingested.Some? then (t1, ingested.value) else
    var (t2, again) := TailPass(Reset(t), retry, cap);
    (t2, again.Some? && again.value)
  }

  class CodexSource {
    const cap: nat
    var tail: TailState
    var file: Option<Path>
    var newestSeen: Option<string>

    function State(): CodexState reads this { CodexState(tail, file, newestSeen) }

    constructor (cap: nat)
      ensures State() == UNBOUND && this.cap == cap
    {
      this.cap, tail, file, newestSeen := cap, FRESH, None, None;
    }

    /**
     * Bind or rebind, then tail. What is bound depends on the tree alone, never on what other
     * sessions of the pass have already asked of `disc`. `io` is what tailing each file meets.
     */
    method Scan(root: Option<Tree>, dirs: seq<string>, ownId: Option<string>, disc: Discovery,
                io: Path -> (PassIo, PassIo)) returns (changed: bool)
      requires root.Some? ==> disc.Valid(root.value)
      modifies this, disc
      ensures root.Some? ==> disc.Valid(root.value)
      ensures root.None? ==> State() == old(State()) && !changed
      ensures root.Some? ==>
        var files := RecentFiles(root.value);
        var s := Rebind(old(State()), files, Bound(root.value, files, dirs, ownId));
        && file == s.file && newestSeen == s.newestSeen
        && (file.None? ==> tail == s.tail && !changed)
        && (file.Some? ==> (tail, changed) == CodexPass(s.tail, io(file.value).0, io(file.value).1, cap))
    {
      hide RecentFiles, Bound, TailPass, First;
      if root.None? {
        return false;
      }
      var files := disc.Files(root.value);
      var newest := NewestName(files);
      if file.None? || newest != newestSeen {
        var bound := DiscoverCodexFile(disc, root.value, files, dirs, ownId);
        var rebound := bound.Some? && bound != file;
        newestSeen := newest;
        if rebound {
          tail, file := FRESH, bound;
        } else if file.None? {
          file := bound;
        }
      }
      if file.None? {
        return false;
      }
      var (first, retry) := io(file.value);
      var (next, ingested) := TailPass(tail, first, cap);
      if ingested.Some? {
        tail := next;
        return ingested.value;
      }
      tail := Reset(tail);
      var (again, any) := TailPass(tail, retry, cap);
      tail := again;
      return any.Some? && any.value;
    }
  }

  /** A pass leaves the tail exactly where a Claude pass would; only what it reports differs. */
  lemma CodexPassTailsAlike(t: TailState, first: PassIo, retry: PassIo, cap: nat)
    ensures CodexPass(t, first, retry, cap).0 == ScanPass(t, first, retry, cap).0
    ensures CodexPass(t, first, retry, cap).1 != ScanPass(t, first, retry, cap).1 ==> Shrunk(t, first)
  {}

  /** A source that stays with its rollout keeps what it was fed, and where it was. */
  lemma StayingKeepsTail(s: CodexState, files: seq<Path>, bound: Option<Path>)
    ensures Rebind(s, files, bound).file == s.file ==> Rebind(s, files, bound).tail == s.tail
    ensures Rebind(s, files, bound).file != s.file ==>
      bound.Some? && Rebind(s, files, bound) == CodexState(FRESH, bound, NewestName(files))
  {}

  /** A source that moves to another rollout has been fed nothing but that rollout. */
  lemma RebindStartsOver(s: CodexState, files: seq<Path>, bound: Option<Path>, first: PassIo, retry: PassIo, cap: nat)
    requires Rebind(s, files, bound).file != s.file && RacingPass(first) && RacingPass(retry)
    ensures Agrees(CodexPass(Rebind(s, files, bound).tail, first, retry, cap).0, first.rest)
  {
    CodexPassTailsAlike(FRESH, first, retry, cap);
    ScanAgreesIff(FRESH, first, retry, cap);
  }

  /**
   * A shrink goes unreported, although everything ingested so far was discarded, exactly when the
   * retry is stopped by the signature gate, finds the file empty, or reads no complete line.
   */
  lemma ShrinkGoesUnreportedIff(t: TailState, first: PassIo, retry: PassIo, cap: nat)
    requires Shrunk(t, first)
    ensures var (t', changed) := CodexPass(t, first, retry, cap);
      && (!changed <==> GateClosed(Reset(t), retry.stat) || Text(retry.len) == [] || NewLines(retry, 0, cap).None?)
      && (!changed ==> t'.chunks == [])
      && ScanPass(t, first, retry, cap).1
  {
    hide NewLines;
  }

  /** So against a writer: a readable retry that reports nothing met a file without a complete line. */
  lemma UnreportedMeansNoLine(t: TailState, first: PassIo, retry: PassIo, cap: nat)
    requires Shrunk(t, first) && RacingPass(retry) && retry.readable && SigOf(retry.stat) != t.sig
    requires !CodexPass(t, first, retry, cap).1
    ensures WholeLen(Text(retry.len)) == 0
  {
    ShrinkGoesUnreportedIff(t, first, retry, cap);
    hide CodexPass, NewLines, WholeLen, RacingPass;
    if Text(retry.len) != [] {
      NothingReadYet(retry, 0, cap);
    }
  }

  /** And over an unchanging file exactly when it holds no complete line, or bears the old signature. */
  lemma UnchangingShrinkGoesUnreportedIff(t: TailState, f: FileState, cap: nat)
    requires Shrunk(t, StaticPass(f))
    ensures !CodexPass(t, StaticPass(f), StaticPass(f), cap).1 <==> WholeLen(Text(f)) == 0 || SigOf(f) == t.sig
  {
    var io := StaticPass(f);
    ShrinkGoesUnreportedIff(t, io, io, cap);
    hide NewLines, WholeLen, CodexPass;
    if Text(f) != [] {
      if NewLines(io, 0, cap).None? {
        NothingReadYet(io, 0, cap);
      } else {
        NewLinesContinue(io, 0, cap);
      }
    }
  }
}

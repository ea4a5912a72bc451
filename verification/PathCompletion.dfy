/** Completing a typed directory path over UTF-8 names. */
module PathCompletion {
  import opened Common
  import opened Utf8

  const DOT: byte := 0x2E
  const SLASH: byte := 0x2F

  type Name = seq<byte>

  /** A directory entry; a name that is not UTF-8 is None. */
  datatype DirEntry = DirEntry(name: Option<Name>, isDir: bool)

  /** Names are text. */
  predicate Texts(names: seq<Name>) { forall i :: 0 <= i < |names| ==> WellFormed(names[i]) }

  predicate Shared(names: seq<Name>, p: Name) { forall i :: 0 <= i < |names| ==> p <= names[i] }

  /** A text cut into two texts is cut on a character boundary. */
  lemma {:induction false} TextPrefixEndsOnBoundary(s: seq<byte>, k: nat)
    requires WellFormed(s) && k <= |s| && WellFormed(s[..k])
    ensures Boundary(s, k)
    decreases |s|
  {
    if 0 < k < |s| {
      var n := CharLen(s[..k]);
      CharLenPrefix(s[..k], s[k..]);
      assert s == s[..k] + s[k..];
      assert s[n..][..k - n] == s[..k][n..];
      if n < k {
        TextPrefixEndsOnBoundary(s[n..], k - n);
      } else {
        assert WellFormed(s[n..]);
        StartsWithLead(s[n..]);
      }
    }
  }

  lemma StartsWithLead(s: seq<byte>)
    requires WellFormed(s) && s != []
    ensures !IsCont(s[0])
  {}

  /** How far `a` and `b` agree, and at most `limit`. */
  method AgreeUpTo(a: Name, b: Name, limit: nat) returns (n: nat)
    requires limit <= |a|
    ensures n <= limit && a[..n] <= b
    ensures n < limit ==> n == |b| || (n < |b| && a[n] != b[n])
  {
    n := Min(limit, |b|);
    var i := 0;
    while i < |a| && i < |b|
      invariant 0 <= i <= |a| && i <= |b| && a[..i] == b[..i]
    {
      if a[i] != b[i] {
        n := Min(n, i);
        break;
      }
      i := i + 1;
    }
    assert a[..n] == b[..n];
  }

  /** The names up to `k` agree on exactly the first `len` bytes of the first. */
  ghost predicate AgreeOn(names: seq<Name>, k: nat, len: nat)
    requires names != [] && k <= |names|
  {
    && len <= |names[0]| && Shared(names[..k], names[0][..len])
    && forall p :: Shared(names[..k], p) ==> |p| <= len
  }

  lemma SharedMore(names: seq<Name>, k: nat, p: Name)
    requires k < |names|
    ensures Shared(names[..k + 1], p) <==> Shared(names[..k], p) && p <= names[k]
  {
    assert names[..k + 1] == names[..k] + [names[k]];
    if Shared(names[..k + 1], p) {
      assert p <= names[..k + 1][k];
      forall i | 0 <= i < k ensures p <= names[..k][i] {
        var upTo := names[..k + 1];
        assert upTo[i] == names[..k][i];
      }
    }
  }

  lemma ShorterIsShared(names: seq<Name>, p: Name, q: Name)
    requires Shared(names, p) && q <= p
    ensures Shared(names, q)
  {
    forall i | 0 <= i < |names| ensures q <= names[i] {
      assert p <= names[i];
    }
  }

  lemma AgreeOnMore(names: seq<Name>, k: nat, before: nat, len: nat)
    requires 1 <= k < |names| && AgreeOn(names, k, before) && len <= before
    requires var first, s := names[0], names[k];
      first[..len] <= s && (len < before ==> len == |s| || (len < |s| && first[len] != s[len]))
    ensures AgreeOn(names, k + 1, len)
  {
    var first, s := names[0], names[k];
    ShorterIsShared(names[..k], first[..before], first[..len]);
    SharedMore(names, k, first[..len]);
    forall p | Shared(names[..k + 1], p) ensures |p| <= len {
      SharedMore(names, k, p);
      assert p <= names[..k][0] && p <= s;
      assert forall n :: 0 <= n < |p| ==> p[n] == first[n] && p[n] == s[n];
      hide Shared;
    }
    hide Shared;
  }

  /** The last character boundary at or before `len`. */
  method FloorToBoundary(s: Name, len: nat) returns (n: nat)
    requires len <= |s|
    ensures n <= len && Boundary(s, n)
    ensures forall m :: n < m <= len ==> !Boundary(s, m)
  {
    n := len;
    while !(n == |s| || n == 0 || !IsCont(s[n]))
      invariant n <= len
      decreases n
      invariant forall m :: n < m <= len ==> !Boundary(s, m)
    {
      n := n - 1;
    }
  }

  /** `p` is the longest text every name begins with. */
  ghost predicate IsLongestShared(names: seq<Name>, p: Name) {
    WellFormed(p) && Shared(names, p) && forall q :: WellFormed(q) && Shared(names, q) ==> |q| <= |p|
  }

  lemma AgreeOnFirst(names: seq<Name>)
    requires names != []
    ensures AgreeOn(names, 1, |names[0]|)
  {
    var first := names[0];
    assert first[..|first|] == first && names[..1] == [first];
    assert forall p :: Shared(names[..1], p) ==> p <= names[..1][0];
  }

  /** The last boundary within what the names agree on ends their longest common text. */
  lemma FloorIsLongest(names: seq<Name>, agreed: nat, len: nat)
    requires names != [] && Texts(names) && AgreeOn(names, |names|, agreed)
    requires len <= agreed && Boundary(names[0], len)
    requires forall m :: len < m <= agreed ==> !Boundary(names[0], m)
    ensures IsLongestShared(names, names[0][..len])
  {
    hide WellFormed, Boundary;
    var first := names[0];
    assert names[..|names|] == names;
    SplitAtBoundary(first, len);
    ShorterIsShared(names, first[..agreed], first[..len]);
    forall p | WellFormed(p) && Shared(names, p) ensures |p| <= len {
      assert p <= first && p == first[..|p|];
      TextPrefixEndsOnBoundary(first, |p|);
    }
  }

  /** The longest text that every name begins with. */
  method LongestCommonPrefix(names: seq<Name>) returns (prefix: Name)
    requires Texts(names)
    ensures names == [] ==> prefix == []
    ensures names != [] ==> IsLongestShared(names, prefix)
  {
    if names == [] {
      return [];
    }
    hide WellFormed, Boundary, AgreeOn, IsLongestShared, Texts;
    var first := names[0];
    var agreed: nat := |first|;
    AgreeOnFirst(names);
    for k := 1 to |names|
      invariant AgreeOn(names, k, agreed) && agreed <= |first|
    {
      var n := AgreeUpTo(first, names[k], agreed);
      AgreeOnMore(names, k, agreed, n);
      agreed := n;
    }
    var len := FloorToBoundary(first, agreed);
    FloorIsLongest(names, agreed, len);
    prefix := first[..len];
  }

  // ---- Candidates --------------------------------------------------------------------------

  /** Whether names beginning with `prefix` may be shown although hidden. */
  predicate ShowsHidden(prefix: Name) { prefix != [] && prefix[0] == DOT }

  predicate IsCandidate(e: DirEntry, prefix: Name) {
    && e.isDir && e.name.Some? && prefix <= e.name.value
    && (ShowsHidden(prefix) || e.name.value == [] || e.name.value[0] != DOT)
  }

  /** The directories that begin with what is typed; hidden ones only when what is typed is hidden. */
  function MatchingDirNames(entries: seq<DirEntry>, prefix: Name): seq<Name> {
    if entries == [] then [] else
    var last := entries[|entries| - 1];
    MatchingDirNames(entries[..|entries| - 1], prefix) + (if IsCandidate(last, prefix) then [last.name.value] else [])
  }

  predicate TextEntries(entries: seq<DirEntry>) {
    forall i :: 0 <= i < |entries| && entries[i].name.Some? ==> WellFormed(entries[i].name.value)
  }

  lemma {:induction false} MatchesShareTyped(entries: seq<DirEntry>, prefix: Name)
    requires TextEntries(entries)
    ensures Shared(MatchingDirNames(entries, prefix), prefix) && Texts(MatchingDirNames(entries, prefix))
  {
    if entries != [] {
      MatchesShareTyped(entries[..|entries| - 1], prefix);
    }
  }

  /**
   * The candidates are exactly the directories whose names begin with what is typed, without those
   * that begin with a dot where it does not, in the order they are listed.
   */
  lemma {:induction false} CandidatesAre(entries: seq<DirEntry>, prefix: Name, shown: DirEntry -> bool)
    requires forall e :: shown(e) <==>
      && e.isDir && e.name.Some? && |prefix| <= |e.name.value| && e.name.value[..|prefix|] == prefix
      && (e.name.value != [] && e.name.value[0] == 0x2E ==> prefix != [] && prefix[0] == 0x2E)
    ensures var names, kept := MatchingDirNames(entries, prefix), Filter(shown, entries);
      |names| == |kept| && forall i :: 0 <= i < |kept| ==> kept[i].name == Some(names[i])
  {
    if entries != [] {
      CandidatesAre(entries[..|entries| - 1], prefix, shown);
    }
  }

  lemma {:induction false} MatchesAreShown(entries: seq<DirEntry>, prefix: Name)
    ensures forall m :: m in MatchingDirNames(entries, prefix) ==> ShowsHidden(prefix) || m == [] || m[0] != DOT
  {
    if entries != [] {
      MatchesAreShown(entries[..|entries| - 1], prefix);
    }
  }

  lemma {:induction false} SameCandidates(entries: seq<DirEntry>, prefix: Name, longer: Name)
    requires prefix <= longer && ShowsHidden(longer) == ShowsHidden(prefix)
    requires forall m :: m in MatchingDirNames(entries, prefix) ==> longer <= m
    ensures MatchingDirNames(entries, longer) == MatchingDirNames(entries, prefix)
  {
    if entries != [] {
      var init, last := entries[..|entries| - 1], entries[|entries| - 1];
      assert forall m :: m in MatchingDirNames(init, prefix) ==> m in MatchingDirNames(entries, prefix);
      SameCandidates(init, prefix, longer);
      if IsCandidate(last, prefix) {
        assert last.name.value in MatchingDirNames(entries, prefix);
      }
    }
  }

  /** Typing on as far as the candidates agree, without a slash, rules none of them out and lets none in. */
  lemma ExtendingKeepsCandidates(entries: seq<DirEntry>, prefix: Name, longer: Name)
    requires prefix <= longer && Shared(MatchingDirNames(entries, prefix), longer)
    requires MatchingDirNames(entries, prefix) != []
    ensures MatchingDirNames(entries, longer) == MatchingDirNames(entries, prefix)
  {
    var all := MatchingDirNames(entries, prefix);
    MatchesAreShown(entries, prefix);
    hide MatchingDirNames;
    forall m | m in all ensures longer <= m {
      var i :| 0 <= i < |all| && all[i] == m;
    }
    assert all[0] in all && longer <= all[0] && prefix == longer[..|prefix|];
    assert longer != [] ==> longer[0] == all[0][0];
    assert prefix != [] ==> prefix[0] == longer[0];
    SameCandidates(entries, prefix, longer);
  }

  // ---- Completion --------------------------------------------------------------------------

  /**
   * `r` completes what was typed to `common`, the candidates' longest common text, with a slash
   * behind a directory; it is None exactly when that would add nothing, or a slash after a name that
   * is not the only candidate.
   */
  ghost predicate Completes(matches: seq<Name>, prefix: Name, isDir: Name -> bool, common: Name, r: Option<seq<byte>>) {
    && IsLongestShared(matches, common) && prefix <= common && Boundary(common, |prefix|)
    && (r.None? <==> common == prefix && (|matches| > 1 || !isDir(common)))
    && (r.Some? ==> prefix + r.value == common + if isDir(common) then [SLASH] else [])
  }

  /**
   * What to append to `prefix` typed in a directory that lists `entries`. `isDir` answers whether a
   * name under that directory is itself a directory. The common part of the candidates begins with
   * what was typed, so it is cut inside its range and on a character boundary.
   */
  method CompleteDirectoryPath(entries: seq<DirEntry>, prefix: Name, isDir: Name -> bool) returns (r: Option<seq<byte>>)
    requires TextEntries(entries) && WellFormed(prefix)
    ensures MatchingDirNames(entries, prefix) == [] ==> r.None?
    ensures MatchingDirNames(entries, prefix) != [] ==>
      exists common :: Completes(MatchingDirNames(entries, prefix), prefix, isDir, common, r)
  {
    var matches := MatchingDirNames(entries, prefix);
    MatchesShareTyped(entries, prefix);
    hide MatchingDirNames, WellFormed, Boundary, IsLongestShared, Completes;
    if |matches| == 0 {
      return None;
    }
    var common := LongestCommonPrefix(matches);
    TypedIsSlice(matches, prefix, common);
    var beyond := common[|prefix|..];
    assert common == prefix + beyond;
    if beyond == [] && |matches| > 1 {
      CompletesWith(matches, prefix, isDir, common, None);
      return None;
    }
    var suffix := if isDir(common) then beyond + [SLASH] else beyond;
    r := if suffix == [] then None else Some(suffix);
    CompletesWith(matches, prefix, isDir, common, r);
  }

  /** What was typed is a slice of the candidates' common text, cut on a boundary. */
  lemma TypedIsSlice(matches: seq<Name>, prefix: Name, common: Name)
    requires matches != [] && Shared(matches, prefix) && WellFormed(prefix) && IsLongestShared(matches, common)
    ensures prefix <= common && Boundary(common, |prefix|)
  {
    assert prefix <= matches[0] && common <= matches[0];
    assert prefix == common[..|prefix|];
    TextPrefixEndsOnBoundary(common, |prefix|);
    hide WellFormed;
  }

  lemma CompletesWith(matches: seq<Name>, prefix: Name, isDir: Name -> bool, common: Name, r: Option<seq<byte>>)
    requires IsLongestShared(matches, common) && prefix <= common && Boundary(common, |prefix|)
    requires r.None? <==> common == prefix && (|matches| > 1 || !isDir(common))
    requires r.Some? ==> prefix + r.value == common + if isDir(common) then [SLASH] else []
    ensures Completes(matches, prefix, isDir, common, r)
  {}

  lemma SharedByAll(names: seq<Name>, others: seq<Name>, p: Name)
    requires Shared(names, p) && forall n :: n in others ==> n in names
    ensures Shared(others, p)
  {
    forall j | 0 <= j < |others| ensures p <= others[j] {
      assert others[j] in names;
      var i :| 0 <= i < |names| && names[i] == others[j];
    }
  }

  /** There is only one longest common text, whatever order the names are listed in. */
  lemma LongestSharedIsUnique(names: seq<Name>, others: seq<Name>, p: Name, q: Name)
    requires names != [] && (forall n :: n in names <==> n in others)
    requires IsLongestShared(names, p) && IsLongestShared(others, q)
    ensures p == q
  {
    hide WellFormed;
    SharedByAll(names, others, p);
    SharedByAll(others, names, q);
    assert p <= names[0] && q <= names[0];
  }

  /** A directory that is the only candidate is completed to its full name and a slash. */
  lemma OnlyCandidateIsCompleted(name: Name, prefix: Name, isDir: Name -> bool, common: Name, r: Option<seq<byte>>)
    requires WellFormed(name) && isDir(name) && Completes([name], prefix, isDir, common, r)
    ensures r.Some? && prefix + r.value == name + [SLASH]
  {
    hide WellFormed;
    assert Shared([name], name);
    assert common <= [name][0] && common == name;
  }

  /** A directory entry is a single component. */
  predicate Components(entries: seq<DirEntry>) {
    forall i :: 0 <= i < |entries| && entries[i].name.Some? ==> SLASH !in entries[i].name.value
  }

  lemma {:induction false} NothingBeginsWithSlash(entries: seq<DirEntry>, prefix: Name)
    requires Components(entries) && SLASH in prefix
    ensures MatchingDirNames(entries, prefix) == []
  {
    if entries != [] {
      NothingBeginsWithSlash(entries[..|entries| - 1], prefix);
    }
  }

  /**
   * Accepting a completion keeps every candidate exactly when it adds no slash; with a slash, the
   * candidates that went on beyond the common part are out of reach.
   */
  lemma AcceptingKeepsCandidatesIff(entries: seq<DirEntry>, prefix: Name, isDir: Name -> bool, common: Name,
                                    r: Option<seq<byte>>)
    requires Components(entries) && MatchingDirNames(entries, prefix) != [] && r.Some?
    requires Completes(MatchingDirNames(entries, prefix), prefix, isDir, common, r)
    ensures MatchingDirNames(entries, prefix + r.value) == MatchingDirNames(entries, prefix) <==> !isDir(common)
    ensures isDir(common) ==> MatchingDirNames(entries, prefix + r.value) == []
  {
    hide MatchingDirNames, WellFormed, Boundary;
    if isDir(common) {
      assert (prefix + r.value)[|common|] == SLASH;
      NothingBeginsWithSlash(entries, prefix + r.value);
    } else {
      assert prefix + r.value == common;
      ExtendingKeepsCandidates(entries, prefix, common);
    }
  }

  lemma AsciiIsText(s: seq<byte>)
    requires |s| == 3 && s[0] <= 0x7F && s[1] <= 0x7F && s[2] <= 0x7F
    ensures WellFormed(s)
  {
    var t := s[1..];
    var u := t[1..];
    assert u[1..] == [] && WellFormed(u) && WellFormed(t);
  }

  /** With directories `foo` and `foob`, `f` is completed to `foo/`, where neither is to be found. */
  lemma SlashLosesCandidates(f: Name, foo: Name, foob: Name, entries: seq<DirEntry>)
    requires f == [0x66] && foo == [0x66, 0x6F, 0x6F] && foob == foo + [0x62]
    requires entries == [DirEntry(Some(foo), true)] + [DirEntry(Some(foob), true)]
    ensures MatchingDirNames(entries, f) == [foo, foob]
    ensures Completes([foo, foob], f, _ => true, foo, Some([0x6F, 0x6F, SLASH]))
    ensures MatchingDirNames(entries, foo + [SLASH]) == []
  {
    NothingBeginsWithSlash(entries, foo + [SLASH]);
    BothMatch(f, foo, foob);
    CommonIsFirst(f, foo, foob);
    hide WellFormed, MatchingDirNames, IsLongestShared;
    assert f + [0x6F, 0x6F, SLASH] == foo + [SLASH];
  }

  lemma BothMatch(f: Name, foo: Name, foob: Name)
    requires f == [0x66] && f <= foo && f <= foob
    ensures MatchingDirNames([DirEntry(Some(foo), true)] + [DirEntry(Some(foob), true)], f) == [foo, foob]
  {
    var one, two := [DirEntry(Some(foo), true)], [DirEntry(Some(foob), true)];
    assert (one + two)[..1] == one && one[..0] == [];
    assert MatchingDirNames(one, f) == [foo];
  }

  lemma CommonIsFirst(f: Name, foo: Name, foob: Name)
    requires f <= foo <= foob && |foo| == 3 && forall i :: 0 <= i < 3 ==> foo[i] <= 0x7F
    ensures IsLongestShared([foo, foob], foo) && Boundary(foo, |f|)
  {
    AsciiIsText(foo);
    hide WellFormed;
    forall q | Shared([foo, foob], q) ensures |q| <= |foo| {
      assert q <= [foo, foob][0];
    }
  }
}

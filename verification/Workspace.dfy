/** Directories of links, one per member, built where a session's agent is launched. */
module Workspace {
  import opened Common
  import opened Sorting
  import opened WorkspaceNames

  /** What a directory entry is: a link, or something that holds content of its own. */
  datatype Node = Link(target: string) | Content

  /** What is at a path. */
  datatype Place = Missing | NotDirectory | Directory(entries: map<string, Node>)

  datatype Member = Member(name: string, target: string)

  /** The names in use after the first `n` links. */
  function Used(links: seq<string>): set<string> { set l | l in links }

  /** `links` are the names the members get, in turn. */
  predicate IsNaming(space: Spaces, members: seq<Member>, links: seq<string>) {
    |links| <= |members|
    && forall i :: 0 <= i < |links| ==> IsUnique(Base(space, members[i].name), Used(links[..i]), links[i])
  }

  lemma NamesAreDistinctSegments(space: Spaces, members: seq<Member>, links: seq<string>)
    requires IsNaming(space, members, links)
    ensures Distinct(links) && forall i :: 0 <= i < |links| ==> IsSegment(links[i])
  {
    hide IsUnique, Base, IsSegment;
    forall j | 0 <= j < |links| ensures IsSegment(links[j]) && links[j] !in Used(links[..j]) {
      UniqueIsSegment(space, members[j].name, Used(links[..j]), links[j]);
    }
    forall i, j | 0 <= i < j < |links| ensures links[i] != links[j] {
      assert links[..j][i] == links[i];
    }
  }

  /** `entries` with a link to each of the first `n` members added. */
  function WithLinks(entries: map<string, Node>, links: seq<string>, members: seq<Member>): map<string, Node>
    requires |links| <= |members|
  {
    if links == [] then entries else
    var n := |links| - 1;
    WithLinks(entries, links[..n], members)[links[n] := Link(members[n].target)]
  }

  /** Distinct names: every member has its own link, and nothing else was added. */
  lemma {:induction false} LinksPointAtMembers(entries: map<string, Node>, links: seq<string>, members: seq<Member>)
    requires |links| <= |members| && Distinct(links)
    ensures var all := WithLinks(entries, links, members);
      && (forall i :: 0 <= i < |links| ==> links[i] in all && all[links[i]] == Link(members[i].target))
      && (forall name :: name in all <==> name in entries || name in links)
      && (forall name :: name in entries && name !in links ==> all[name] == entries[name])
  {
    if links != [] {
      var n := |links| - 1;
      LinksPointAtMembers(entries, links[..n], members);
      assert links == links[..n] + [links[n]];
      assert forall i :: 0 <= i < n ==> links[..n][i] == links[i];
    }
  }

  /** One more link, named and made. */
  lemma LinkAdded(space: Spaces, members: seq<Member>, links: seq<string>, link: string, entries: map<string, Node>)
    requires IsNaming(space, members, links) && |links| < |members|
    requires IsUnique(Base(space, members[|links|].name), Used(links), link)
    ensures var more := links + [link];
      && IsNaming(space, members, more) && Used(more) == Used(links) + {link}
      && WithLinks(entries, more, members) == WithLinks(entries, links, members)[link := Link(members[|links|].target)]
  {
    hide IsUnique, Base;
    var more := links + [link];
    assert more[..|links|] == links;
    assert forall i :: 0 <= i < |links| ==> more[..i] == links[..i];
  }

  lemma NothingYet(space: Spaces, members: seq<Member>, entries: map<string, Node>)
    ensures IsNaming(space, members, []) && Used([]) == {} && WithLinks(entries, [], members) == entries
  {}

  /** A new name can only be taken by something that was there before. */
  lemma TakenBefore(space: Spaces, members: seq<Member>, links: seq<string>, link: string, entries: map<string, Node>)
    requires IsNaming(space, members, links) && link !in Used(links)
    ensures link in WithLinks(entries, links, members) <==> link in entries
  {
    NamesAreDistinctSegments(space, members, links);
    LinksPointAtMembers(entries, links, members);
    hide IsNaming, WithLinks, Distinct;
  }

  /** Members whose names need no change and differ are linked under their own names. */
  lemma {:induction false} CleanNamesAreKept(space: Spaces, members: seq<Member>, links: seq<string>)
    requires IsNaming(space, members, links)
    requires forall i :: 0 <= i < |links| ==> SanitizeWorkspaceSegment(space, members[i].name) == members[i].name != ""
    requires forall i, j :: 0 <= i < j < |links| ==> members[i].name != members[j].name
    ensures forall i :: 0 <= i < |links| ==> links[i] == members[i].name
  {
    hide SanitizeWorkspaceSegment;
    if links != [] {
      var n := |links| - 1;
      assert forall i :: 0 <= i < n ==> links[..n][..i] == links[..i];
      CleanNamesAreKept(space, members, links[..n]);
      assert IsUnique(Base(space, members[n].name), Used(links[..n]), links[n]);
    }
  }

  /** A member whose name leaves nothing is linked as `repo`, numbered when that is taken. */
  lemma NamelessIsRepo(space: Spaces, name: string, used: set<string>, link: string)
    requires SanitizeWorkspaceSegment(space, name) == "" && IsUnique(Base(space, name), used, link)
    ensures if "repo" !in used then link == "repo"
      else exists n: nat :: n >= 2 && link == "repo-" + Decimal(n)
  {
    hide SanitizeWorkspaceSegment, Decimal;
    if "repo" in used {
      var n :| 2 <= n <= |used| + 1 && IsLeastFree("repo", used, link, n);
      assert "repo" + "-" + Decimal(n) == "repo-" + Decimal(n);
    }
  }

  class WorkspaceDir {
    var place: Place

    constructor (place: Place)
      ensures this.place == place
    {
      this.place := place;
    }

    /** Create one link; a name that is taken is an error. */
    method Symlink(name: string, target: string) returns (ok: bool)
      requires place.Directory?
      modifies this
      ensures ok == (name !in old(place).entries)
      ensures place == if ok then Directory(old(place).entries[name := Link(target)]) else old(place)
    {
      if name in place.entries {
        return false;
      }
      place := Directory(place.entries[name := Link(target)]);
      return true;
    }

    /**
     * Create the directory and fill it with one link per member. It stops at the first name that
     * something left in the directory already bears, so in an empty one it always gets through.
     */
    method Populate(space: Spaces, members: seq<Member>) returns (ok: bool, ghost links: seq<string>)
      modifies this
      ensures IsNaming(space, members, links)
      ensures old(place).NotDirectory? ==> !ok && links == [] && place == old(place)
      ensures !old(place).NotDirectory? ==>
        var before := if old(place).Directory? then old(place).entries else map[];
        && place == Directory(WithLinks(before, links, members))
        && (ok ==> |links| == |members|)
        && (!ok ==> |links| < |members| && exists link ::
              IsUnique(Base(space, members[|links|].name), Used(links), link) && link in before)
        && forall l :: l in links ==> l !in before
    {
      links, ok := [], true;
      if place.NotDirectory? {
        return false, links;
      }
      ghost var before := if place.Directory? then place.entries else map[];
      place := Directory(if place.Directory? then place.entries else map[]);
      var used: set<string> := {};
      hide IsUnique, Base, IsNaming, WithLinks, Used, IsSegment, Distinct;
      NothingYet(space, members, before);
      for k := 0 to |members|
        invariant |links| == k && IsNaming(space, members, links) && used == Used(links)
        invariant place == Directory(WithLinks(before, links, members))
        invariant forall l :: l in links ==> l !in before
      {
        var link, nowUsed := UniqueLinkName(space, members[k].name, used);
        LinkAdded(space, members, links, link, before);
        TakenBefore(space, members, links, link, before);
        var made := Symlink(link, members[k].target);
        if !made {
          return false, links;
        }
        used := nowUsed;
        links := links + [link];
      }
    }

    /** Remove a directory only when every entry it lists is a link; anything else is refused untouched. */
    method RemoveLinksOnly(listing: seq<string>) returns (ok: bool)
      requires place.Directory? ==> forall name :: name in listing <==> name in place.entries
      modifies this
      ensures ok <==> Reusable(old(place))
      ensures place == if ok then Missing else old(place)
      ensures !ok && old(place).Directory? ==>
        exists name :: name in old(place).entries && old(place).entries[name] == Content
    {
      if place.Missing? {
        return true;
      }
      if place.NotDirectory? {
        return false;
      }
      for k := 0 to |listing|
        invariant place == old(place)
        invariant forall i :: 0 <= i < k ==> place.entries[listing[i]].Link?
      {
        if !place.entries[listing[k]].Link? {
          return false;
        }
      }
      place := Missing;
      return true;
    }

    /** Rebuild at a directory the user chose: it ends up holding the links alone, or is refused as it was. */
    method EnsureAt(space: Spaces, members: seq<Member>, listing: seq<string>)
      returns (ok: bool, ghost links: seq<string>)
      requires place.Directory? ==> forall name :: name in listing <==> name in place.entries
      modifies this
      ensures ok <==> Reusable(old(place))
      ensures !ok ==> place == old(place)
      ensures ok ==> IsWorkspace(space, members, links, place)
    {
      links := [];
      ok := RemoveLinksOnly(listing);
      if ok {
        ok, links := Populate(space, members);
        NamesAreDistinctSegments(space, members, links);
        LinksPointAtMembers(map[], links, members);
      }
    }

    /** Rebuild under friring's own root, whatever the directory held. */
    method Ensure(space: Spaces, base: Path, dir: Path, members: seq<Member>)
      returns (ok: bool, ghost links: seq<string>)
      requires Below(base, dir)
      modifies this
      ensures ok <==> !old(place).NotDirectory?
      ensures !ok ==> place == old(place)
      ensures ok ==> IsWorkspace(space, members, links, place)
    {
      links := [];
      ok := RemoveUnderRoot(base, dir);
      if ok {
        ok, links := Populate(space, members);
        NamesAreDistinctSegments(space, members, links);
        LinksPointAtMembers(map[], links, members);
      }
    }

    /** Remove a directory whatever it holds, but only below `base`. */
    method RemoveUnderRoot(base: Path, dir: Path) returns (ok: bool)
      modifies this
      ensures !Below(base, dir) ==> ok && place == old(place)
      ensures Below(base, dir) ==> ok == !old(place).NotDirectory? && place == if ok then Missing else old(place)
    {
      if !(base <= dir) || dir == base {
        return true;
      }
      if place.NotDirectory? {
        return false;
      }
      place := Missing;
      return true;
    }
  }

  /** Missing, empty, or a previous workspace: nothing there but links. */
  predicate Reusable(place: Place) {
    match place
    case Missing => true
    case NotDirectory => false
    case Directory(entries) => forall name :: name in entries ==> entries[name].Link?
  }

  /** Nothing of a user's own is ever in a directory that is given up: it is missing, or holds links alone. */
  lemma ReusableIff(place: Place)
    ensures Reusable(place) <==>
      place == Missing || (place.Directory? && !exists name :: name in place.entries && place.entries[name] == Content)
  {}

  /** Exactly one direct child per member, each a link to its member under a name of its own. */
  ghost predicate IsWorkspace(space: Spaces, members: seq<Member>, links: seq<string>, place: Place) {
    && place.Directory? && |links| == |members| && IsNaming(space, members, links) && Distinct(links)
    && (forall i :: 0 <= i < |links| ==> IsSegment(links[i]))
    && (forall name :: name in place.entries <==> name in links)
    && forall i :: 0 <= i < |links| ==> place.entries[links[i]] == Link(members[i].target)
  }

  /** Rebuilding is idempotent: a workspace is reusable, and rebuilding it for the same members changes nothing. */
  lemma RebuildingIsIdempotent(space: Spaces, members: seq<Member>, a: seq<string>, b: seq<string>, p: Place, q: Place)
    requires IsWorkspace(space, members, a, p) && IsWorkspace(space, members, b, q)
    ensures Reusable(p) && p == q
  {
    hide IsUnique, Base, IsSegment;
    SameNaming(space, members, a, b, |members|);
    assert a[..|members|] == a && b[..|members|] == b;
    forall name | name in p.entries
      ensures p.entries[name].Link? && name in q.entries && q.entries[name] == p.entries[name]
    {
      var i :| 0 <= i < |a| && a[i] == name;
    }
  }

  lemma {:induction false} SameNaming(space: Spaces, members: seq<Member>, a: seq<string>, b: seq<string>, n: nat)
    requires IsNaming(space, members, a) && IsNaming(space, members, b) && n <= |a| && n <= |b|
    ensures a[..n] == b[..n]
  {
    hide IsUnique, Base;
    if n > 0 {
      SameNaming(space, members, a, b, n - 1);
      UniqueIsDetermined(Base(space, members[n - 1].name), Used(a[..n - 1]), a[n - 1], b[n - 1]);
    }
  }

  // ---- Where a workspace lives -------------------------------------------------------------

  /** A path, one name per component. */
  type Path = seq<string>

  predicate Below(base: Path, dir: Path) { base <= dir && dir != base }

  /** Strictly below a path is what goes on from it by at least one component. */
  lemma BelowIff(base: Path, dir: Path)
    ensures Below(base, dir) <==> exists more: Path :: more != [] && dir == base + more
  {
    if Below(base, dir) {
      var more := dir[|base|..];
      assert dir == base + more && more != [];
    }
  }

  function SessionWorkspaceDir(space: Spaces, base: Path, id: string): Option<Path> {
    var segment := SanitizeWorkspaceSegment(space, id);
    if segment == "" then None else Some(base + [segment])
  }

  /** An id with nothing to replace or drop has a directory, of its own name. */
  lemma CleanIdsHaveTheirOwn(space: Spaces, base: Path, id: string)
    requires id != "" && NoSeparator(id) && NoSpace(space, id)
    requires !Droppable(space, id[0]) && !Droppable(space, id[|id| - 1])
    ensures SessionWorkspaceDir(space, base, id) == Some(base + [id])
  {
    CleanNameIsKept(space, id);
    hide SanitizeWorkspaceSegment;
  }

  /** There is none exactly when the id holds nothing but what is dropped. */
  lemma NoDirectoryIff(space: Spaces, base: Path, id: string)
    ensures SessionWorkspaceDir(space, base, id) == None <==> forall i :: 0 <= i < |id| ==> Droppable(space, id[i])
  {
    var lo := SanitizedIsMiddle(space, id);
    SanitizedShape(space, id);
    hide SanitizeWorkspaceSegment;
    var s := SanitizeWorkspaceSegment(space, id);
    if s != "" {
      assert s[0] == '-' || s[0] == id[lo];
    }
  }

  /** Whatever the id, a session's workspace is a direct child of the root, and never the root or its parent. */
  lemma WorkspaceIsChildOfRoot(space: Spaces, base: Path, id: string)
    ensures var dir := SessionWorkspaceDir(space, base, id);
      dir.Some? ==> Below(base, dir.value) && |dir.value| == |base| + 1 && IsSegment(dir.value[|base|])
  {
    SanitizedIsSegment(space, id);
    hide SanitizeWorkspaceSegment, IsSegment;
  }
}

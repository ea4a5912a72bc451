/** Agent arguments that name a managed config file, and rewriting them for another filesystem. */
module ConfigArgs {
  import opened Common
  import opened Subsequences

  function IsPosixRoot(root: string): bool { root != "" && root[0] == '/' }

  predicate StartsWith(s: string, prefix: string) { |prefix| <= |s| && s[..|prefix|] == prefix }

  /** `path` is the root, or below it; a Windows root separates with either slash. */
  predicate PathUnderRoot(path: string, root: string) {
    && root != "" && StartsWith(path, root)
    && var rest := path[|root|..];
       rest == "" || rest[0] == '/' || (!IsPosixRoot(root) && rest[0] == '\\')
  }

  lemma UnderRootIff(path: string, root: string)
    ensures PathUnderRoot(path, root) <==>
      root != "" && (path == root || (exists below: string :: path == root + "/" + below)
                     || (!IsPosixRoot(root) && exists below: string :: path == root + "\\" + below))
  {
    if PathUnderRoot(path, root) && path != root {
      var rest := path[|root|..];
      assert path == root + rest && rest == [rest[0]] + rest[1..];
      if rest[0] == '/' {
        assert path == root + "/" + rest[1..];
      } else {
        assert path == root + "\\" + rest[1..];
      }
    }
  }

  /** A flag whose value is the next token. */
  predicate BareFlag(token: string) { token != "" && token[0] == '-' && '=' !in token }

  /** Where the first `=` is. */
  function FirstEq(s: string): (r: Option<nat>)
    ensures r.Some? ==> r.value < |s| && s[r.value] == '=' && '=' !in s[..r.value]
    ensures r.None? ==> '=' !in s
  {
    if s == "" then None
    else if s[0] == '=' then Some(0)
    else match FirstEq(s[1..]) case Some(i) => assert s[..i + 1] == [s[0]] + s[1..][..i]; Some(i + 1) case None => None
  }

  /** How a token names a managed file: as itself, or as the value of `flag=value`. */
  datatype Naming = Unmanaged | Path | Inline(flag: string, value: string)

  function Names(token: string, root: string): Naming {
    if PathUnderRoot(token, root) then Path else
    match FirstEq(token)
    case None => Unmanaged
    case Some(i) =>
      if token[..i] != "" && token[0] == '-' && PathUnderRoot(token[i + 1..], root)
      then Inline(token[..i], token[i + 1..]) else Unmanaged
  }

  /** The managed path a token names. */
  function ManagedValue(token: string, root: string): Option<string> {
    match Names(token, root)
    case Unmanaged => None
    case Path => Some(token)
    case Inline(_, value) => Some(value)
  }

  type Mapping = string -> Option<string>

  function DropFlag(out: seq<string>): seq<string> {
    if out != [] && BareFlag(out[|out| - 1]) then out[..|out| - 1] else out
  }

  /** What the rewrite puts out for one token after `out`. */
  function RewriteOne(out: seq<string>, token: string, root: string, map_: Mapping): seq<string> {
    match Names(token, root)
    case Unmanaged => out + [token]
    case Path => (match map_(token) case Some(to) => out + [to] case None => DropFlag(out))
    case Inline(flag, value) => (match map_(value) case Some(to) => out + [flag + "=" + to] case None => out)
  }

  function Rewrite(args: seq<string>, root: string, map_: Mapping): seq<string> {
    if args == [] then []
    else RewriteOne(Rewrite(args[..|args| - 1], root, map_), args[|args| - 1], root, map_)
  }

  function Listed(value: Option<string>): seq<string> { if value.Some? then [value.value] else [] }

  /** Every managed path the arguments name, in order. */
  function ManagedValues(args: seq<string>, root: string): seq<string> {
    if args == [] then [] else
    ManagedValues(args[..|args| - 1], root) + Listed(ManagedValue(args[|args| - 1], root))
  }

  /** The managed paths are those of the tokens that name one, in the tokens' order. */
  lemma {:induction false} ManagedInOrder(args: seq<string>, root: string, names: string -> bool)
    requires forall token :: names(token) <==> ManagedValue(token, root).Some?
    ensures var values, kept := ManagedValues(args, root), Filter(names, args);
      |values| == |kept| && forall i :: 0 <= i < |kept| ==> ManagedValue(kept[i], root) == Some(values[i])
  {
    hide ManagedValue;
    if args != [] {
      ManagedInOrder(args[..|args| - 1], root, names);
    }
  }

  lemma OneMore(args: seq<string>, k: nat, root: string, map_: Mapping)
    requires k < |args|
    ensures Rewrite(args[..k + 1], root, map_) == RewriteOne(Rewrite(args[..k], root, map_), args[k], root, map_)
    ensures ManagedValues(args[..k + 1], root) == ManagedValues(args[..k], root) + Listed(ManagedValue(args[k], root))
  {
    hide RewriteOne, ManagedValue;
    assert args[..k + 1][..k] == args[..k];
  }

  /** How the tests the rewrite makes on a token, in turn, tell what it names. */
  lemma NamesCases(token: string, root: string)
    ensures PathUnderRoot(token, root) ==> Names(token, root).Path?
    ensures !PathUnderRoot(token, root) ==>
      var eq := FirstEq(token);
      if eq.Some? && token[..eq.value] != "" && token[..eq.value][0] == '-'
         && PathUnderRoot(token[eq.value + 1..], root)
      then Names(token, root) == Inline(token[..eq.value], token[eq.value + 1..])
      else Names(token, root).Unmanaged?
  {
    hide PathUnderRoot;
  }

  /** A token names a managed file as itself, or behind a flag and the token's first `=`. */
  lemma NamesIff(token: string, root: string)
    ensures Names(token, root) == Path <==> PathUnderRoot(token, root)
    ensures forall flag: string, value: string :: Names(token, root) == Inline(flag, value) <==>
      && !PathUnderRoot(token, root) && PathUnderRoot(value, root)
      && token == flag + "=" + value && flag != "" && flag[0] == '-' && '=' !in flag
  {
    hide PathUnderRoot;
    forall flag: string, value: string | token == flag + "=" + value && '=' !in flag
      ensures FirstEq(token) == Some(|flag|) && token[..|flag|] == flag && token[|flag| + 1..] == value
    {
      FirstEqBehind(flag, value);
      hide FirstEq;
    }
    SplitAtEq(token);
    hide FirstEq;
  }

  lemma {:induction false} FirstEqBehind(flag: string, value: string)
    requires '=' !in flag
    ensures FirstEq(flag + "=" + value) == Some(|flag|)
  {
    if flag != "" {
      assert (flag + "=" + value)[1..] == flag[1..] + "=" + value;
      FirstEqBehind(flag[1..], value);
    }
  }

  /** Rewrite the arguments; `asked` is what the mapping was called on, in order. */
  method RewriteConfigPathArgs(args: seq<string>, root: string, map_: Mapping)
    returns (out: seq<string>, asked: seq<string>)
    ensures out == Rewrite(args, root, map_)
    ensures asked == ManagedValues(args, root)
  {
    out, asked := [], [];
    assert Rewrite([], root, map_) == [];
    hide Rewrite, ManagedValues, Names, PathUnderRoot, FirstEq, BareFlag;
    for k := 0 to |args|
      invariant out == Rewrite(args[..k], root, map_)
      invariant asked == ManagedValues(args[..k], root)
    {
      var arg := args[k];
      OneMore(args, k, root, map_);
      NamesCases(arg, root);
      if PathUnderRoot(arg, root) {
        asked := asked + [arg];
        match map_(arg) {
          case Some(to) => out := out + [to];
          case None =>
            if |out| > 0 && BareFlag(out[|out| - 1]) {
              out := out[..|out| - 1];
            }
        }
        continue;
      }
      var eq := FirstEq(arg);
      if eq.Some? {
        var flag, value := arg[..eq.value], arg[eq.value + 1..];
        if flag != "" && flag[0] == '-' && PathUnderRoot(value, root) {
          asked := asked + [value];
          var to := map_(value);
          if to.Some? {
            out := out + [flag + "=" + to.value];
          }
          continue;
        }
      }
      out := out + [arg];
    }
    assert args[..|args|] == args;
  }

  /** Every managed path `argv` names: a rewrite that replaces each by itself. */
  method CollectConfigPaths(argv: seq<string>, root: string) returns (found: seq<string>)
    ensures found == ManagedValues(argv, root)
  {
    var _, asked := RewriteConfigPathArgs(argv, root, path => Some(path));
    found := asked;
  }

  // ---- A mapping that replaces everything ----------------------------------------------------

  predicate Replaces(args: seq<string>, root: string, map_: Mapping) {
    forall i :: 0 <= i < |args| ==>
      match ManagedValue(args[i], root) case Some(v) => map_(v).Some? case None => true
  }

  function Replaced(token: string, root: string, map_: Mapping): string
    requires Replaces([token], root, map_)
  {
    assert [token][0] == token;
    match Names(token, root)
    case Unmanaged => token
    case Path => map_(token).value
    case Inline(flag, value) => flag + "=" + map_(value).value
  }

  lemma ReplacesOne(args: seq<string>, root: string, map_: Mapping, i: nat)
    requires Replaces(args, root, map_) && i < |args|
    ensures Replaces([args[i]], root, map_)
  {}

  lemma ReplacedIsNext(out: seq<string>, token: string, root: string, map_: Mapping)
    requires Replaces([token], root, map_)
    ensures RewriteOne(out, token, root, map_) == out + [Replaced(token, root, map_)]
  {
    assert [token][0] == token;
    hide Names;
  }

  /** Replacing keeps every token in its place and changes only what names a managed path. */
  lemma {:induction false} ReplacingIsPointwise(args: seq<string>, root: string, map_: Mapping, i: nat)
    requires Replaces(args, root, map_) && i < |args|
    ensures |Rewrite(args, root, map_)| == |args| && Replaces([args[i]], root, map_)
    ensures Rewrite(args, root, map_)[i] == Replaced(args[i], root, map_)
  {
    var init, last := args[..|args| - 1], args[|args| - 1];
    ReplacesOne(args, root, map_, |args| - 1);
    ReplacesOne(args, root, map_, i);
    ReplacedIsNext(Rewrite(init, root, map_), last, root, map_);
    assert Replaces(init, root, map_) by {
      forall j | 0 <= j < |init| ensures init[j] == args[j] {}
    }
    hide RewriteOne, Replaces, Replaced;
    if init != [] {
      ReplacingIsPointwise(init, root, map_, if i < |init| then i else 0);
    }
  }

  /** Asking for a path's own name changes nothing. */
  lemma CollectingChangesNothing(args: seq<string>, root: string)
    ensures Rewrite(args, root, path => Some(path)) == args
  {
    var same: Mapping := path => Some(path);
    forall i | 0 <= i < |args|
      ensures |Rewrite(args, root, same)| == |args| && Rewrite(args, root, same)[i] == args[i]
    {
      ReplacingIsPointwise(args, root, same, i);
      SplitAtEq(args[i]);
    }
  }

  lemma SplitAtEq(token: string)
    ensures match FirstEq(token) case Some(i) => token == token[..i] + "=" + token[i + 1..] case None => true
  {}

  // ---- A mapping that drops everything -------------------------------------------------------

  predicate Kept(token: string, root: string) { Names(token, root).Unmanaged? && !BareFlag(token) }

  function KeptTokens(root: string): string -> bool { token => Kept(token, root) }

  function DropAll(): Mapping { _ => None }

  /** What dropping does after one more token: it keeps the token, or drops it, perhaps with a flag. */
  lemma DropCases(out: seq<string>, last: string, root: string)
    ensures var after := RewriteOne(out, last, root, DropAll());
      if Names(last, root).Unmanaged? then after == out + [last]
      else after == out || (out != [] && BareFlag(out[|out| - 1]) && after == out[..|out| - 1])
  {
    hide Names, BareFlag;
  }

  /** Dropping everything leaves some of the arguments, in order. */
  lemma {:induction false} DroppingLeavesSubsequence(args: seq<string>, root: string)
    ensures Subsequence(Rewrite(args, root, DropAll()), args)
  {
    if args != [] {
      var init, last := args[..|args| - 1], args[|args| - 1];
      DroppingLeavesSubsequence(init, root);
      var before := Rewrite(init, root, DropAll());
      DropCases(before, last, root);
      assert (before + [last])[..|before|] == before;
      if before != [] {
        SubsequenceOfPrefix(before, init, |before| - 1);
        SubsequenceMonotone(before[..|before| - 1], args, 0, |init|);
      }
      SubsequenceMonotone(before, args, 0, |init|);
      hide Names, BareFlag, RewriteOne;
    }
  }

  /** Dropping everything leaves nothing managed. */
  lemma {:induction false} DroppingLeavesNoManaged(args: seq<string>, root: string, i: nat)
    requires i < |Rewrite(args, root, DropAll())|
    ensures Names(Rewrite(args, root, DropAll())[i], root).Unmanaged?
  {
    var init, last := args[..|args| - 1], args[|args| - 1];
    var before := Rewrite(init, root, DropAll());
    DropCases(before, last, root);
    if i < |before| {
      DroppingLeavesNoManaged(init, root, i);
    }
    hide Names, BareFlag;
  }

  /** Dropping a bare flag from the end drops nothing to be kept. */
  lemma KeptWithoutFlag(out: seq<string>, root: string)
    requires out != [] && BareFlag(out[|out| - 1])
    ensures Filter(KeptTokens(root), out[..|out| - 1]) == Filter(KeptTokens(root), out)
  {
    hide Names, Filter, BareFlag;
    var init, flag := out[..|out| - 1], out[|out| - 1];
    assert out == init + [flag];
    FilterPush(KeptTokens(root), init, flag);
  }

  lemma DropStepKeeps(out: seq<string>, last: string, root: string)
    ensures Filter(KeptTokens(root), RewriteOne(out, last, root, DropAll()))
      == Filter(KeptTokens(root), out) + Filter(KeptTokens(root), [last])
  {
    hide Names, Filter, BareFlag, RewriteOne;
    DropCases(out, last, root);
    var after := RewriteOne(out, last, root, DropAll());
    FilterAppend(KeptTokens(root), out, [last]);
    KeptAlone(last, root);
    if out != [] && BareFlag(out[|out| - 1]) {
      KeptWithoutFlag(out, root);
    }
  }

  lemma KeptAlone(token: string, root: string)
    ensures Filter(KeptTokens(root), [token]) == if Kept(token, root) then [token] else []
  {
    hide Names, BareFlag;
    var none: seq<string> := [];
    assert none + [token] == [token];
    FilterPush(KeptTokens(root), none, token);
  }

  /** Dropping everything keeps every unmanaged token that is not a bare flag, in order. */
  lemma {:induction false} DroppingKeepsTheRest(args: seq<string>, root: string)
    ensures Filter(KeptTokens(root), Rewrite(args, root, DropAll())) == Filter(KeptTokens(root), args)
  {
    hide Names, BareFlag, RewriteOne, Filter;
    if args != [] {
      var init, last := args[..|args| - 1], args[|args| - 1];
      DroppingKeepsTheRest(init, root);
      DropStepKeeps(Rewrite(init, root, DropAll()), last, root);
      assert args == init + [last];
      FilterAppend(KeptTokens(root), init, [last]);
    }
  }

  /** Arguments that name nothing managed are left as they are. */
  lemma {:induction false} UnmanagedIsUntouched(args: seq<string>, root: string, map_: Mapping)
    requires forall i :: 0 <= i < |args| ==> Names(args[i], root).Unmanaged?
    ensures Rewrite(args, root, map_) == args
  {
    if args != [] {
      UnmanagedIsUntouched(args[..|args| - 1], root, map_);
    }
  }

  /** Dropping twice drops nothing more. */
  lemma DroppingIsIdempotent(args: seq<string>, root: string)
    ensures var out := Rewrite(args, root, DropAll()); Rewrite(out, root, DropAll()) == out
  {
    forall i | 0 <= i < |Rewrite(args, root, DropAll())|
      ensures Names(Rewrite(args, root, DropAll())[i], root).Unmanaged?
    {
      DroppingLeavesNoManaged(args, root, i);
    }
    UnmanagedIsUntouched(Rewrite(args, root, DropAll()), root, DropAll());
  }

  // ---- What the documentation promises -------------------------------------------------------

  predicate DroppedPath(token: string, root: string, map_: Mapping) {
    Names(token, root).Path? && map_(token).None?
  }

  /** An agent's own flag that would take the next token as its value. */
  predicate OwnFlag(token: string, root: string) { Names(token, root).Unmanaged? && BareFlag(token) }

  function Token(token: string, root: string, map_: Mapping): seq<string> {
    match Names(token, root)
    case Unmanaged => [token]
    case Path => (match map_(token) case Some(to) => [to] case None => [])
    case Inline(flag, value) => (match map_(value) case Some(to) => [flag + "=" + to] case None => [])
  }

  /** Every token for itself, except that a flag goes with the dropped path right after it. */
  function Documented(args: seq<string>, root: string, map_: Mapping): seq<string> {
    if args == [] then []
    else if |args| > 1 && OwnFlag(args[0], root) && DroppedPath(args[1], root, map_)
    then Documented(args[1..], root, map_)
    else Token(args[0], root, map_) + Documented(args[1..], root, map_)
  }

  lemma {:induction false} DocumentedSnoc(args: seq<string>, last: string, root: string, map_: Mapping)
    ensures var before, after := Documented(args, root, map_), Documented(args + [last], root, map_);
      if args != [] && OwnFlag(args[|args| - 1], root) && DroppedPath(last, root, map_)
      then before == after + [args[|args| - 1]]
      else after == before + Token(last, root, map_)
  {
    hide Names, BareFlag;
    if args == [] {
      assert Documented([last][1..], root, map_) == [];
    } else {
      DocumentedSnoc(args[1..], last, root, map_);
      assert (args + [last])[1..] == args[1..] + [last];
      if |args| == 1 {
        assert args[1..] == [] && args == [args[0]];
      }
    }
  }

  /**
   * Token `i` is a dropped path right after another managed token, while the last token kept so far
   * is a flag that has nothing to do with it.
   */
  predicate Strays(args: seq<string>, i: nat, root: string, map_: Mapping)
    requires i < |args|
  {
    && i > 0 && DroppedPath(args[i], root, map_) && !Names(args[i - 1], root).Unmanaged?
    && var kept := Documented(args[..i], root, map_);
       kept != [] && BareFlag(kept[|kept| - 1])
  }

  predicate AnyStrays(args: seq<string>, root: string, map_: Mapping) {
    exists i :: 0 <= i < |args| && Strays(args, i, root, map_)
  }

  lemma AnyStraysSnoc(args: seq<string>, last: string, root: string, map_: Mapping)
    ensures AnyStrays(args + [last], root, map_)
      <==> AnyStrays(args, root, map_) || Strays(args + [last], |args|, root, map_)
  {
    var more := args + [last];
    forall i | 0 <= i < |args| ensures Strays(args, i, root, map_) == Strays(more, i, root, map_) {
      assert more[..i] == args[..i];
    }
  }

  lemma EndsInUnmanaged(args: seq<string>, root: string, map_: Mapping)
    requires args != [] && Names(args[|args| - 1], root).Unmanaged?
    ensures var out := Rewrite(args, root, map_); out != [] && out[|out| - 1] == args[|args| - 1]
  {
    hide BareFlag, Names;
  }

  /** Having lost a documented token, the rewrite never gets it back. */
  lemma LossPersists(args: seq<string>, last: string, root: string, map_: Mapping)
    requires |Rewrite(args, root, map_)| < |Documented(args, root, map_)|
    ensures |RewriteOne(Rewrite(args, root, map_), last, root, map_)| < |Documented(args + [last], root, map_)|
  {
    hide Names, Documented, Rewrite, BareFlag;
    DocumentedSnoc(args, last, root, map_);
    if args != [] && OwnFlag(args[|args| - 1], root) {
      EndsInUnmanaged(args, root, map_);
    }
  }

  /** A rewrite that agrees so far loses a documented token exactly when the next token strays. */
  lemma NextLoss(args: seq<string>, last: string, root: string, map_: Mapping)
    requires Rewrite(args, root, map_) == Documented(args, root, map_)
    ensures var after := RewriteOne(Rewrite(args, root, map_), last, root, map_);
      var doc := Documented(args + [last], root, map_);
      if Strays(args + [last], |args|, root, map_) then |after| < |doc| else after == doc
  {
    hide Names, Documented, Rewrite, BareFlag;
    DocumentedSnoc(args, last, root, map_);
    assert (args + [last])[..|args|] == args;
    if args != [] {
      assert (args + [last])[|args| - 1] == args[|args| - 1];
      if Names(args[|args| - 1], root).Unmanaged? {
        EndsInUnmanaged(args, root, map_);
      }
    } else {
      assert Rewrite([], root, map_) == [] by {
        UnmanagedIsUntouched([], root, map_);
      }
    }
  }

  lemma {:induction false} RewriteAgainstDocumented(args: seq<string>, root: string, map_: Mapping)
    ensures if AnyStrays(args, root, map_)
      then |Rewrite(args, root, map_)| < |Documented(args, root, map_)|
      else Rewrite(args, root, map_) == Documented(args, root, map_)
  {
    if args != [] {
      var init, last := args[..|args| - 1], args[|args| - 1];
      assert args == init + [last];
      RewriteAgainstDocumented(init, root, map_);
      AnyStraysSnoc(init, last, root, map_);
      hide AnyStrays, Documented, Strays, RewriteOne;
      if AnyStrays(init, root, map_) {
        LossPersists(init, last, root, map_);
      } else {
        NextLoss(init, last, root, map_);
      }
    }
  }

  /** The code keeps the documented tokens exactly when no dropped path strays. */
  lemma RewriteIsDocumentedIff(args: seq<string>, root: string, map_: Mapping)
    ensures Rewrite(args, root, map_) == Documented(args, root, map_) <==> !AnyStrays(args, root, map_)
  {
    RewriteAgainstDocumented(args, root, map_);
  }

  lemma RewriteSnoc(args: seq<string>, last: string, root: string, map_: Mapping)
    ensures Rewrite(args + [last], root, map_) == RewriteOne(Rewrite(args, root, map_), last, root, map_)
  {
    assert (args + [last])[..|args|] == args;
  }

  lemma FlagIsKept(out: seq<string>, f: string, root: string, map_: Mapping)
    requires OwnFlag(f, root)
    ensures RewriteOne(out, f, root, map_) == out + [f]
  {
    hide Names, BareFlag;
  }

  lemma FlagGoesWithPath(out: seq<string>, f: string, path: string, root: string, map_: Mapping)
    requires BareFlag(f) && DroppedPath(path, root, map_)
    ensures RewriteOne(out + [f], path, root, map_) == out
  {
    hide Names, BareFlag;
    assert (out + [f])[..|out|] == out;
  }

  /** The token before a dropped path goes with it exactly when it is a flag without a value of its own. */
  lemma FlagGoesIff(args: seq<string>, f: string, path: string, root: string, map_: Mapping)
    requires Names(f, root).Unmanaged? && PathUnderRoot(path, root) && map_(path).None?
    ensures Rewrite(args + [f, path], root, map_) ==
      if f != "" && f[0] == '-' && '=' !in f then Rewrite(args, root, map_) else Rewrite(args, root, map_) + [f]
  {
    RewriteSnoc(args, f, root, map_);
    RewriteSnoc(args + [f], path, root, map_);
    assert args + [f] + [path] == args + [f, path];
    NamesCases(path, root);
    hide Rewrite, Names, PathUnderRoot;
    var out := Rewrite(args, root, map_);
    assert (out + [f])[..|out|] == out;
  }

  lemma TwoFlagsDropped(f: string, g: string, path: string, root: string, map_: Mapping)
    requires OwnFlag(f, root) && OwnFlag(g, root) && DroppedPath(path, root, map_)
    ensures Rewrite([f, g, path, path], root, map_) == []
  {
    assert Rewrite([], root, map_) == [];
    hide Rewrite, RewriteOne, BareFlag, Names;
    RewriteSnoc([], f, root, map_);
    FlagIsKept([], f, root, map_);
    RewriteSnoc([f], g, root, map_);
    FlagIsKept([f], g, root, map_);
    assert [] + [f] == [f] && [f] + [g] == [f, g];
    RewriteSnoc([f, g], path, root, map_);
    FlagGoesWithPath([f], g, path, root, map_);
    assert [f, g] + [path] == [f, g, path];
    RewriteSnoc([f, g, path], path, root, map_);
    FlagGoesWithPath([], f, path, root, map_);
    assert [f, g, path] + [path] == [f, g, path, path];
  }

  lemma OneFlagDocumented(f: string, g: string, path: string, root: string, map_: Mapping)
    requires OwnFlag(f, root) && OwnFlag(g, root) && DroppedPath(path, root, map_)
    ensures Documented([f, g, path, path], root, map_) == [f]
  {
    hide Names, BareFlag;
    assert Documented([], root, map_) == [];
    DocumentedSnoc([], f, root, map_);
    DocumentedSnoc([f], g, root, map_);
    DocumentedSnoc([f, g], path, root, map_);
    DocumentedSnoc([f, g, path], path, root, map_);
    hide Documented;
    assert [] + [f] == [f] && [f] + [g] == [f, g] && [f, g] + [path] == [f, g, path];
    assert [f, g, path] + [path] == [f, g, path, path];
  }

  /** Two dropped paths in a row take two flags: the first flag had nothing to do with either. */
  lemma UnrelatedFlagIsLost(f: string, g: string, path: string, root: string, map_: Mapping)
    requires OwnFlag(f, root) && OwnFlag(g, root) && DroppedPath(path, root, map_)
    ensures Rewrite([f, g, path, path], root, map_) == [] && Documented([f, g, path, path], root, map_) == [f]
  {
    hide Names, BareFlag, Rewrite, Documented;
    TwoFlagsDropped(f, g, path, root, map_);
    OneFlagDocumented(f, g, path, root, map_);
  }
}

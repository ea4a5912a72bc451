/** Names of workspace directories and of the links in them. */
module WorkspaceNames {
  import opened Ordered

  /** Which characters count as white space; a dash does not. */
  type Spaces = s: char -> bool | !s('-') witness _ => false

  // ---- One safe segment --------------------------------------------------------------------

  function TrimEnd(drop: char -> bool, s: string): (r: string)
    ensures |r| <= |s| && r == s[..|r|]
    ensures r != "" ==> !drop(r[|r| - 1])
    ensures s != "" && !drop(s[|s| - 1]) ==> r == s
  {
    if s != "" && drop(s[|s| - 1]) then TrimEnd(drop, s[..|s| - 1]) else s
  }

  function TrimStart(drop: char -> bool, s: string): (r: string)
    ensures |r| <= |s| && r == s[|s| - |r|..]
    ensures r != "" ==> !drop(r[0])
    ensures s != "" && !drop(s[0]) ==> r == s
  {
    if s != "" && drop(s[0]) then TrimStart(drop, s[1..]) else s
  }

  lemma {:induction false} TrimEndDrops(drop: char -> bool, s: string, i: nat)
    requires |TrimEnd(drop, s)| <= i < |s|
    ensures drop(s[i])
  {
    if i < |s| - 1 {
      TrimEndDrops(drop, s[..|s| - 1], i);
    }
  }

  lemma {:induction false} TrimStartDrops(drop: char -> bool, s: string, i: nat)
    requires i < |s| - |TrimStart(drop, s)|
    ensures drop(s[i])
  {
    if i > 0 {
      TrimStartDrops(drop, s[1..], i - 1);
    }
  }

  /** `s` without the dropped characters at either end. */
  function Trim(drop: char -> bool, s: string): string { TrimStart(drop, TrimEnd(drop, s)) }

  /** Trimming leaves a middle part, with nothing to drop at its ends. */
  lemma TrimmedIsMiddle(drop: char -> bool, s: string) returns (lo: nat)
    ensures var r := Trim(drop, s);
      lo + |r| <= |s| && r == s[lo..lo + |r|] && (r != "" ==> !drop(r[0]) && !drop(r[|r| - 1]))
    ensures forall i :: 0 <= i < lo || lo + |Trim(drop, s)| <= i < |s| ==> drop(s[i])
  {
    hide TrimStart, TrimEnd;
    var e := TrimEnd(drop, s);
    var r := TrimStart(drop, e);
    lo := |e| - |r|;
    assert s[..|e|][lo..] == s[lo..lo + |r|];
    assert r != "" ==> r[|r| - 1] == e[|e| - 1];
    forall i | 0 <= i < lo || lo + |r| <= i < |s| ensures drop(s[i]) {
      if i < lo {
        TrimStartDrops(drop, e, i);
      } else {
        TrimEndDrops(drop, s, i);
      }
    }
  }

  lemma TrimmedAlready(drop: char -> bool, s: string)
    requires s == "" || (!drop(s[0]) && !drop(s[|s| - 1]))
    ensures Trim(drop, s) == s
  {}

  predicate IsSeparator(c: char) { c == '/' || c == '\\' || c == ':' }

  predicate DotOrDash(c: char) { c == '.' || c == '-' }

  function Clean(space: Spaces, c: char): char { if IsSeparator(c) || space(c) then '-' else c }

  function CleanAll(space: Spaces, s: string): string { seq(|s|, i requires 0 <= i < |s| => Clean(space, s[i])) }

  /** A display name reduced to one path segment. */
  function SanitizeWorkspaceSegment(space: Spaces, name: string): string {
    Trim(DotOrDash, CleanAll(space, Trim(space, name)))
  }

  predicate NoSeparator(s: string) { forall i :: 0 <= i < |s| ==> !IsSeparator(s[i]) }

  predicate NoSpace(space: Spaces, s: string) { forall i :: 0 <= i < |s| ==> !space(s[i]) }

  /** A name that stays inside the directory it is put in. */
  predicate IsSegment(s: string) { s != "" && s != "." && s != ".." && NoSeparator(s) }

  lemma SanitizedShape(space: Spaces, name: string)
    ensures var s := SanitizeWorkspaceSegment(space, name);
      && NoSeparator(s) && NoSpace(space, s)
      && (s != "" ==> !DotOrDash(s[0]) && !DotOrDash(s[|s| - 1]))
  {
    hide Trim;
    var cleaned := CleanAll(space, Trim(space, name));
    assert NoSeparator(cleaned) && NoSpace(space, cleaned);
    hide CleanAll;
    var lo := TrimmedIsMiddle(DotOrDash, cleaned);
    var s := Trim(DotOrDash, cleaned);
    forall i | 0 <= i < |s| ensures s[i] == cleaned[lo + i] {}
  }

  lemma CleanIsUnchanged(space: Spaces, s: string)
    requires NoSeparator(s) && NoSpace(space, s)
    ensures CleanAll(space, s) == s
  {}

  /** A sanitized name is empty or one segment, holds no white space, and sanitizing it again changes nothing. */
  lemma SanitizedIsSegment(space: Spaces, name: string)
    ensures var s := SanitizeWorkspaceSegment(space, name);
      (s == "" || IsSegment(s)) && NoSpace(space, s) && SanitizeWorkspaceSegment(space, s) == s
  {
    var s := SanitizeWorkspaceSegment(space, name);
    SanitizedShape(space, name);
    CleanIsUnchanged(space, s);
    TrimmedAlready(space, s);
    TrimmedAlready(DotOrDash, s);
    hide Trim, CleanAll;
  }

  /** What sanitizing drops at either end: white space, dots, dashes, and separators, which become dashes. */
  predicate Droppable(space: Spaces, c: char) { space(c) || c == '.' || c == '-' || c == '/' || c == '\\' || c == ':' }

  /**
   * A sanitized name is the middle of the name, with separators and white space turned into dashes;
   * everything before and behind it is dropped for what it is.
   */
  lemma SanitizedIsMiddle(space: Spaces, name: string) returns (lo: nat)
    ensures var s := SanitizeWorkspaceSegment(space, name);
      && lo + |s| <= |name|
      && (forall i :: 0 <= i < |s| ==>
            s[i] == if name[lo + i] in {'/', '\\', ':'} || space(name[lo + i]) then '-' else name[lo + i])
      && forall i :: 0 <= i < lo || lo + |s| <= i < |name| ==> Droppable(space, name[i])
  {
    hide Trim;
    var outer := Trim(space, name);
    var a := TrimmedIsMiddle(space, name);
    var cleaned := CleanAll(space, outer);
    var b := TrimmedIsMiddle(DotOrDash, cleaned);
    var s := SanitizeWorkspaceSegment(space, name);
    lo := a + b;
    forall i | 0 <= i < |cleaned| ensures outer[i] == name[a + i] && cleaned[i] == Clean(space, name[a + i]) {}
    forall i | 0 <= i < |s| ensures s[i] == cleaned[b + i] {}
    hide SanitizeWorkspaceSegment, CleanAll;
    forall i | 0 <= i < lo || lo + |s| <= i < |name| ensures Droppable(space, name[i]) {
      if a <= i < a + |outer| {
        assert DotOrDash(cleaned[i - a]);
      }
    }
  }

  /** So a name with nothing to drop at its ends and nothing to replace is left as it is. */
  lemma CleanNameIsKept(space: Spaces, name: string)
    requires name != "" && NoSeparator(name) && NoSpace(space, name)
    requires !Droppable(space, name[0]) && !Droppable(space, name[|name| - 1])
    ensures SanitizeWorkspaceSegment(space, name) == name
  {
    var lo := SanitizedIsMiddle(space, name);
    hide SanitizeWorkspaceSegment, Droppable;
  }

  // ---- Numbers -----------------------------------------------------------------------------

  function Digit(d: nat): char
    requires d < 10
  {
    "0123456789"[d]
  }

  lemma DigitsDiffer(a: nat, b: nat)
    requires a < 10 && b < 10 && Digit(a) == Digit(b)
    ensures a == b
  {}

  function Decimal(n: nat): (s: string)
    ensures s != "" && forall i :: 0 <= i < |s| ==> s[i] in "0123456789"
  {
    if n < 10 then [Digit(n)] else Decimal(n / 10) + [Digit(n % 10)]
  }

  /** The number a string of digits stands for. */
  function Value(s: string): int {
    if s == "" then 0 else Value(s[..|s| - 1]) * 10 + (s[|s| - 1] as int - '0' as int)
  }

  /** Decimals read back as their numbers, and have no leading zero. */
  lemma {:induction false} DecimalReads(n: nat)
    ensures Value(Decimal(n)) == n && (n > 0 ==> Decimal(n)[0] != '0')
  {
    if n >= 10 {
      DecimalReads(n / 10);
      assert Decimal(n)[..|Decimal(n)| - 1] == Decimal(n / 10);
    } else {
      assert [Digit(n)][..0] == "";
    }
  }

  lemma {:induction false} DecimalsDiffer(a: nat, b: nat)
    requires Decimal(a) == Decimal(b)
    ensures a == b
  {
    var s, t := Decimal(a), Decimal(b);
    assert s[|s| - 1] == Digit(a % 10) && t[|t| - 1] == Digit(b % 10);
    DigitsDiffer(a % 10, b % 10);
    if a >= 10 && b >= 10 {
      assert Decimal(a / 10) == s[..|s| - 1] && Decimal(b / 10) == t[..|t| - 1];
      DecimalsDiffer(a / 10, b / 10);
    }
  }

  // ---- Unique names ------------------------------------------------------------------------

  function Base(space: Spaces, name: string): string {
    var s := SanitizeWorkspaceSegment(space, name);
    if s == "" then "repo" else s
  }

  function Candidate(base: string, n: nat): string { base + "-" + Decimal(n) }

  lemma CandidatesDiffer(base: string, m: nat, n: nat)
    requires Candidate(base, m) == Candidate(base, n)
    ensures m == n
  {
    assert Decimal(m) == Candidate(base, m)[|base| + 1..] && Decimal(n) == Candidate(base, n)[|base| + 1..];
    DecimalsDiffer(m, n);
  }

  /** The base name if it is free, else the least free suffix from 2; the suffix is bounded by what is used. */
  predicate IsUnique(base: string, used: set<string>, link: string) {
    if base !in used then link == base
    else exists n :: 2 <= n <= |used| + 1 && IsLeastFree(base, used, link, n)
  }

  predicate IsLeastFree(base: string, used: set<string>, link: string, n: nat) {
    link == Candidate(base, n) && link !in used && forall m :: 2 <= m < n ==> Candidate(base, m) in used
  }

  method UniqueLinkName(space: Spaces, name: string, used: set<string>) returns (link: string, nowUsed: set<string>)
    ensures IsUnique(Base(space, name), used, link)
    ensures link !in used && nowUsed == used + {link}
  {
    hide Decimal, SanitizeWorkspaceSegment;
    var base := Base(space, name);
    if base !in used {
      return base, used + {base};
    }
    var n := 2;
    ghost var untried := used;
    while true
      invariant 2 <= n && |untried| + n - 2 == |used|
      invariant forall m :: 2 <= m < n ==> Candidate(base, m) in used
      invariant forall x :: x in used && (forall m :: 2 <= m < n ==> x != Candidate(base, m)) ==> x in untried
      invariant base in untried
      decreases |untried|
    {
      var candidate := Candidate(base, n);
      if candidate !in used {
        SizeOfMember(untried, base);
        assert IsLeastFree(base, used, candidate, n);
        return candidate, used + {candidate};
      }
      forall m | 2 <= m < n ensures candidate != Candidate(base, m) {
        if candidate == Candidate(base, m) {
          CandidatesDiffer(base, m, n);
        }
      }
      untried := untried - {candidate};
      n := n + 1;
    }
  }

  lemma SizeOfMember<T>(s: set<T>, x: T)
    requires x in s
    ensures |s| >= 1
  {
    SubsetIsNoLarger({x}, s);
  }

  lemma CandidateIsSegment(base: string, n: nat)
    requires IsSegment(base)
    ensures IsSegment(Candidate(base, n))
  {
    var digits, link := Decimal(n), Candidate(base, n);
    assert forall c :: c in "0123456789" ==> !IsSeparator(c);
    assert NoSeparator(digits);
    hide Decimal;
    assert |link| >= 3;
  }

  lemma BaseIsSegment(space: Spaces, name: string)
    ensures IsSegment(Base(space, name))
  {
    hide SanitizeWorkspaceSegment;
    SanitizedIsSegment(space, name);
    assert IsSegment("repo");
    hide IsSegment;
  }

  /** A unique name is a segment no name in use bears. */
  lemma UniqueIsSegment(space: Spaces, name: string, used: set<string>, link: string)
    requires IsUnique(Base(space, name), used, link)
    ensures IsSegment(link) && link !in used
  {
    hide SanitizeWorkspaceSegment, Candidate, IsSegment, Base;
    BaseIsSegment(space, name);
    var base := Base(space, name);
    if base in used {
      var n :| 2 <= n <= |used| + 1 && IsLeastFree(base, used, link, n);
      CandidateIsSegment(base, n);
    }
  }

  /** There is only one such name: the search is a function of the name and of what is in use. */
  lemma UniqueIsDetermined(base: string, used: set<string>, a: string, b: string)
    requires IsUnique(base, used, a) && IsUnique(base, used, b)
    ensures a == b
  {
    if base in used {
      var m :| 2 <= m <= |used| + 1 && IsLeastFree(base, used, a, m);
      var n :| 2 <= n <= |used| + 1 && IsLeastFree(base, used, b, n);
    }
  }
}

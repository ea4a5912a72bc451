/** Well-formed UTF-8 byte strings, by the grammar in section 4 of RFC 3629. */
module Utf8 {
  import opened Common

  type byte = b: int | 0 <= b < 256

  /** A continuation byte (`UTF8-tail`). */
  predicate IsCont(b: byte) { 0x80 <= b <= 0xBF }

  /** The lead and second byte of a `UTF8-3` character. */
  predicate ThreeByteHead(lead: byte, second: byte) {
    IsCont(second) && 0xE0 <= lead <= 0xEF
    && (lead == 0xE0 ==> 0xA0 <= second)
    && (lead == 0xED ==> second <= 0x9F)
  }

  /** The lead and second byte of a `UTF8-4` character. */
  predicate FourByteHead(lead: byte, second: byte) {
    IsCont(second) && 0xF0 <= lead <= 0xF4
    && (lead == 0xF0 ==> 0x90 <= second)
    && (lead == 0xF4 ==> second <= 0x8F)
  }

  /** The length of the well-formed character `s` begins with; 0 when it begins with none. */
  function CharLen(s: seq<byte>): (n: nat)
    ensures n <= |s|
  {
    if |s| >= 1 && s[0] <= 0x7F then 1
    else if |s| >= 2 && 0xC2 <= s[0] <= 0xDF && IsCont(s[1]) then 2
    else if |s| >= 3 && ThreeByteHead(s[0], s[1]) && IsCont(s[2]) then 3
    else if |s| >= 4 && FourByteHead(s[0], s[1]) && IsCont(s[2]) && IsCont(s[3]) then 4
    else 0
  }

  predicate WellFormed(s: seq<byte>)
    decreases |s|
  {
    s == [] || (CharLen(s) > 0 && WellFormed(s[CharLen(s)..]))
  }

  /** The characters of a well-formed string, one byte string each. */
  function Chars(s: seq<byte>): seq<seq<byte>>
    requires WellFormed(s)
    decreases |s|
  {
    if s == [] then [] else [s[..CharLen(s)]] + Chars(s[CharLen(s)..])
  }

  /** `k` is the end of the string or the offset of a byte that starts a character. */
  predicate Boundary(s: seq<byte>, k: nat) {
    k == |s| || k == 0 || (k < |s| && !IsCont(s[k]))
  }

  lemma CharLenPrefix(s: seq<byte>, t: seq<byte>)
    requires CharLen(s) > 0
    ensures CharLen(s + t) == CharLen(s)
  {}

  /** A well-formed string splits, at any boundary, into two well-formed strings. */
  lemma {:induction false} SplitAtBoundary(s: seq<byte>, k: nat)
    requires WellFormed(s) && k <= |s| && Boundary(s, k)
    ensures WellFormed(s[..k]) && WellFormed(s[k..])
    decreases |s|
  {
    var n := CharLen(s);
    if k == 0 {
      assert s[0..] == s && s[..0] == [];
    } else {
      assert n <= k;
      SplitAtBoundary(s[n..], k - n);
      assert s[n..][..k - n] == s[..k][n..] && s[n..][k - n..] == s[k..];
      CharLenWithin(s, k);
    }
  }

  lemma CharLenWithin(s: seq<byte>, k: nat)
    requires CharLen(s) <= k <= |s|
    ensures CharLen(s[..k]) == CharLen(s)
  {
    if |s| > 0 && k == 0 {
    }
  }

  lemma {:induction false} ConcatWellFormed(a: seq<byte>, b: seq<byte>)
    requires WellFormed(a) && WellFormed(b)
    ensures WellFormed(a + b)
    decreases |a|
  {
    if a == [] {
      assert a + b == b;
    } else {
      var n := CharLen(a);
      CharLenPrefix(a, b);
      assert (a + b)[n..] == a[n..] + b;
      ConcatWellFormed(a[n..], b);
    }
  }

  /** Well-formed pieces lose no character at their seams. */
  lemma {:induction false} CharsOfPieces(pieces: seq<seq<byte>>)
    requires forall p :: p in pieces ==> WellFormed(p)
    ensures WellFormed(Flatten(pieces))
    ensures Chars(Flatten(pieces)) == Flatten(seq(|pieces|, i requires 0 <= i < |pieces| => Chars(pieces[i])))
  {
    var parts := seq(|pieces|, i requires 0 <= i < |pieces| => Chars(pieces[i]));
    if pieces != [] {
      var init, last := pieces[..|pieces| - 1], pieces[|pieces| - 1];
      CharsOfPieces(init);
      ConcatWellFormed(Flatten(init), last);
      CharsAppend(Flatten(init), last);
      assert parts[..|parts| - 1] == seq(|init|, i requires 0 <= i < |init| => Chars(init[i]));
    }
  }

  lemma {:induction false} CharsAppend(a: seq<byte>, b: seq<byte>)
    requires WellFormed(a) && WellFormed(b) && WellFormed(a + b)
    ensures Chars(a + b) == Chars(a) + Chars(b)
    decreases |a|
  {
    if a == [] {
      assert a + b == b;
      assert Chars(a) == [];
    } else {
      var n := CharLen(a);
      CharLenPrefix(a, b);
      hide CharLen;
      assert (a + b)[n..] == a[n..] + b && (a + b)[..n] == a[..n];
      CharsAppend(a[n..], b);
    }
  }

  /** How many bytes the lead byte `b` announces. */
  function Announced(b: byte): (n: nat)
  {
    if b <= 0x7F then 1 else if b <= 0xDF then 2 else if b <= 0xEF then 3 else 4
  }

  /** A continuation byte of a well-formed string has its lead at most three bytes before it. */
  lemma {:induction false} LeadBefore(s: seq<byte>, p: nat) returns (i: nat)
    requires WellFormed(s) && p < |s| && IsCont(s[p])
    ensures i < p <= i + 3 && !IsCont(s[i]) && Announced(s[i]) > p - i
    ensures forall j :: i < j <= p ==> IsCont(s[j])
    decreases |s|
  {
    var n := CharLen(s);
    if p < n {
      i := 0;
    } else {
      var i' := LeadBefore(s[n..], p - n);
      i := n + i';
      forall j | i < j <= p ensures IsCont(s[j]) {
        assert s[j] == s[n..][j - n];
      }
    }
  }
}

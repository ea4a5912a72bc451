/** Well-formed UTF-8 is exactly what encoding characters gives: section 4 of RFC 3629 against its section 3. */
module Utf8Encoding {
  import opened Utf8

  /** A Unicode scalar value. */
  type Scalar = c: int | 0 <= c <= 0x10FFFF && !(0xD800 <= c <= 0xDFFF)

  /** A continuation byte with the lowest six bits of `n`. */
  function SixBits(n: nat): (r: byte)
    ensures IsCont(r) && r == 0x80 + n % 0x40
  {
    0x80 + n % 0x40
  }

  /** The octets of one character, by section 3 of RFC 3629. */
  function Encode(c: Scalar): seq<byte> {
    if c < 0x80 then [c]
    else if c < 0x800 then [0xC0 + c / 0x40, SixBits(c)]
    else if c < 0x1_0000 then [0xE0 + c / 0x1000, SixBits(c / 0x40), SixBits(c)]
    else [0xF0 + c / 0x4_0000, SixBits(c / 0x1000), SixBits(c / 0x40), SixBits(c)]
  }

  function EncodeAll(cs: seq<Scalar>): seq<byte> {
    if cs == [] then [] else Encode(cs[0]) + EncodeAll(cs[1..])
  }

  /** An encoded character is one character, as long as its lead announces. */
  lemma EncodedIsChar(c: Scalar)
    ensures CharLen(Encode(c)) == |Encode(c)| > 0 && Announced(Encode(c)[0]) == |Encode(c)|
  {
    hide SixBits;
    HeadsAreValid(c);
    hide FourByteHead;
    var s := Encode(c);
    if 0x80 <= c < 0x800 {
      assert 0xC2 <= s[0] <= 0xDF;
    } else if 0x800 <= c < 0x1_0000 {
      assert ThreeByteHead(s[0], s[1]) && 0xE0 <= s[0] <= 0xEF;
    } else if 0x1_0000 <= c {
      assert FourByteHead(s[0], s[1]) && 0xF0 <= s[0];
    }
  }

  lemma HeadsAreValid(c: Scalar)
    ensures 0x800 <= c < 0x1_0000 ==> ThreeByteHead(0xE0 + c / 0x1000, SixBits(c / 0x40))
    ensures 0x1_0000 <= c ==> FourByteHead(0xF0 + c / 0x4_0000, SixBits(c / 0x1000))
  {
  }

  /** What the grammar takes for a character is one encoded. */
  lemma CharIsEncoded(s: seq<byte>) returns (c: Scalar)
    requires CharLen(s) > 0
    ensures Encode(c) == s[..CharLen(s)]
  {
    match CharLen(s) {
      case 1 => c := s[0];
      case 2 => c := TwoByteScalar(s[0], s[1]);
      case 3 => c := ThreeByteScalar(s[0], s[1], s[2]);
      case _ => c := FourByteScalar(s[0], s[1], s[2], s[3]);
    }
  }

  lemma TwoByteScalar(a: byte, b: byte) returns (c: Scalar)
    requires 0xC2 <= a <= 0xDF && IsCont(b)
    ensures Encode(c) == [a, b]
  {
    var lead: int, tail: int := a, b;
    c := (lead - 0xC0) * 0x40 + (tail - 0x80);
  }

  lemma ThreeByteScalar(a: byte, b: byte, d: byte) returns (c: Scalar)
    requires ThreeByteHead(a, b) && IsCont(d)
    ensures Encode(c) == [a, b, d]
  {
    c := (a - 0xE0) * 0x1000 + (b - 0x80) * 0x40 + (d - 0x80);
    assert c / 0x40 == (a - 0xE0) * 0x40 + (b - 0x80);
  }

  lemma FourByteScalar(a: byte, b: byte, d: byte, e: byte) returns (c: Scalar)
    requires FourByteHead(a, b) && IsCont(d) && IsCont(e)
    ensures Encode(c) == [a, b, d, e]
  {
    var w: int, x: int, y: int, z: int := a - 0xF0, b - 0x80, d - 0x80, e - 0x80;
    var high, all := w * 0x40 + x, ((w * 0x40 + x) * 0x40 + y) * 0x40 + z;
    assert 0x10 <= high <= 0x10F && 0 <= y < 0x40 && 0 <= z < 0x40;
    hide FourByteHead;
    assert all / 0x40 == high * 0x40 + y && all / 0x1000 == high && all / 0x4_0000 == w;
    c := all;
  }

  /** Encoded characters are well-formed, and are read back one by one. */
  lemma {:induction false} EncodedIsWellFormed(cs: seq<Scalar>)
    ensures WellFormed(EncodeAll(cs))
    ensures Chars(EncodeAll(cs)) == seq(|cs|, i requires 0 <= i < |cs| => Encode(cs[i]))
  {
    if cs != [] {
      var first, rest := Encode(cs[0]), EncodeAll(cs[1..]);
      EncodedIsChar(cs[0]);
      CharLenPrefix(first, rest);
      hide CharLen, Encode;
      EncodedIsWellFormed(cs[1..]);
      assert (first + rest)[|first|..] == rest && (first + rest)[..|first|] == first;
    }
  }

  /** Well-formed strings are exactly the encodings of characters. */
  lemma {:induction false} WellFormedIsEncoded(s: seq<byte>) returns (cs: seq<Scalar>)
    requires WellFormed(s)
    ensures EncodeAll(cs) == s
    decreases |s|
  {
    if s == [] {
      cs := [];
    } else {
      var c := CharIsEncoded(s);
      hide Encode;
      var rest := WellFormedIsEncoded(s[CharLen(s)..]);
      cs := [c] + rest;
      assert s == s[..CharLen(s)] + s[CharLen(s)..];
    }
  }
}

/** Bytes and UTF-8 well-formedness (sections 3 and 4 of RFC 3629). */
module Utf8 {

  type byte = x: int | 0 <= x < 256

  predicate Continuation(b: byte) {
    0x80 <= b <= 0xBF
  }

  predicate Tails(s: seq<byte>, n: nat)
    requires n <= 3
  {
    n < |s| && forall i :: 1 <= i <= n ==> Continuation(s[i])
  }

  /** Length of the well-formed character that `s` starts with; 0 when there is none. */
  function CharLength(s: seq<byte>): (n: nat)
    ensures n <= 4 && n <= |s|
    ensures n > 0 ==> !Continuation(s[0]) && forall i :: 1 <= i < n ==> Continuation(s[i])
  {
    if s == [] then 0
    else if s[0] <= 0x7F then 1
    else if 0xC2 <= s[0] <= 0xDF && Tails(s, 1) then 2
    else if s[0] == 0xE0 && Tails(s, 2) && 0xA0 <= s[1] then 3
    else if 0xE1 <= s[0] <= 0xEC && Tails(s, 2) then 3
    else if s[0] == 0xED && Tails(s, 2) && s[1] <= 0x9F then 3
    else if 0xEE <= s[0] <= 0xEF && Tails(s, 2) then 3
    else if s[0] == 0xF0 && Tails(s, 3) && 0x90 <= s[1] then 4
    else if 0xF1 <= s[0] <= 0xF3 && Tails(s, 3) then 4
    else if s[0] == 0xF4 && Tails(s, 3) && s[1] <= 0x8F then 4
    else 0
  }

  // ----- Characters as code points -----

  /** A Unicode scalar value: no surrogate, and at most 10FFFF. */
  predicate Scalar(c: nat) {
    c < 0xD800 || 0xDFFF < c <= 0x10FFFF
  }

  /** The bytes of a scalar value: the shortest form, with six bits in each byte after the first. */
  function Encoding(c: nat): seq<byte>
    requires Scalar(c)
  {
    if c < 0x80 then [c]
    else if c < 0x800 then [0xC0 + c / 64, 0x80 + c % 64]
    else if c < 0x1_0000 then [0xE0 + c / 64 / 64, 0x80 + c / 64 % 64, 0x80 + c % 64]
    else [0xF0 + c / 64 / 64 / 64, 0x80 + c / 64 / 64 % 64, 0x80 + c / 64 % 64, 0x80 + c % 64]
  }

  lemma SixBits(high: nat, low: nat)
    requires low < 64
    ensures (64 * high + low) / 64 == high && (64 * high + low) % 64 == low
  {
  }

  function Packed(high: int, tail: int): int {
    64 * high + (tail - 0x80)
  }

  lemma TwoBytes(s: seq<byte>) returns (c: nat)
    requires CharLength(s) == 2
    ensures Scalar(c) && s[..2] == Encoding(c)
  {
    c := Packed(s[0] - 0xC0, s[1]);
    SixBits(s[0] - 0xC0, s[1] - 0x80);
  }

  lemma ThreeBytes(s: seq<byte>) returns (c: nat)
    requires CharLength(s) == 3
    ensures Scalar(c) && s[..3] == Encoding(c)
  {
    var high := Packed(s[0] - 0xE0, s[1]);
    c := Packed(high, s[2]);
    SixBits(s[0] - 0xE0, s[1] - 0x80);
    SixBits(high, s[2] - 0x80);
  }

  lemma FourBytes(s: seq<byte>) returns (c: nat)
    requires CharLength(s) == 4
    ensures Scalar(c) && s[..4] == Encoding(c)
  {
    var top := Packed(s[0] - 0xF0, s[1]);
    var high := Packed(top, s[2]);
    c := Packed(high, s[3]);
    SixBits(s[0] - 0xF0, s[1] - 0x80);
    SixBits(top, s[2] - 0x80);
    SixBits(high, s[3] - 0x80);
  }

  /** What starts with a character starts with the bytes of a scalar value. */
  lemma CharacterIsScalar(s: seq<byte>) returns (c: nat)
    requires CharLength(s) > 0
    ensures Scalar(c) && s[..CharLength(s)] == Encoding(c)
  {
    if CharLength(s) == 1 {
      c := s[0];
    } else if CharLength(s) == 2 {
      c := TwoBytes(s);
    } else if CharLength(s) == 3 {
      c := ThreeBytes(s);
    } else {
      c := FourBytes(s);
    }
  }

  /** What starts with the bytes of a scalar value starts with a character, of just those bytes. */
  lemma ScalarIsCharacter(s: seq<byte>, c: nat)
    requires Scalar(c) && Encoding(c) <= s
    ensures CharLength(s) == |Encoding(c)|
  {
    var e := Encoding(c);
    assert forall i :: 0 <= i < |e| ==> s[i] == e[i];
  }

  predicate Valid(s: seq<byte>)
    decreases |s|
  {
    s == [] || (CharLength(s) > 0 && Valid(s[CharLength(s)..]))
  }

  /** `str::is_char_boundary` */
  predicate Boundary(s: seq<byte>, i: nat) {
    i == 0 || i == |s| || (i < |s| && !Continuation(s[i]))
  }

  // ----- Text as code points -----

  predicate Scalars(cs: seq<nat>) {
    forall i :: 0 <= i < |cs| ==> Scalar(cs[i])
  }

  function BytesOf(cs: seq<nat>): seq<byte>
    requires Scalars(cs)
  {
    if cs == [] then [] else Encoding(cs[0]) + BytesOf(cs[1..])
  }

  lemma FirstCharacter(cs: seq<nat>)
    requires Scalars(cs) && cs != []
    ensures var s := BytesOf(cs);
            CharLength(s) == |Encoding(cs[0])| > 0 && s[CharLength(s)..] == BytesOf(cs[1..])
  {
    ScalarIsCharacter(BytesOf(cs), cs[0]);
  }

  lemma {:induction false} ScalarsAreValid(cs: seq<nat>)
    requires Scalars(cs)
    ensures Valid(BytesOf(cs))
  {
    if cs != [] {
      FirstCharacter(cs);
      ScalarsAreValid(cs[1..]);
    }
  }

  lemma {:induction false} ValidIsScalars(s: seq<byte>) returns (cs: seq<nat>)
    requires Valid(s)
    ensures Scalars(cs) && BytesOf(cs) == s
    decreases |s|
  {
    if s == [] {
      cs := [];
    } else {
      var c := CharacterIsScalar(s);
      var rest := ValidIsScalars(s[CharLength(s)..]);
      cs := [c] + rest;
      assert cs[1..] == rest && s == s[..CharLength(s)] + s[CharLength(s)..];
    }
  }

  /** Bytes are valid text exactly when they are the bytes of some scalar values, one after the other. */
  lemma ValidExactly(s: seq<byte>)
    ensures Valid(s) <==> exists cs :: Scalars(cs) && BytesOf(cs) == s
  {
    if Valid(s) {
      var cs := ValidIsScalars(s);
    }
    forall cs | Scalars(cs) && BytesOf(cs) == s ensures Valid(s) {
      ScalarsAreValid(cs);
    }
  }

  /** Some of the first characters take exactly `i` bytes. */
  ghost predicate CutsAt(cs: seq<nat>, i: nat)
    requires Scalars(cs)
  {
    exists k :: 0 <= k <= |cs| && |BytesOf(cs[..k])| == i
  }

  lemma LaterCut(cs: seq<nat>, i: nat)
    requires Scalars(cs) && cs != []
    ensures var w := |Encoding(cs[0])|; CutsAt(cs, i) <==> i == 0 || (i >= w && CutsAt(cs[1..], i - w))
  {
    var rest, w := cs[1..], |Encoding(cs[0])|;
    forall k | 1 <= k <= |cs| ensures |BytesOf(cs[..k])| == w + |BytesOf(rest[..k - 1])| {
      assert cs[..k][1..] == rest[..k - 1];
    }
    assert BytesOf(cs[..0]) == [];
    if i >= w && CutsAt(rest, i - w) {
      var k :| 0 <= k <= |rest| && |BytesOf(rest[..k])| == i - w;
      assert |BytesOf(cs[..k + 1])| == i;
    }
    if CutsAt(cs, i) && i > 0 {
      var k :| 0 <= k <= |cs| && |BytesOf(cs[..k])| == i;
      assert |BytesOf(rest[..k - 1])| == i - w;
    }
  }

  lemma LaterBoundary(s: seq<byte>, i: nat)
    requires Valid(s) && s != []
    ensures var w := CharLength(s); Boundary(s, i) <==> i == 0 || (i >= w && Boundary(s[w..], i - w))
  {
    var w := CharLength(s);
    var rest := s[w..];
    assert rest != [] ==> CharLength(rest) > 0;
    if w <= i < |s| { assert rest[i - w] == s[i]; }
  }

  /** The boundaries of a text are exactly the places where one of its characters ends, and its start. */
  lemma {:induction false} BoundaryExactly(cs: seq<nat>, i: nat)
    requires Scalars(cs)
    ensures Boundary(BytesOf(cs), i) <==> CutsAt(cs, i)
    decreases |cs|
  {
    if cs == [] {
      assert cs[..0] == [];
      if i == 0 { assert |BytesOf(cs[..0])| == i; }
    } else {
      ScalarsAreValid(cs);
      FirstCharacter(cs);
      LaterCut(cs, i);
      LaterBoundary(BytesOf(cs), i);
      if i >= |Encoding(cs[0])| { BoundaryExactly(cs[1..], i - |Encoding(cs[0])|); }
    }
  }

  /** In valid text no position is more than three bytes past a character boundary. */
  lemma {:induction false} BoundaryNear(s: seq<byte>, p: nat)
    requires Valid(s) && p <= |s|
    ensures exists j :: 0 <= j <= p <= j + 3 && Boundary(s, j)
    decreases |s|
  {
    if s == [] {
      assert Boundary(s, 0);
    } else {
      var w := CharLength(s);
      var rest := s[w..];
      assert Boundary(s, w) by {
        assert w < |s| ==> CharLength(rest) > 0 && rest[0] == s[w];
      }
      if p < w {
        assert Boundary(s, 0);
      } else {
        BoundaryNear(rest, p - w);
        var j :| 0 <= j <= p - w <= j + 3 && Boundary(rest, j);
        assert Boundary(s, w + j) by {
          assert w + j < |s| ==> rest[j] == s[w + j];
        }
      }
    }
  }
}

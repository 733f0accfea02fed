/** Which byte strings are text: the encodings of sequences of Unicode scalar values (section 3 of
    RFC 3629). `KeyEncoding.ValidUtf8` decides it byte by byte. */
module Utf8 {
  import opened Bytes
  import opened KeyEncoding

  /** A code point that is no surrogate. */
  predicate IsScalar(c: int) {
    0 <= c < 0xD800 || 0xE000 <= c < 0x110000
  }

  /** The low six bits after dropping `n` groups of six, as a continuation byte. */
  function Tail(c: nat, n: nat): Byte {
    0x80 + (if n == 0 then c else if n == 1 then c / 64 else c / 4096) % 64
  }

  /** The bytes of one scalar value. */
  function EncodeScalar(c: int): (r: Str)
    requires IsScalar(c)
    ensures 1 <= |r| <= 4
  {
    if c < 0x80 then [c]
    else if c < 0x800 then [0xC0 + c / 64, Tail(c, 0)]
    else if c < 0x10000 then [0xE0 + c / 4096, Tail(c, 1), Tail(c, 0)]
    else [0xF0 + c / 262144, Tail(c, 2), Tail(c, 1), Tail(c, 0)]
  }

  ghost predicate AllScalars(cs: seq<int>) {
    forall c :: c in cs ==> IsScalar(c)
  }

  function Encode(cs: seq<int>): Str
    requires AllScalars(cs)
  {
    if cs == [] then []
    else
      assert cs[0] in cs;
      assert forall c :: c in cs[1..] ==> c in cs;
      EncodeScalar(cs[0]) + Encode(cs[1..])
  }

  /** What an encoded scalar value looks like to the byte-wise test. */
  lemma ScalarIsChar(c: int, rest: Str)
    requires IsScalar(c)
    ensures CharLength(EncodeScalar(c) + rest) == |EncodeScalar(c)|
  {
    var s := EncodeScalar(c) + rest;
    assert forall i :: 0 <= i < |EncodeScalar(c)| ==> s[i] == EncodeScalar(c)[i];
  }

  /** What a byte adds to the scalar value. */
  function Bits(b: int, base: int): int {
    b - base
  }

  /** The scalar value of the character that a string begins with. */
  function FirstScalar(s: Str): int
    requires CharLength(s) > 0
  {
    match CharLength(s)
    case 1 => s[0]
    case 2 => Bits(s[0], 0xC0) * 64 + Bits(s[1], 0x80)
    case 3 => Bits(s[0], 0xE0) * 4096 + Bits(s[1], 0x80) * 64 + Bits(s[2], 0x80)
    case _ => Bits(s[0], 0xF0) * 262144 + Bits(s[1], 0x80) * 4096 + Bits(s[2], 0x80) * 64 + Bits(s[3], 0x80)
  }

  lemma TwoBytes(a: int, b: int)
    requires 0 <= b < 64 && 0 <= a
    ensures (a * 64 + b) / 64 == a && (a * 64 + b) % 64 == b
  {
  }

  lemma ThreeBytes(a: int, b: int, c: int)
    requires 0 <= b < 64 && 0 <= c < 64 && 0 <= a
    ensures var v := a * 4096 + b * 64 + c; v / 4096 == a && v / 64 % 64 == b && v % 64 == c
  {
    TwoBytes(a * 64 + b, c);
    TwoBytes(a, b);
    assert a * 4096 + b * 64 + c == (a * 64 + b) * 64 + c;
  }

  lemma FourBytes(a: int, b: int, c: int, d: int)
    requires 0 <= b < 64 && 0 <= c < 64 && 0 <= d < 64 && 0 <= a
    ensures var v := a * 262144 + b * 4096 + c * 64 + d;
      v / 262144 == a && v / 4096 % 64 == b && v / 64 % 64 == c && v % 64 == d
  {
    TwoBytes((a * 64 + b) * 64 + c, d);
    TwoBytes(a * 64 + b, c);
    TwoBytes(a, b);
    assert a * 262144 + b * 4096 + c * 64 + d == ((a * 64 + b) * 64 + c) * 64 + d;
  }

  lemma LongCharIsScalar(s: Str)
    requires CharLength(s) == 4
    ensures IsScalar(FirstScalar(s)) && EncodeScalar(FirstScalar(s)) == s[..4]
  {
    FourBytes(Bits(s[0], 0xF0), Bits(s[1], 0x80), Bits(s[2], 0x80), Bits(s[3], 0x80));
  }

  lemma MiddleCharIsScalar(s: Str)
    requires CharLength(s) == 3
    ensures IsScalar(FirstScalar(s)) && EncodeScalar(FirstScalar(s)) == s[..3]
  {
    ThreeBytes(Bits(s[0], 0xE0), Bits(s[1], 0x80), Bits(s[2], 0x80));
  }

  lemma ShortCharIsScalar(s: Str)
    requires 1 <= CharLength(s) <= 2
    ensures IsScalar(FirstScalar(s)) && EncodeScalar(FirstScalar(s)) == s[..CharLength(s)]
  {
    if CharLength(s) == 2 {
      TwoBytes(Bits(s[0], 0xC0), Bits(s[1], 0x80));
    }
  }

  /** A character that passes the test is the encoding of a scalar value. */
  lemma CharIsScalar(s: Str)
    requires CharLength(s) > 0
    ensures IsScalar(FirstScalar(s)) && EncodeScalar(FirstScalar(s)) == s[..CharLength(s)]
  {
    hide FirstScalar, EncodeScalar;
    assert CharLength(s) <= 4;
    if CharLength(s) == 4 {
      LongCharIsScalar(s);
    } else if CharLength(s) == 3 {
      MiddleCharIsScalar(s);
    } else {
      ShortCharIsScalar(s);
    }
  }

  lemma {:induction false} EncodedIsValid(cs: seq<int>)
    requires AllScalars(cs)
    ensures ValidUtf8(Encode(cs))
  {
    if cs != [] {
      assert cs[0] in cs;
      assert forall c :: c in cs[1..] ==> c in cs;
      var rest := Encode(cs[1..]);
      ScalarIsChar(cs[0], rest);
      EncodedIsValid(cs[1..]);
      assert Encode(cs)[|EncodeScalar(cs[0])|..] == rest;
    }
  }

  lemma {:induction false} ValidIsEncoded(s: Str) returns (cs: seq<int>)
    requires ValidUtf8(s)
    ensures AllScalars(cs) && Encode(cs) == s
    decreases |s|
  {
    hide CharLength, FirstScalar, EncodeScalar;
    if s == [] {
      cs := [];
    } else {
      var n := CharLength(s);
      var rest := ValidIsEncoded(s[n..]);
      CharIsScalar(s);
      cs := [FirstScalar(s)] + rest;
      assert cs[1..] == rest;
      assert s == s[..n] + s[n..];
    }
  }

  /** Text is exactly what sequences of scalar values are encoded as. */
  lemma Utf8Exactly(s: Str)
    ensures ValidUtf8(s) <==> exists cs :: AllScalars(cs) && Encode(cs) == s
  {
    hide ValidUtf8, Encode;
    if ValidUtf8(s) {
      var cs := ValidIsEncoded(s);
    }
    if cs :| AllScalars(cs) && Encode(cs) == s {
      EncodedIsValid(cs);
    }
  }
}

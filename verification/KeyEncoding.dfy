/** Object keys to flat file names and back: crates/storage/src/encode.rs. */
module KeyEncoding {
  import opened Wrappers
  import opened Bytes

  const PERCENT: Byte := 37
  const DOT: Byte := 46
  const SLASH: Byte := 47
  const MAX_NAME := 255

  predicate IsAlphanumeric(b: Byte) {
    48 <= b <= 57 || 65 <= b <= 90 || 97 <= b <= 122
  }

  /** The value of a hexadecimal digit, in either case. */
  function HexValue(b: Byte): Option<int> {
    if 48 <= b <= 57 then Some(b - 48)
    else if 65 <= b <= 70 then Some(b - 55)
    else if 97 <= b <= 102 then Some(b - 87)
    else None
  }

  function HexDigit(n: int): Byte
    requires 0 <= n < 16
  {
    if n < 10 then n + 48 else n + 55
  }

  function EncodeByte(b: Byte): Str {
    if IsAlphanumeric(b) then [b] else [PERCENT, HexDigit(b / 16), HexDigit(b % 16)]
  }

  /** `utf8_percent_encode(key, KEY_ENCODE_SET)`: every byte but ASCII letters and digits is escaped. */
  function PercentEncode(key: Str): Str {
    if key == [] then [] else EncodeByte(key[0]) + PercentEncode(key[1..])
  }

  predicate IsEscape(s: Str) {
    |s| >= 3 && s[0] == PERCENT && HexValue(s[1]).Some? && HexValue(s[2]).Some?
  }

  /** `percent_decode_str`: a `%` without two hexadecimal digits after it stands for itself. */
  function PercentDecode(s: Str): Str {
    if s == [] then []
    else if IsEscape(s) then [16 * HexValue(s[1]).value + HexValue(s[2]).value] + PercentDecode(s[3..])
    else [s[0]] + PercentDecode(s[1..])
  }

  /** The number of bytes of the well-formed UTF-8 character that `s` starts with, 0 if there is none
      (section 4 of RFC 3629). */
  function CharLength(s: Str): (n: nat)
    ensures n <= |s|
  {
    if s == [] then 0
    else if s[0] < 0x80 then 1
    else if 0xC2 <= s[0] <= 0xDF && Continues(s, 1) then 2
    else if 0xE0 <= s[0] <= 0xEF && Continues(s, 1) && Continues(s, 2)
      && (s[0] == 0xE0 ==> s[1] >= 0xA0) && (s[0] == 0xED ==> s[1] <= 0x9F) then 3
    else if 0xF0 <= s[0] <= 0xF4 && Continues(s, 1) && Continues(s, 2) && Continues(s, 3)
      && (s[0] == 0xF0 ==> s[1] >= 0x90) && (s[0] == 0xF4 ==> s[1] <= 0x8F) then 4
    else 0
  }

  predicate Continues(s: Str, i: nat) {
    i < |s| && 0x80 <= s[i] <= 0xBF
  }

  /** What every Rust `str` is. */
  predicate ValidUtf8(s: Str) {
    s == [] || (CharLength(s) > 0 && ValidUtf8(s[CharLength(s)..]))
  }

  /** `is_traversal_unsafe`: NUL anywhere, or ".." as a whole path segment. */
  predicate IsTraversalUnsafe(s: Str) {
    || Find(s, [0]).Some?
    || s == [DOT, DOT]
    || [DOT, DOT, SLASH] <= s
    || Find(s, [SLASH, DOT, DOT, SLASH]).Some?
    || (|s| >= 3 && s[|s| - 3..] == [SLASH, DOT, DOT])
  }

  function EncodeKey(key: Str): Result<Str> {
    var encoded := PercentEncode(key);
    if |encoded| > MAX_NAME then Failure(KeyTooLong)
    else if IsTraversalUnsafe(key) then Failure(InvalidKey)
    else Success(encoded)
  }

  function DecodeKey(name: Str): Result<Str> {
    var decoded := PercentDecode(name);
    if !ValidUtf8(decoded) then Failure(InvalidKey)
    else if IsTraversalUnsafe(decoded) then Failure(InvalidKey)
    else Success(decoded)
  }

  /** Names the `tempfile` crate draws: ".tmp" and then random letters and digits. */
  predicate IsTempName(name: Str) {
    [DOT, 116, 109, 112] <= name && forall i :: 4 <= i < |name| ==> IsAlphanumeric(name[i])
  }

  // ---- Properties ----

  lemma DecodeEncodedByte(b: Byte, rest: Str)
    ensures PercentDecode(EncodeByte(b) + rest) == [b] + PercentDecode(rest)
  {
    var s := EncodeByte(b) + rest;
    if IsAlphanumeric(b) {
      assert s[1..] == rest;
    } else {
      assert HexValue(HexDigit(b / 16)) == Some(b / 16) && HexValue(HexDigit(b % 16)) == Some(b % 16);
      assert IsEscape(s) && s[3..] == rest;
    }
  }

  lemma {:induction false} PercentRoundTrip(key: Str)
    ensures PercentDecode(PercentEncode(key)) == key
  {
    if key != [] {
      DecodeEncodedByte(key[0], PercentEncode(key[1..]));
      PercentRoundTrip(key[1..]);
    }
  }

  lemma {:induction false} EncodedAlphabet(key: Str)
    ensures forall b :: b in PercentEncode(key) ==> IsAlphanumeric(b) || b == PERCENT
  {
    if key != [] {
      EncodedAlphabet(key[1..]);
    }
  }

  /** Round trip: a name that `encode_key` produces decodes to the key it came from. */
  lemma EncodeDecode(key: Str)
    requires ValidUtf8(key) && EncodeKey(key).Success?
    ensures DecodeKey(EncodeKey(key).value) == Success(key)
  {
    PercentRoundTrip(key);
  }

  /** Encoded names are distinct, at most 255 bytes over letters, digits and `%`, and never temp names. */
  lemma EncodedNames(key: Str, other: Str)
    requires EncodeKey(key).Success?
    ensures EncodeKey(other) == EncodeKey(key) ==> other == key
    ensures |EncodeKey(key).value| <= MAX_NAME
    ensures forall b :: b in EncodeKey(key).value ==> IsAlphanumeric(b) || b == PERCENT
    ensures !IsTempName(EncodeKey(key).value)
    ensures EncodeKey(key).value == [] <==> key == []
  {
    PercentRoundTrip(key);
    PercentRoundTrip(other);
    EncodedAlphabet(key);
    var name := EncodeKey(key).value;
    if name != [] {
      assert name[0] in name;
    }
  }

  /** The empty key is accepted, and names the directory itself. */
  lemma EmptyKeyEncodes()
    ensures EncodeKey([]) == Success([])
  {
  }

  /** `encode_key` refuses exactly the keys that are too long or that `decode_key` would refuse. */
  lemma EncodeAccepts(key: Str)
    requires ValidUtf8(key)
    ensures EncodeKey(key).Success? <==>
      |PercentEncode(key)| <= MAX_NAME && DecodeKey(PercentEncode(key)).Success?
  {
    PercentRoundTrip(key);
  }

  lemma {:induction false} NoPercentDecodesToItself(s: Str)
    requires PERCENT !in s
    ensures PercentDecode(s) == s
  {
    if s != [] {
      NoPercentDecodesToItself(s[1..]);
    }
  }

  lemma {:induction false} AsciiIsUtf8(s: Str)
    requires forall b :: b in s ==> b < 0x80
    ensures ValidUtf8(s)
  {
    if s != [] {
      assert forall b :: b in s[1..] ==> b in s;
      assert s[0] in s;
      AsciiIsUtf8(s[1..]);
    }
  }

  /** A temp file's name decodes, to itself, against the comment at crates/storage/src/fs.rs:149:
      the listing does not skip it. */
  lemma TempNamesDecode(name: Str)
    requires IsTempName(name)
    ensures DecodeKey(name) == Success(name)
  {
    forall b | b in name ensures b != PERCENT && b != 0 && b != SLASH && b < 0x80 {
      var i :| 0 <= i < |name| && name[i] == b;
      if i >= 4 {
        assert IsAlphanumeric(name[i]);
      }
    }
    NoPercentDecodesToItself(name);
    AsciiIsUtf8(name);
    FoundHead(name, [0]);
    FoundHead(name, [SLASH, DOT, DOT, SLASH]);
    assert |name| >= 3 ==> name[|name| - 3..][0] in name;
  }

  // ---- What the codec does, byte by byte ----

  /** Digits of a number below 16, as the encoder writes them. */
  const HEX: Str := [48, 49, 50, 51, 52, 53, 54, 55, 56, 57, 65, 66, 67, 68, 69, 70]

  /** Both ways to write a hexadecimal digit are read, and nothing else is. */
  lemma HexDigits(b: Byte, n: int)
    ensures HexValue(b) == Some(n) <==>
      0 <= n < 16 && (b == HEX[n] || (n >= 10 && b == HEX[n] + 32))
  {
  }

  lemma {:induction false} EncodeConcat(a: Str, b: Str)
    ensures PercentEncode(a + b) == PercentEncode(a) + PercentEncode(b)
  {
    hide EncodeByte;
    if a == [] {
      assert a + b == b && PercentEncode(a) + PercentEncode(b) == PercentEncode(b);
    } else {
      var head, rest := EncodeByte(a[0]), PercentEncode(a[1..]);
      EncodeConcat(a[1..], b);
      assert (a + b)[1..] == a[1..] + b && (a + b)[0] == a[0];
      assert head + (rest + PercentEncode(b)) == head + rest + PercentEncode(b);
    }
  }

  /** The encoder works byte by byte: ASCII letters and digits stay, any other byte becomes a
      percent sign and its two upper-case hexadecimal digits. */
  lemma EncodesEachByte(a: Str, b: Byte, c: Str)
    ensures PercentEncode(a + [b] + c) == PercentEncode(a) + PercentEncode([b]) + PercentEncode(c)
    ensures PercentEncode([b]) ==
      if 48 <= b < 58 || 65 <= b < 91 || 97 <= b < 123 then [b] else [37, HEX[b / 16], HEX[b % 16]]
  {
    hide PercentEncode, EncodeByte;
    EncodeConcat(a + [b], c);
    EncodeConcat(a, [b]);
    OneByteEncoded(b);
  }

  lemma OneByteEncoded(b: Byte)
    ensures PercentEncode([b]) ==
      if 48 <= b < 58 || 65 <= b < 91 || 97 <= b < 123 then [b] else [37, HEX[b / 16], HEX[b % 16]]
  {
    assert [b][1..] == [];
    assert EncodeByte(b) + [] == EncodeByte(b);
  }

  /** The decoder, byte by byte: a percent sign with two hexadecimal digits after it stands for the
      byte they spell, anything else for itself. */
  lemma DecodesEachByte(b: Byte, x: Byte, y: Byte, rest: Str)
    ensures PercentDecode([]) == []
    ensures b != 37 ==> PercentDecode([b] + rest) == [b] + PercentDecode(rest)
    ensures HexValue(x).Some? && HexValue(y).Some? ==>
      PercentDecode([37, x, y] + rest) == [16 * HexValue(x).value + HexValue(y).value] + PercentDecode(rest)
    ensures HexValue(x).None? || HexValue(y).None? ==>
      PercentDecode([37, x, y] + rest) == [37] + PercentDecode([x, y] + rest)
    ensures PercentDecode([37, x]) == [37] + PercentDecode([x]) && PercentDecode([37]) == [37]
  {
    assert ([b] + rest)[1..] == rest;
    assert ([37, x, y] + rest)[3..] == rest && ([37, x, y] + rest)[1..] == [x, y] + rest;
    assert [37, x][1..] == [x] && [37][1..] == [];
  }

  /** How long a key's name is: three bytes for each byte that is no ASCII letter or digit. */
  function EncodedSize(key: Str): nat {
    if key == [] then 0
    else
      var b := key[0];
      (if 48 <= b < 58 || 65 <= b < 91 || 97 <= b < 123 then 1 else 3) + EncodedSize(key[1..])
  }

  lemma {:induction false} EncodedSizeIsLength(key: Str)
    ensures |PercentEncode(key)| == EncodedSize(key)
  {
    if key != [] {
      EncodedSizeIsLength(key[1..]);
    }
  }

  /** A whole segment `..` from position `i` on, between two slashes or at an end. */
  predicate DotDotAt(s: Str, i: int) {
    && 0 <= i && i + 2 <= |s| && s[i] == 46 && s[i + 1] == 46
    && (i == 0 || s[i - 1] == 47)
    && (i + 2 == |s| || s[i + 2] == 47)
  }

  /** The text has a NUL byte or a whole segment `..`. */
  ghost predicate HasBadPart(s: Str) {
    0 in s || exists i :: DotDotAt(s, i)
  }

  lemma SegmentFound(s: Str, i: nat)
    requires DotDotAt(s, i)
    ensures IsTraversalUnsafe(s)
  {
    if i == 0 && i + 2 == |s| {
      assert s == [DOT, DOT];
    } else if i == 0 {
      assert s[..3] == [DOT, DOT, SLASH];
    } else if i + 2 == |s| {
      assert s[|s| - 3..] == [SLASH, DOT, DOT];
    } else {
      assert OccursAt(s, [SLASH, DOT, DOT, SLASH], i - 1);
    }
  }

  lemma NulFound(s: Str)
    ensures Find(s, [0]).Some? <==> 0 in s
  {
    FoundHead(s, [0]);
    if 0 in s {
      var i :| 0 <= i < |s| && s[i] == 0;
      assert OccursAt(s, [0], i);
    }
  }

  /** The guard's five tests come to this. */
  lemma TraversalMeaning(s: Str)
    ensures IsTraversalUnsafe(s) <==> HasBadPart(s)
  {
    hide Find;
    NulFound(s);
    if i :| DotDotAt(s, i) {
      SegmentFound(s, i);
    }
    if IsTraversalUnsafe(s) && 0 !in s {
      var i := UnsafeSegment(s);
    }
  }

  lemma UnsafeSegment(s: Str) returns (i: nat)
    requires IsTraversalUnsafe(s) && 0 !in s
    ensures DotDotAt(s, i)
  {
    NulFound(s);
    if s == [DOT, DOT] || [DOT, DOT, SLASH] <= s {
      i := 0;
    } else if Find(s, [SLASH, DOT, DOT, SLASH]).Some? {
      var j := Find(s, [SLASH, DOT, DOT, SLASH]).value;
      var d := s[j..j + 4];
      assert d[0] == s[j] && d[1] == s[j + 1] && d[2] == s[j + 2] && d[3] == s[j + 3];
      i := j + 1;
    } else {
      var d := s[|s| - 3..];
      assert d[0] == s[|s| - 3] && d[1] == s[|s| - 2] && d[2] == s[|s| - 1];
      i := |s| - 2;
    }
  }

  /** Which keys are refused, and with which error: those whose name would be longer than 255 bytes
      as too long, those of the rest with a NUL byte or a segment `..` as invalid. Any other key is
      accepted, under the name that decodes to it. */
  lemma EncodeRefuses(key: Str)
    ensures EncodeKey(key) ==
      if EncodedSize(key) > 255 then Failure(KeyTooLong)
      else if HasBadPart(key) then Failure(InvalidKey)
      else Success(PercentEncode(key))
  {
    hide IsTraversalUnsafe, HasBadPart, PercentEncode, EncodedSize;
    EncodedSizeIsLength(key);
    TraversalMeaning(key);
  }

  /** Which names decode: those whose bytes, decoded, are text without a NUL byte or segment `..`. */
  lemma DecodeRefuses(name: Str)
    ensures DecodeKey(name) ==
      if ValidUtf8(PercentDecode(name)) && !HasBadPart(PercentDecode(name)) then Success(PercentDecode(name))
      else Failure(InvalidKey)
  {
    hide IsTraversalUnsafe, HasBadPart, PercentDecode, ValidUtf8;
    TraversalMeaning(PercentDecode(name));
  }

  /** The keys that climb: `..`, `../x` and `a/../b` are refused, `a..b` and `.../x` are not. */
  lemma ClimbingKeys()
    ensures EncodeKey([46, 46]) == Failure(InvalidKey)
    ensures EncodeKey([46, 46, 47, 120]) == Failure(InvalidKey)
    ensures EncodeKey([97, 47, 46, 46, 47, 98]) == Failure(InvalidKey)
    ensures EncodeKey([97, 46, 46, 98]).Success?
    ensures EncodeKey([46, 46, 46, 47, 120]).Success?
  {
    hide EncodeKey, EncodedSize;
    assert DotDotAt([46, 46], 0) && DotDotAt([46, 46, 47, 120], 0) && DotDotAt([97, 47, 46, 46, 47, 98], 2);
    ShortKey([46, 46]);
    ShortKey([46, 46, 47, 120]);
    ShortKey([97, 47, 46, 46, 47, 98]);
    ShortKey([97, 46, 46, 98]);
    ShortKey([46, 46, 46, 47, 120]);
  }

  lemma {:induction false} SizeBound(key: Str)
    ensures EncodedSize(key) <= 3 * |key|
  {
    if key != [] {
      SizeBound(key[1..]);
    }
  }

  lemma ShortKey(key: Str)
    requires |key| <= 85
    ensures HasBadPart(key) ==> EncodeKey(key) == Failure(InvalidKey)
    ensures !HasBadPart(key) ==> EncodeKey(key).Success?
  {
    hide EncodeKey, EncodedSize, HasBadPart;
    SizeBound(key);
    EncodeRefuses(key);
  }
}

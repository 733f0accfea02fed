/** Numbers as decimal text and back: Rust's `to_string` and `parse::<i32>`. */
module Decimals {
  import opened Wrappers
  import opened Bytes

  const MAX_I32 := 0x7FFF_FFFF

  /** Decimal digits without leading zeros. */
  function Decimal(n: nat): Str {
    if n < 10 then [48 + n] else Decimal(n / 10) + [48 + n % 10]
  }

  function Pow10(w: nat): nat {
    if w == 0 then 1 else 10 * Pow10(w - 1)
  }

  predicate IsDigit(b: Byte) {
    48 <= b <= 57
  }

  predicate AllDigits(s: Str) {
    forall b :: b in s ==> IsDigit(b)
  }

  function DigitsValue(s: Str): nat
    requires AllDigits(s)
  {
    if s == [] then 0
    else
      var last := |s| - 1;
      assert forall b :: b in s[..last] ==> b in s;
      assert s[last] in s;
      10 * DigitsValue(s[..last]) + (s[last] - 48)
  }

  /** `parse::<i32>`: an optional sign, then digits, within range. */
  function ParseI32(s: Str): Option<int> {
    var signed := s != [] && (s[0] == 43 || s[0] == 45);
    var digits := if signed then s[1..] else s;
    if digits == [] || !AllDigits(digits) then None
    else
      var size: int := DigitsValue(digits);
      var v := if s[0] == 45 then -size else size;
      if -MAX_I32 - 1 <= v <= MAX_I32 then Some(v) else None
  }

  /** The text of a number is made of digits that give the number, and begins with a zero only
      if it is zero. */
  lemma {:induction false} DecimalValue(n: nat)
    ensures Decimal(n) != [] && AllDigits(Decimal(n)) && DigitsValue(Decimal(n)) == n
    ensures Decimal(n)[0] == 48 ==> n == 0
  {
    var s := Decimal(n);
    if n < 10 {
      assert s[..0] == [];
    } else {
      DecimalValue(n / 10);
      assert s[..|s| - 1] == Decimal(n / 10);
      assert s[0] == Decimal(n / 10)[0];
    }
  }

  /** A number's text reads back as the number, if that is in range. */
  lemma DecimalParses(n: nat)
    ensures ParseI32(Decimal(n)) == if n <= MAX_I32 then Some(n) else None
  {
    DecimalValue(n);
    assert Decimal(n)[0] in Decimal(n);
  }

  /** Numbers with as many digits. */
  lemma {:induction false} DecimalLength(n: nat, w: nat)
    requires w > 0 && (w == 1 || Pow10(w - 1) <= n) && n < Pow10(w)
    ensures |Decimal(n)| == w
    decreases w
  {
    if w > 1 {
      assert Pow10(w) == 10 * Pow10(w - 1) && Pow10(w - 1) == 10 * Pow10(w - 2);
      DecimalLength(n / 10, w - 1);
    }
  }

  /** The text is a sign or none, and digits that with the sign give the number. */
  predicate IsNumeral(s: Str, sign: Str, digits: Str, v: int) {
    && s == sign + digits && digits != [] && AllDigits(digits)
    && (sign == [] || sign == [43] || sign == [45])
    && var size: int := DigitsValue(digits);
       v == if sign == [45] then -size else size
  }

  lemma NumeralParses(s: Str, sign: Str, digits: Str, v: int)
    requires IsNumeral(s, sign, digits, v) && -0x8000_0000 <= v <= 0x7FFF_FFFF
    ensures ParseI32(s) == Some(v)
  {
    assert digits[0] in digits;
    if sign != [] {
      assert s[1..] == digits && s[0] == sign[0];
    } else {
      assert s == digits;
    }
  }

  /** Exactly which texts are numbers: an optional sign and digits, within the range of i32. */
  lemma ParsesExactly(s: Str, v: int)
    ensures ParseI32(s) == Some(v) <==>
      -0x8000_0000 <= v <= 0x7FFF_FFFF && exists sign, digits :: IsNumeral(s, sign, digits, v)
  {
    hide DigitsValue;
    if ParseI32(s) == Some(v) {
      var signed := s[0] == 43 || s[0] == 45;
      var sign, digits := if signed then s[..1] else [], if signed then s[1..] else s;
      assert s == sign + digits;
      assert IsNumeral(s, sign, digits, v);
    }
    if -0x8000_0000 <= v <= 0x7FFF_FFFF {
      if sign, digits :| IsNumeral(s, sign, digits, v) {
        NumeralParses(s, sign, digits, v);
      }
    }
  }

  lemma LeadingZero(digits: Str)
    requires AllDigits(digits)
    ensures AllDigits([48] + digits) && DigitsValue([48] + digits) == DigitsValue(digits)
    decreases |digits|
  {
    if digits == [] {
      assert ([48] + digits)[..0] == [];
    } else {
      var n := |digits| - 1;
      assert forall b :: b in digits[..n] ==> b in digits;
      LeadingZero(digits[..n]);
      assert ([48] + digits)[..n + 1] == [48] + digits[..n];
    }
  }
}

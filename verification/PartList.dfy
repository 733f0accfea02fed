/** The list of part numbers as the browser writes it and as the server reads it:
    crates/ui/src/islands/upload_zone.rs:499-506 and crates/server/src/ui/upload.rs:136-150. */
module PartList {
  import opened Wrappers
  import opened Bytes
  import opened Decimals

  const COMMA: Byte := 44
  const OPEN: Byte := 91
  const CLOSE: Byte := 93
  const MINUS: Byte := 45

  // ---- Writing ----

  /** `to_string` of an i32. */
  function IntText(n: int): Str {
    if n < 0 then [MINUS] + Decimal(-n) else Decimal(n)
  }

  /** The numbers joined by commas. */
  function Joined(numbers: seq<int>): Str {
    if numbers == [] then []
    else if |numbers| == 1 then IntText(numbers[0])
    else IntText(numbers[0]) + [COMMA] + Joined(numbers[1..])
  }

  function ListText(numbers: seq<int>): Str {
    [OPEN] + Joined(numbers) + [CLOSE]
  }

  // ---- Reading: serde_json for a list of i32 ----

  function SkipSpace(s: Str): (r: Str)
    ensures |r| <= |s|
  {
    if s != [] && (s[0] == 32 || s[0] == 9 || s[0] == 10 || s[0] == 13) then SkipSpace(s[1..]) else s
  }

  function TakeDigits(s: Str): (r: Str)
    ensures r <= s && AllDigits(r)
    ensures |r| < |s| ==> !IsDigit(s[|r|])
  {
    if s == [] || !IsDigit(s[0]) then [] else [s[0]] + TakeDigits(s[1..])
  }

  /** A JSON integer in the range of i32, and what follows it. Leading zeros, fractions,
      exponents and a negative zero are refused. */
  function ReadInt(s: Str): (r: Option<(int, Str)>)
    ensures r.Some? ==> |r.value.1| < |s|
  {
    var negative := s != [] && s[0] == MINUS;
    var t := if negative then s[1..] else s;
    var digits := TakeDigits(t);
    var rest := t[|digits|..];
    if digits == [] || (|digits| > 1 && digits[0] == 48) then None
    else if rest != [] && (rest[0] == 46 || rest[0] == 69 || rest[0] == 101) then None
    else
      var size: int := DigitsValue(digits);
      var v := if negative then -size else size;
      if (negative && v == 0) || v < -MAX_I32 - 1 || v > MAX_I32 then None else Some((v, rest))
  }

  /** The elements from one on, up to and with the bracket. */
  function ReadElements(s: Str): Option<(seq<int>, Str)>
    decreases |s|
  {
    var first := ReadInt(s);
    if first.None? then None
    else
      var rest := SkipSpace(first.value.1);
      if rest == [] then None
      else if rest[0] == CLOSE then Some(([first.value.0], rest[1..]))
      else if rest[0] == COMMA then
        var more := ReadElements(SkipSpace(rest[1..]));
        if more.None? then None else Some(([first.value.0] + more.value.0, more.value.1))
      else None
  }

  function ReadList(s: Str): Option<seq<int>> {
    var t := SkipSpace(s);
    if t == [] || t[0] != OPEN then None
    else
      var u := SkipSpace(t[1..]);
      if u == [] then None
      else if u[0] == CLOSE then (if SkipSpace(u[1..]) == [] then Some([]) else None)
      else
        var all := ReadElements(u);
        if all.Some? && SkipSpace(all.value.1) == [] then Some(all.value.0) else None
  }

  // ---- What is written reads back ----

  lemma {:induction false} DigitsTaken(digits: Str, rest: Str)
    requires AllDigits(digits) && (rest == [] || !IsDigit(rest[0]))
    ensures TakeDigits(digits + rest) == digits
  {
    var s := digits + rest;
    if digits == [] {
      assert s == rest;
    } else {
      assert digits[0] in digits;
      assert s[1..] == digits[1..] + rest;
      assert forall b :: b in digits[1..] ==> b in digits;
      DigitsTaken(digits[1..], rest);
    }
  }

  /** What the reader sees of a number's digits. */
  lemma DigitsSeen(size: nat, rest: Str)
    requires rest != [] && (rest[0] == COMMA || rest[0] == CLOSE)
    ensures var digits, t := Decimal(size), Decimal(size) + rest;
      && digits != [] && AllDigits(digits) && DigitsValue(digits) == size && (|digits| > 1 ==> digits[0] != 48)
      && IsDigit(t[0]) && TakeDigits(t) == digits && t[|digits|..] == rest
  {
    hide Decimal, DigitsValue;
    DecimalValue(size);
    DigitsTaken(Decimal(size), rest);
    assert Decimal(size)[0] in Decimal(size);
    NoLeadingZero(size);
  }

  lemma NumberReads(n: int, rest: Str)
    requires -MAX_I32 - 1 <= n <= MAX_I32 && rest != [] && (rest[0] == COMMA || rest[0] == CLOSE)
    ensures ReadInt(IntText(n) + rest) == Some((n, rest))
    ensures SkipSpace(IntText(n) + rest) == IntText(n) + rest && (IntText(n) + rest)[0] != CLOSE
  {
    hide Decimal, DigitsValue, TakeDigits;
    var size: nat := if n < 0 then -n else n;
    DigitsSeen(size, rest);
    if n < 0 {
      assert (IntText(n) + rest)[1..] == Decimal(size) + rest;
    }
  }

  lemma NoLeadingZero(n: nat)
    ensures |Decimal(n)| > 1 ==> Decimal(n)[0] != 48
  {
    DecimalValue(n);
  }

  predicate InRange(numbers: seq<int>) {
    forall n :: n in numbers ==> -MAX_I32 - 1 <= n <= MAX_I32
  }

  lemma {:induction false} ElementsRead(numbers: seq<int>)
    requires numbers != [] && InRange(numbers)
    ensures ReadElements(Joined(numbers) + [CLOSE]) == Some((numbers, []))
    ensures var s := Joined(numbers) + [CLOSE]; SkipSpace(s) == s && s[0] != CLOSE
    decreases |numbers|
  {
    hide ReadInt, SkipSpace, IntText;
    var n := numbers[0];
    assert n in numbers;
    if |numbers| == 1 {
      NumberReads(n, [CLOSE]);
      SpaceSkipped([CLOSE]);
      assert [n] == numbers && [CLOSE][1..] == [];
      assert Joined(numbers) + [CLOSE] == IntText(n) + [CLOSE];
    } else {
      var more := Joined(numbers[1..]) + [CLOSE];
      var rest := [COMMA] + more;
      assert Joined(numbers) + [CLOSE] == IntText(n) + rest;
      NumberReads(n, rest);
      SpaceSkipped(rest);
      assert rest[1..] == more;
      assert forall k :: k in numbers[1..] ==> k in numbers;
      ElementsRead(numbers[1..]);
      assert [n] + numbers[1..] == numbers;
    }
  }

  lemma SpaceSkipped(s: Str)
    requires s == [] || s[0] == COMMA || s[0] == CLOSE || s[0] == OPEN
    ensures SkipSpace(s) == s
  {
  }

  /** The server reads the list that the browser wrote. */
  lemma ListReads(numbers: seq<int>)
    requires InRange(numbers)
    ensures ReadList(ListText(numbers)) == Some(numbers)
  {
    hide ReadElements, SkipSpace;
    var s := ListText(numbers);
    SpaceSkipped(s);
    SpaceSkipped([]);
    assert s[1..] == Joined(numbers) + [CLOSE];
    if numbers == [] {
      assert s[1..] == [CLOSE];
      SpaceSkipped([CLOSE]);
    } else {
      ElementsRead(numbers);
    }
  }

  // ---- How long it is ----

  function Numbers(n: nat): seq<int> {
    seq(n, i => i + 1)
  }

  /** The digits of 1 to n. */
  function DigitCount(n: nat): nat {
    if n == 0 then 0 else DigitCount(n - 1) + |Decimal(n)|
  }

  lemma {:induction false} JoinedSnoc(numbers: seq<int>, n: int)
    requires numbers != []
    ensures Joined(numbers + [n]) == Joined(numbers) + [COMMA] + IntText(n)
  {
    var all := numbers + [n];
    assert all[1..] == numbers[1..] + [n];
    if |numbers| == 1 {
      assert all[1..] == [n];
    } else {
      JoinedSnoc(numbers[1..], n);
    }
  }

  lemma {:induction false} ListLength(n: nat)
    requires n >= 1
    ensures |ListText(Numbers(n))| == DigitCount(n) + n + 1
  {
    assert Numbers(n) == Numbers(n - 1) + [n];
    if n == 1 {
      assert Numbers(1) == [1] && DigitCount(1) == DigitCount(0) + |Decimal(1)|;
    } else {
      ListLength(n - 1);
      JoinedSnoc(Numbers(n - 1), n);
    }
  }

  lemma DigitCountStep(n: nat)
    requires n > 0
    ensures DigitCount(n) == DigitCount(n - 1) + |Decimal(n)|
  {
  }

  /** Within a decade every number adds as many digits. */
  lemma {:induction false} Decade(w: nat, low: nat, n: nat)
    requires w > 0 && 1 <= low == Pow10(w - 1) && low - 1 <= n < Pow10(w)
    ensures DigitCount(n) == DigitCount(low - 1) + w * (n + 1 - low)
    decreases n
  {
    hide DigitCount, Pow10, Decimal;
    var more := n - low;
    if n >= low {
      DigitCountStep(n);
      Decade(w, low, n - 1);
      PowOfNone();
      DecimalLength(n, w);
      assert w * (more + 1) == w * more + w;
    }
  }

  lemma PowOfNone()
    ensures Pow10(0) == 1
  {
  }

  lemma Powers()
    ensures Pow10(0) == 1 && Pow10(1) == 10 && Pow10(2) == 100 && Pow10(3) == 1000
    ensures Pow10(4) == 10000 && Pow10(5) == 100000 && Pow10(6) == 1000000
  {
    assert Pow10(1) == 10 * Pow10(0);
    assert Pow10(2) == 10 * Pow10(1);
    assert Pow10(3) == 10 * Pow10(2);
    assert Pow10(4) == 10 * Pow10(3);
    assert Pow10(5) == 10 * Pow10(4);
    assert Pow10(6) == 10 * Pow10(5);
  }

  lemma Decades(n: nat)
    requires 99999 <= n < 1000000
    ensures DigitCount(n) == 488889 + 6 * (n - 99999)
  {
    hide DigitCount, Pow10;
    Powers();
    DigitsOfNone();
    Decade(1, 1, 9);
    Decade(2, 10, 99);
    Decade(3, 100, 999);
    Decade(4, 1000, 9999);
    Decade(5, 10000, 99999);
    Decade(6, 100000, n);
  }

  lemma DigitsOfNone()
    ensures DigitCount(0) == 0
  {
  }

  lemma {:induction false} DigitsGrow(m: nat, n: nat)
    requires m <= n
    ensures DigitCount(m) <= DigitCount(n)
    decreases n
  {
    if m < n {
      DigitsGrow(m, n - 1);
    }
  }

  /** What the server reads of the list at most. */
  const LIST_LIMIT := 1024 * 1024

  /** The most parts whose list the server reads: 1048572 bytes for them, 1048579 for one more. */
  const MAX_PARTS := 165668

  /** The list of the first n numbers fits exactly up to 165668 of them. */
  lemma ListFits(n: nat)
    requires n >= 1
    ensures |ListText(Numbers(n))| <= LIST_LIMIT <==> n <= MAX_PARTS
    ensures n == MAX_PARTS ==> |ListText(Numbers(n))| == 1048572
    ensures n == MAX_PARTS + 1 ==> |ListText(Numbers(n))| == 1048579
  {
    hide DigitCount, ListText, Numbers;
    ListLength(n);
    Decades(MAX_PARTS);
    Decades(MAX_PARTS + 1);
    if n <= MAX_PARTS {
      DigitsGrow(n, MAX_PARTS);
    } else {
      DigitsGrow(MAX_PARTS + 1, n);
    }
  }

  // ---- Nothing else is read ----

  predicate IsSpace(b: Byte) {
    b == 32 || b == 9 || b == 10 || b == 13
  }

  /** A text without its white space. */
  function Squeezed(s: Str): Str {
    if s == [] then [] else (if IsSpace(s[0]) then [] else [s[0]]) + Squeezed(s[1..])
  }

  lemma {:induction false} SqueezedConcat(a: Str, b: Str)
    ensures Squeezed(a + b) == Squeezed(a) + Squeezed(b)
  {
    if a == [] {
      assert a + b == b;
    } else {
      SqueezedConcat(a[1..], b);
      assert (a + b)[1..] == a[1..] + b;
      var head := if IsSpace(a[0]) then [] else [a[0]];
      assert head + (Squeezed(a[1..]) + Squeezed(b)) == head + Squeezed(a[1..]) + Squeezed(b);
    }
  }

  lemma {:induction false} SpaceSqueezed(s: Str)
    ensures Squeezed(SkipSpace(s)) == Squeezed(s)
  {
    if s != [] && IsSpace(s[0]) {
      SpaceSqueezed(s[1..]);
    }
  }

  lemma {:induction false} DigitsAreDecimal(digits: Str)
    requires digits != [] && AllDigits(digits) && (|digits| > 1 ==> digits[0] != 48)
    ensures digits == Decimal(DigitsValue(digits))
    decreases |digits|
  {
    var n := |digits| - 1;
    assert digits[n] in digits;
    assert forall b :: b in digits[..n] ==> b in digits;
    if n == 0 {
      assert DigitsValue(digits[..0]) == 0;
    } else {
      DigitsAreDecimal(digits[..n]);
      NotZero(digits[..n]);
      assert digits == digits[..n] + [digits[n]];
    }
  }

  lemma {:induction false} NotZero(digits: Str)
    requires digits != [] && AllDigits(digits) && digits[0] != 48
    ensures DigitsValue(digits) > 0
    decreases |digits|
  {
    var n := |digits| - 1;
    assert digits[n] in digits && digits[0] in digits;
    assert forall b :: b in digits[..n] ==> b in digits;
    if n > 0 {
      NotZero(digits[..n]);
    }
  }

  /** A number that is read stands there as it is written. */
  lemma ReadIntIsText(s: Str)
    requires ReadInt(s).Some?
    ensures var (v, rest) := ReadInt(s).value; s == IntText(v) + rest
  {
    hide Decimal, DigitsValue, TakeDigits;
    var negative := s[0] == MINUS;
    var t := if negative then s[1..] else s;
    var digits := TakeDigits(t);
    DigitsAreDecimal(digits);
    assert t == digits + t[|digits|..];
    if negative {
      assert s == [MINUS] + t;
    }
  }

  lemma {:induction false} DigitsSqueezed(s: Str)
    requires forall b :: b in s ==> !IsSpace(b)
    ensures Squeezed(s) == s
  {
    if s != [] {
      assert s[0] in s;
      assert forall b :: b in s[1..] ==> b in s;
      DigitsSqueezed(s[1..]);
    }
  }

  lemma IntTextSqueezed(n: int)
    ensures Squeezed(IntText(n)) == IntText(n)
  {
    var size: nat := if n < 0 then -n else n;
    DecimalValue(size);
    forall b | b in IntText(n) ensures !IsSpace(b) {
      assert b == MINUS || b in Decimal(size);
    }
    DigitsSqueezed(IntText(n));
  }

  lemma {:induction false} ElementsAreText(s: Str)
    requires ReadElements(s).Some?
    ensures var (ns, rest) := ReadElements(s).value;
      ns != [] && InRange(ns) && Squeezed(s) == Joined(ns) + [CLOSE] + Squeezed(rest)
    decreases |s|
  {
    hide ReadInt, SkipSpace, IntText, Squeezed;
    var (n, after) := ReadInt(s).value;
    ReadIntIsText(s);
    ReadIntInRange(s);
    IntTextSqueezed(n);
    SqueezedConcat(IntText(n), after);
    SpaceSqueezed(after);
    var rest := SkipSpace(after);
    assert rest == [rest[0]] + rest[1..];
    SqueezedConcat([rest[0]], rest[1..]);
    OneSqueezed(rest[0]);
    if rest[0] == COMMA {
      ElementsAreText(SkipSpace(rest[1..]));
      SpaceSqueezed(rest[1..]);
      var (more, end) := ReadElements(SkipSpace(rest[1..])).value;
      assert ([n] + more)[1..] == more;
      assert Squeezed(s) == IntText(n) + ([COMMA] + (Joined(more) + [CLOSE] + Squeezed(end)));
    }
  }

  lemma OneSqueezed(b: Byte)
    ensures b == COMMA || b == CLOSE || b == OPEN ==> Squeezed([b]) == [b]
  {
    assert [b][1..] == [];
  }

  lemma ReadIntInRange(s: Str)
    requires ReadInt(s).Some?
    ensures -MAX_I32 - 1 <= ReadInt(s).value.0 <= MAX_I32
  {
  }

  /** What the server reads as a list is, but for white space, the text that the browser writes for
      that list. */
  lemma ReadsOnlyLists(s: Str)
    requires ReadList(s).Some?
    ensures InRange(ReadList(s).value) && Squeezed(s) == ListText(ReadList(s).value)
  {
    hide ReadElements, SkipSpace;
    var t := SkipSpace(s);
    SpaceSqueezed(s);
    assert t == [OPEN] + t[1..];
    SqueezedConcat([OPEN], t[1..]);
    OneSqueezed(OPEN);
    OneSqueezed(CLOSE);
    var u := SkipSpace(t[1..]);
    SpaceSqueezed(t[1..]);
    if u[0] == CLOSE {
      assert u == [CLOSE] + u[1..];
      SqueezedConcat([CLOSE], u[1..]);
      SpaceSqueezed(u[1..]);
    } else {
      ElementsAreText(u);
      SpaceSqueezed(ReadElements(u).value.1);
    }
  }

  // ---- White space ----

  ghost predicate AllSpace(s: Str) {
    forall b :: b in s ==> IsSpace(b)
  }

  /** All white space at the front is skipped: blanks, tabs and line ends. */
  lemma {:induction false} SpaceSkippedBefore(space: Str, s: Str)
    requires AllSpace(space) && (s == [] || !IsSpace(s[0]))
    ensures SkipSpace(space + s) == s
  {
    if space == [] {
      assert space + s == s;
    } else {
      assert space[0] in space;
      assert forall b :: b in space[1..] ==> b in space;
      SpaceSkippedBefore(space[1..], s);
      assert (space + s)[1..] == space[1..] + s;
    }
  }

  lemma {:induction false} ElementsReadBefore(numbers: seq<int>, after: Str)
    requires numbers != [] && InRange(numbers)
    ensures ReadElements(Joined(numbers) + [CLOSE] + after) == Some((numbers, after))
    ensures var s := Joined(numbers) + [CLOSE] + after; SkipSpace(s) == s && s[0] != CLOSE
    decreases |numbers|
  {
    hide ReadInt, SkipSpace, IntText;
    var n := numbers[0];
    assert n in numbers;
    if |numbers| == 1 {
      var rest := [CLOSE] + after;
      NumberReads(n, rest);
      SpaceSkipped(rest);
      assert [n] == numbers && rest[1..] == after;
      assert Joined(numbers) + [CLOSE] + after == IntText(n) + rest;
    } else {
      var more := Joined(numbers[1..]) + [CLOSE] + after;
      var rest := [COMMA] + more;
      assert Joined(numbers) + [CLOSE] + after == IntText(n) + rest;
      NumberReads(n, rest);
      SpaceSkipped(rest);
      assert rest[1..] == more;
      assert forall k :: k in numbers[1..] ==> k in numbers;
      ElementsReadBefore(numbers[1..], after);
      assert [n] + numbers[1..] == numbers;
    }
  }

  /** A list is read with white space around it, and not with anything else after it. */
  lemma SurroundedListReads(numbers: seq<int>, before: Str, after: Str)
    requires InRange(numbers) && AllSpace(before)
    ensures ReadList(before + ListText(numbers) + after) == if AllSpace(after) then Some(numbers) else None
  {
    hide ReadElements, SkipSpace;
    var s := ListText(numbers) + after;
    assert before + ListText(numbers) + after == before + s;
    SpaceSkippedBefore(before, s);
    SpaceEnds(after);
    assert s[1..] == Joined(numbers) + [CLOSE] + after;
    if numbers == [] {
      assert s[1..] == [CLOSE] + after && s[1..][1..] == after;
      SpaceSkipped([CLOSE] + after);
    } else {
      ElementsReadBefore(numbers, after);
    }
  }

  lemma {:induction false} SpaceEnds(s: Str)
    ensures SkipSpace(s) == [] <==> AllSpace(s)
  {
    if s != [] {
      SpaceEnds(s[1..]);
      assert s[0] in s && forall b :: b in s[1..] ==> b in s;
      assert s == [s[0]] + s[1..];
    }
  }
}

/** Byte ranges of GetObject: crates/storage/src/range.rs, and the conversion of
    crates/server/src/s3_impl.rs:92-98. */
module Ranges {
  import opened Wrappers

  datatype ByteRange = Full(first: nat, last: nat) | Open(first: nat) | Suffix(n: nat)

  /** The range a client sends: `bytes=first-`, `bytes=first-last` or `bytes=-length`. */
  datatype HttpRange = IntRange(first: nat, last: Option<nat>) | SuffixRange(length: nat)

  function ToByteRange(r: HttpRange): ByteRange {
    match r
    case IntRange(first, None) => Open(first)
    case IntRange(first, Some(last)) => Full(first, last)
    case SuffixRange(length) => Suffix(length)
  }

  datatype ResolvedRange = ResolvedRange(start: nat, length: nat)

  /** `ByteRange::resolve`. Intermediate values are naturals, so no subtraction underflows;
      `ResolveMeaning` bounds what is computed by `objectLen`, so u64 does not overflow. */
  function Resolve(range: ByteRange, objectLen: nat): Option<ResolvedRange> {
    match range
    case Full(first, last) =>
      if objectLen == 0 || first >= objectLen then None
      else
        var end: nat := objectLen - 1;
        var clampedLast: nat := if last < end then last else end;
        if first > clampedLast then None
        else
          var span: nat := clampedLast - first;
          Some(ResolvedRange(first, span + 1))
    case Open(first) =>
      if objectLen == 0 || first >= objectLen then None
      else Some(ResolvedRange(first, objectLen - first))
    case Suffix(n) =>
      var clampedN: nat := if n < objectLen then n else objectLen;
      Some(ResolvedRange(objectLen - clampedN, clampedN))
  }

  /** The positions a range asks for, counted from the start of an object of `objectLen` bytes
      (section 14.1.2 of RFC 9110). */
  predicate Requested(range: HttpRange, objectLen: nat, i: int) {
    match range
    case IntRange(first, last) => first <= i && (last.Some? ==> i <= last.value)
    case SuffixRange(length) => objectLen - length <= i
  }

  predicate Inside(w: ResolvedRange, i: int) {
    w.start <= i < w.start + w.length
  }

  /** A resolved window is exactly the requested positions that the object has; without a
      window there are none, or the request was a suffix. */
  lemma ResolveMeaning(range: HttpRange, objectLen: nat)
    ensures var w := Resolve(ToByteRange(range), objectLen);
      && (w.Some? ==>
           && w.value.start + w.value.length <= objectLen
           && forall i :: Inside(w.value, i) <==> 0 <= i < objectLen && Requested(range, objectLen, i))
      && (w.None? <==> range.IntRange? && forall i :: 0 <= i < objectLen ==> !Requested(range, objectLen, i))
  {
    if range.IntRange? && range.first < objectLen {
      assert Requested(range, objectLen, range.first) <==> range.last.None? || range.first <= range.last.value;
    }
  }
}

/** The address of an upload request: what the browser makes of the text in
    crates/ui/src/islands/upload_zone.rs:441-508 (the URL parser of the WHATWG URL standard), and
    what the route of crates/server/src/main.rs:267 makes of the result. */
module UploadUrl {
  import opened Wrappers
  import opened Bytes
  import opened KeyEncoding

  const BACKSLASH: Byte := 92
  const QUESTION: Byte := 63
  const HASH: Byte := 35
  const UI: Str := [117, 105]
  const UPLOAD: Str := [117, 112, 108, 111, 97, 100]

  /** `/ui/upload/{bucket}/{key}?{query}`, without the slash at the front. */
  function Address(bucket: Str, key: Str, query: Str): Str {
    UI + [SLASH] + UPLOAD + [SLASH] + bucket + [SLASH] + key + [QUESTION] + query
  }

  // ---- The browser ----

  predicate IsRemoved(b: Byte) {
    b == 9 || b == 10 || b == 13
  }

  /** Tabs and line breaks are removed first. */
  function Clean(s: Str): Str {
    if s == [] then [] else (if IsRemoved(s[0]) then [] else [s[0]]) + Clean(s[1..])
  }

  predicate IsMark(b: Byte) {
    b == QUESTION || b == HASH
  }

  /** The path ends at the first `?` or `#`. */
  function PathText(s: Str): (r: Str)
    ensures r <= s && (forall b :: b in r ==> !IsMark(b))
    ensures |r| < |s| ==> IsMark(s[|r|])
  {
    if s == [] || IsMark(s[0]) then [] else [s[0]] + PathText(s[1..])
  }

  function UpToHash(s: Str): Str {
    if s == [] || s[0] == HASH then [] else [s[0]] + UpToHash(s[1..])
  }

  /** The query follows a `?` and ends at `#`; the fragment is never sent. */
  function QueryText(s: Str): Option<Str> {
    var rest := s[|PathText(s)|..];
    if rest != [] && rest[0] == QUESTION then Some(EscapeQuery(UpToHash(rest[1..]))) else None
  }

  /** Bytes that the URL parser escapes in a path; a `%` stays as it is. */
  predicate IsEscaped(b: Byte) {
    b <= 32 || b >= 127 || b == 34 || b == HASH || b == 60 || b == 62 || b == QUESTION
    || b == 94 || b == 96 || b == 123 || b == 125
  }

  /** Bytes that it escapes in the query of an http address. */
  predicate IsEscapedInQuery(b: Byte) {
    b <= 32 || b >= 127 || b == 34 || b == HASH || b == 39 || b == 60 || b == 62
  }

  function EscapeQuery(s: Str): Str {
    if s == [] then []
    else
      var b := s[0];
      (if IsEscapedInQuery(b) then [PERCENT, HexDigit(b / 16), HexDigit(b % 16)] else [b]) + EscapeQuery(s[1..])
  }

  function Escape(s: Str): Str {
    if s == [] then []
    else (if IsEscaped(s[0]) then [PERCENT, HexDigit(s[0] / 16), HexDigit(s[0] % 16)] else [s[0]]) + Escape(s[1..])
  }

  predicate IsSlash(b: Byte) {
    b == SLASH || b == BACKSLASH
  }

  /** The segments of a path; a backslash separates as a slash does. */
  function Split(s: Str): (r: seq<Str>)
    ensures r != []
  {
    if s == [] then [[]]
    else if IsSlash(s[0]) then [[]] + Split(s[1..])
    else
      var rest := Split(s[1..]);
      [[s[0]] + rest[0]] + rest[1..]
  }

  /** `.`, also written `%2e`. */
  function DotAt(s: Str): nat {
    if s != [] && s[0] == DOT then 1
    else if |s| >= 3 && s[0] == PERCENT && s[1] == 50 && (s[2] == 69 || s[2] == 101) then 3
    else 0
  }

  predicate IsSingleDot(s: Str) {
    DotAt(s) > 0 && DotAt(s) == |s|
  }

  predicate IsDoubleDot(s: Str) {
    DotAt(s) > 0 && DotAt(s) <= |s| && IsSingleDot(s[DotAt(s)..])
  }

  predicate IsDots(s: Str) {
    IsSingleDot(s) || IsDoubleDot(s)
  }

  function Pop(stack: seq<Str>): seq<Str> {
    if stack == [] then [] else stack[..|stack| - 1]
  }

  /** Dot segments are resolved while the segments are collected. */
  function Resolve(segments: seq<Str>, stack: seq<Str>): seq<Str>
    decreases |segments|
  {
    if segments == [] then stack
    else
      var s, last := segments[0], if |segments| == 1 then [[]] else [];
      if IsDoubleDot(s) then Resolve(segments[1..], Pop(stack) + last)
      else if IsSingleDot(s) then Resolve(segments[1..], stack + last)
      else Resolve(segments[1..], stack + [Escape(s)])
  }

  // ---- The server ----

  function Join(segments: seq<Str>): Str {
    if segments == [] then []
    else if |segments| == 1 then segments[0]
    else segments[0] + [SLASH] + Join(segments[1..])
  }

  /** Where a request arrives at the upload handler, and the query with it. */
  datatype Arrival = Arrival(bucket: Str, key: Str, query: Option<Str>)

  /** The route `/ui/upload/{bucket}/{*key}`: neither parameter is empty, both are percent-decoded
      and must be UTF-8. */
  function Route(segments: seq<Str>, query: Option<Str>): Option<Arrival> {
    if |segments| < 4 || segments[0] != UI || segments[1] != UPLOAD || segments[2] == [] || Join(segments[3..]) == []
    then None
    else
      var bucket, key := PercentDecode(segments[2]), PercentDecode(Join(segments[3..]));
      if ValidUtf8(bucket) && ValidUtf8(key) then Some(Arrival(bucket, key, query)) else None
  }

  /** What becomes of a request to an address; `None` is a request that does not reach the handler. */
  function Arrives(address: Str): Option<Arrival> {
    var s := Clean(address);
    Route(Resolve(Split(PathText(s)), []), QueryText(s))
  }

  // ---- Keys that an address carries ----

  /** No `%` with two hexadecimal digits after it. */
  predicate NoEscape(s: Str) {
    s == [] || (!IsEscape(s) && NoEscape(s[1..]))
  }

  predicate IsPlainByte(b: Byte) {
    !IsRemoved(b) && !IsMark(b) && b != BACKSLASH
  }

  ghost predicate NoDots(segments: seq<Str>) {
    forall s :: s in segments ==> !IsDots(s)
  }

  /** Nothing in the key means anything in an address. */
  ghost predicate PlainKey(key: Str) {
    && key != [] && NoEscape(key) && NoDots(Split(key))
    && forall b :: b in key ==> IsPlainByte(b)
  }

  /** What bucket names are made of: lower-case letters, digits, hyphens and dots, no dot first. */
  predicate IsBucketName(b: Str) {
    && b != [] && b[0] != DOT
    && forall c :: c in b ==> 48 <= c <= 57 || 97 <= c <= 122 || c == 45 || c == DOT
  }

  /** Queries of the upload protocol: nothing in them is removed, escaped or a mark. */
  predicate IsPlainQuery(q: Str) {
    forall c :: c in q ==> !IsEscapedInQuery(c) && !IsRemoved(c)
  }

  // ---- Cleaning and cutting ----

  lemma {:induction false} CleanConcat(a: Str, b: Str)
    ensures Clean(a + b) == Clean(a) + Clean(b)
  {
    if a == [] {
      assert a + b == b && Clean(a) + Clean(b) == Clean(b);
    } else {
      var head := if IsRemoved(a[0]) then [] else [a[0]];
      CleanConcat(a[1..], b);
      assert (a + b)[1..] == a[1..] + b;
      assert head + (Clean(a[1..]) + Clean(b)) == head + Clean(a[1..]) + Clean(b);
    }
  }

  lemma {:induction false} CleanShrinks(s: Str)
    ensures |Clean(s)| <= |s|
    ensures |Clean(s)| == |s| <==> forall b :: b in s ==> !IsRemoved(b)
    ensures |Clean(s)| == |s| ==> Clean(s) == s
  {
    if s != [] {
      CleanShrinks(s[1..]);
      assert s == [s[0]] + s[1..];
    }
  }

  lemma PathStep(s: Str)
    requires s != [] && !IsMark(s[0])
    ensures PathText(s) == [s[0]] + PathText(s[1..])
  {
  }

  lemma {:induction false} PathOfConcat(a: Str, b: Str)
    requires forall c :: c in a ==> !IsMark(c)
    ensures PathText(a + b) == a + PathText(b)
  {
    hide PathText;
    if a == [] {
      assert a + b == b && [] + PathText(b) == PathText(b);
    } else {
      var rest := a[1..];
      assert a[0] in a;
      assert forall c :: c in rest ==> c in a;
      PathOfConcat(rest, b);
      PathStep(a + b);
      assert (a + b)[1..] == rest + b && (a + b)[0] == a[0];
      assert [a[0]] + (rest + PathText(b)) == a + PathText(b);
    }
  }

  /** What follows a mark does not matter to the path. */
  lemma {:induction false} PathBeforeMark(a: Str, b: Str)
    requires b != [] && IsMark(b[0])
    ensures PathText(a + b) == PathText(a)
  {
    if a == [] {
      assert a + b == b;
    } else {
      PathBeforeMark(a[1..], b);
      assert (a + b)[1..] == a[1..] + b;
    }
  }

  lemma {:induction false} PlainQueryStays(q: Str)
    requires IsPlainQuery(q)
    ensures EscapeQuery(UpToHash(q)) == q && UpToHash(q) == q && Clean(q) == q
  {
    if q != [] {
      assert q[0] in q;
      assert forall c :: c in q[1..] ==> c in q;
      PlainQueryStays(q[1..]);
    }
  }

  // ---- Splitting and joining ----

  /** Every separator as a slash. */
  function Slashes(s: Str): (r: Str)
    ensures |r| == |s|
    ensures forall i :: 0 <= i < |s| ==> r[i] == if IsSlash(s[i]) then SLASH else s[i]
  {
    if s == [] then [] else [if IsSlash(s[0]) then SLASH else s[0]] + Slashes(s[1..])
  }

  lemma {:induction false} JoinSplit(s: Str)
    ensures Join(Split(s)) == Slashes(s)
  {
    if s != [] {
      JoinSplit(s[1..]);
      var rest := Split(s[1..]);
      if IsSlash(s[0]) {
        assert ([[]] + rest)[1..] == rest;
      } else {
        var all := [[s[0]] + rest[0]] + rest[1..];
        assert all[1..] == rest[1..];
        assert |rest| > 1 ==> Join(rest) == rest[0] + [SLASH] + Join(rest[1..]);
      }
    }
  }

  /** A first segment without separators is split off whole. */
  lemma {:induction false} SplitFirst(a: Str, s: Str)
    requires forall c :: c in a ==> !IsSlash(c)
    ensures Split(a + [SLASH] + s) == [a] + Split(s)
  {
    var all := a + [SLASH] + s;
    if a == [] {
      assert all[1..] == s;
    } else {
      assert a[0] in a;
      assert forall c :: c in a[1..] ==> c in a;
      SplitFirst(a[1..], s);
      assert all[1..] == a[1..] + [SLASH] + s;
      var rest := Split(all[1..]);
      assert rest[0] == a[1..] && rest[1..] == Split(s);
      assert !IsSlash(all[0]) && [a[0]] + a[1..] == a;
    }
  }

  // ---- Decoding ----

  /** Decoding shortens, and changes nothing exactly when there is no escape. */
  lemma {:induction false} DecodeShrinks(s: Str)
    ensures |PercentDecode(s)| <= |s|
    ensures |PercentDecode(s)| == |s| <==> NoEscape(s)
    ensures NoEscape(s) ==> PercentDecode(s) == s
    decreases |s|
  {
    if s != [] {
      if IsEscape(s) {
        DecodeShrinks(s[3..]);
      } else {
        DecodeShrinks(s[1..]);
      }
    }
  }

  /** Hexadecimal digits stay, and nothing else becomes one. */
  lemma EscapeNext(s: Str)
    requires s != []
    ensures Escape(s) != [] && (HexValue(Escape(s)[0]).Some? <==> HexValue(s[0]).Some?)
    ensures HexValue(s[0]).Some? || s[0] == PERCENT ==> Escape(s) == [s[0]] + Escape(s[1..])
  {
    assert HexValue(PERCENT).None?;
  }

  lemma EscapeHead(s: Str)
    requires s != [] && s[0] == PERCENT
    ensures IsEscape(Escape(s)) <==> IsEscape(s)
    ensures Escape(s) == [PERCENT] + Escape(s[1..])
    ensures IsEscape(s) ==> Escape(s) == s[..3] + Escape(s[3..])
  {
    hide Escape, HexValue;
    EscapeNext(s);
    EscapeOfNone();
    var e, t := Escape(s), s[1..];
    if t != [] {
      EscapeNext(t);
      assert e[1] == Escape(t)[0] && s[1] == t[0];
      var u := t[1..];
      if HexValue(t[0]).Some? {
        assert e == [PERCENT, s[1]] + Escape(u);
        if u != [] {
          EscapeNext(u);
          assert e[2] == Escape(u)[0] && s[2] == u[0] && u[1..] == s[3..];
        }
      }
    }
  }

  lemma EscapeOfNone()
    ensures Escape([]) == []
  {
  }

  /** Decoding undoes the browser's escaping, and only adds what it did not make itself. */
  lemma {:induction false} DecodeEscape(s: Str)
    ensures PercentDecode(Escape(s)) == PercentDecode(s)
    decreases |s|
  {
    if s != [] {
      var e := Escape(s);
      if s[0] == PERCENT {
        EscapeHead(s);
        if IsEscape(s) {
          assert e[3..] == Escape(s[3..]) && e[1] == s[1] && e[2] == s[2];
          DecodeEscape(s[3..]);
        } else {
          assert e[1..] == Escape(s[1..]);
          DecodeEscape(s[1..]);
        }
      } else {
        DecodeEscape(s[1..]);
        if IsEscaped(s[0]) {
          EscapedByte(s[0], Escape(s[1..]));
        } else {
          assert e[1..] == Escape(s[1..]);
        }
      }
    }
  }

  lemma EscapedByte(b: Byte, rest: Str)
    ensures PercentDecode([PERCENT, HexDigit(b / 16), HexDigit(b % 16)] + rest) == [b] + PercentDecode(rest)
  {
    var s := [PERCENT, HexDigit(b / 16), HexDigit(b % 16)] + rest;
    assert HexValue(HexDigit(b / 16)) == Some(b / 16) && HexValue(HexDigit(b % 16)) == Some(b % 16);
    assert IsEscape(s) && s[3..] == rest;
  }

  lemma DecodeStep(s: Str)
    requires s != []
    ensures IsEscape(s) ==>
      PercentDecode(s) == [16 * HexValue(s[1]).value + HexValue(s[2]).value] + PercentDecode(s[3..])
    ensures !IsEscape(s) ==> PercentDecode(s) == [s[0]] + PercentDecode(s[1..])
  {
  }

  /** A slash is part of no escape. */
  lemma {:induction false} DecodeAtSlash(a: Str, b: Str)
    ensures PercentDecode(a + [SLASH] + b) == PercentDecode(a) + [SLASH] + PercentDecode(b)
    decreases |a|
  {
    hide PercentDecode, HexValue;
    var s := a + [SLASH] + b;
    DecodeStep(s);
    if a == [] {
      assert PercentDecode(a) == [] by {
        DecodeShrinks(a);
      }
      assert s[1..] == b;
    } else if IsEscape(a) {
      DecodeStep(a);
      assert s[0] == a[0] && s[1] == a[1] && s[2] == a[2];
      assert s[3..] == a[3..] + [SLASH] + b;
      DecodeAtSlash(a[3..], b);
    } else {
      DecodeStep(a);
      SlashEndsEscape(a, b);
      assert s[1..] == a[1..] + [SLASH] + b;
      DecodeAtSlash(a[1..], b);
    }
  }

  lemma SlashEndsEscape(a: Str, b: Str)
    requires a != [] && !IsEscape(a)
    ensures !IsEscape(a + [SLASH] + b)
  {
    var s := a + [SLASH] + b;
    if |a| < 3 {
      assert s[|a|] == SLASH && HexValue(SLASH).None?;
    } else {
      assert s[0] == a[0] && s[1] == a[1] && s[2] == a[2];
    }
  }

  /** The weight of segments: what they add to a decoded path, separators included. */
  function Weight(segments: seq<Str>): nat {
    if segments == [] then 0 else 1 + |PercentDecode(segments[0])| + Weight(segments[1..])
  }

  lemma {:induction false} WeightIsLength(segments: seq<Str>)
    requires segments != []
    ensures Weight(segments) == 1 + |PercentDecode(Join(segments))|
  {
    if |segments| > 1 {
      WeightIsLength(segments[1..]);
      DecodeAtSlash(segments[0], Join(segments[1..]));
    } else {
      assert segments[1..] == [];
    }
  }

  lemma {:induction false} WeightConcat(x: seq<Str>, y: seq<Str>)
    ensures Weight(x + y) == Weight(x) + Weight(y)
  {
    if x == [] {
      assert x + y == y;
    } else {
      assert (x + y)[1..] == x[1..] + y;
      WeightConcat(x[1..], y);
    }
  }

  function Escapes(segments: seq<Str>): seq<Str> {
    if segments == [] then [] else [Escape(segments[0])] + Escapes(segments[1..])
  }

  lemma {:induction false} EscapesDecode(segments: seq<Str>)
    ensures PercentDecode(Join(Escapes(segments))) == PercentDecode(Join(segments))
    ensures |Escapes(segments)| == |segments|
    ensures (Join(Escapes(segments)) == [] <==> Join(segments) == [])
  {
    if segments != [] {
      EscapesDecode(segments[1..]);
      DecodeEscape(segments[0]);
      var e := Escapes(segments);
      assert e[1..] == Escapes(segments[1..]) && e[0] == Escape(segments[0]);
      if |segments| > 1 {
        DecodeAtSlash(segments[0], Join(segments[1..]));
        DecodeAtSlash(e[0], Join(e[1..]));
      }
    }
  }

  // ---- Dot segments only lose weight ----

  function Below(stack: seq<Str>): seq<Str> {
    if |stack| >= 3 then stack[3..] else []
  }

  lemma DotsWeigh(s: Str)
    requires IsDots(s)
    ensures |PercentDecode(s)| >= 1
  {
  }

  lemma PushWeight(stack: seq<Str>, s: Str)
    ensures Weight(Below(stack + [s])) <= Weight(Below(stack)) + 1 + |PercentDecode(s)|
  {
    if |stack| >= 3 {
      assert (stack + [s])[3..] == stack[3..] + [s];
      WeightConcat(stack[3..], [s]);
      assert Weight([s]) == 1 + |PercentDecode(s)| + Weight([s][1..]);
    } else {
      assert Below(stack + [s]) == [];
    }
  }

  lemma PopWeight(stack: seq<Str>)
    ensures Weight(Below(Pop(stack))) <= Weight(Below(stack))
  {
    if |stack| > 3 {
      var all, last := stack[3..], [stack[|stack| - 1]];
      assert all == Below(Pop(stack)) + last;
      WeightConcat(Below(Pop(stack)), last);
    }
  }

  lemma {:induction false} ResolveWeight(segments: seq<Str>, stack: seq<Str>)
    ensures Weight(Below(Resolve(segments, stack))) <= Weight(Below(stack)) + Weight(segments)
    ensures !NoDots(segments) ==> Weight(Below(Resolve(segments, stack))) < Weight(Below(stack)) + Weight(segments)
    decreases |segments|
  {
    hide Escape, IsDoubleDot, IsSingleDot, PercentDecode, Below;
    if segments != [] {
      var s, last := segments[0], if |segments| == 1 then [[]] else [];
      assert segments == [s] + segments[1..];
      if IsDoubleDot(s) || IsSingleDot(s) {
        DotsWeigh(s);
        var kept := if IsDoubleDot(s) then Pop(stack) else stack;
        PopWeight(stack);
        PushWeight(kept, []);
        assert PercentDecode([]) == [] by {
          DecodeShrinks([]);
        }
        assert kept + [] == kept;
        ResolveWeight(segments[1..], kept + last);
      } else {
        PushWeight(stack, Escape(s));
        DecodeEscape(s);
        ResolveWeight(segments[1..], stack + [Escape(s)]);
        assert !NoDots(segments) ==> !NoDots(segments[1..]);
      }
    }
  }

  lemma ResolveStep(segments: seq<Str>, stack: seq<Str>)
    requires segments != [] && !IsDots(segments[0])
    ensures Resolve(segments, stack) == Resolve(segments[1..], stack + [Escape(segments[0])])
    ensures Escapes(segments) == [Escape(segments[0])] + Escapes(segments[1..])
  {
    hide Escape, IsDoubleDot, IsSingleDot;
  }

  lemma {:induction false} ResolvePlain(segments: seq<Str>, stack: seq<Str>)
    requires NoDots(segments)
    ensures Resolve(segments, stack) == stack + Escapes(segments)
    decreases |segments|
  {
    hide Escape, IsDots;
    if segments != [] {
      hide Resolve, Escapes;
      var first, rest := segments[0], segments[1..];
      assert first in segments;
      assert forall s :: s in rest ==> s in segments;
      ResolveStep(segments, stack);
      ResolvePlain(rest, stack + [Escape(first)]);
      assert stack + [Escape(first)] + Escapes(rest) == stack + ([Escape(first)] + Escapes(rest));
    } else {
      assert stack + [] == stack;
    }
  }

  // ---- What an address carries ----

  function Front(bucket: Str): Str {
    UI + [SLASH] + UPLOAD + [SLASH] + bucket + [SLASH]
  }

  lemma {:induction false} CleanStays(s: Str)
    requires forall c :: c in s ==> !IsRemoved(c)
    ensures Clean(s) == s
  {
    CleanShrinks(s);
  }

  lemma CleanAddress(b: Str, key: Str, q: Str)
    requires IsBucketName(b) && IsPlainQuery(q)
    ensures Clean(Address(b, key, q)) == Front(b) + (Clean(key) + ([QUESTION] + q))
  {
    hide Clean;
    var front, tail := Front(b), [QUESTION] + q;
    CleanStays(front);
    CleanStays(tail);
    CleanConcat(key, tail);
    CleanConcat(front, key + tail);
    assert Address(b, key, q) == front + (key + tail);
  }

  /** What the path keeps of the key. */
  function PathKey(key: Str): Str {
    PathText(Clean(key))
  }

  lemma PathOfAddress(b: Str, key: Str, q: Str)
    requires IsBucketName(b) && IsPlainQuery(q)
    ensures PathText(Clean(Address(b, key, q))) == Front(b) + PathKey(key)
  {
    hide Clean, PathText;
    CleanAddress(b, key, q);
    PathOfConcat(Front(b), Clean(key) + ([QUESTION] + q));
    PathBeforeMark(Clean(key), [QUESTION] + q);
  }

  lemma {:induction false} BucketNameStays(b: Str)
    requires forall c :: c in b ==> 48 <= c <= 57 || 97 <= c <= 122 || c == 45 || c == DOT
    ensures Escape(b) == b && PERCENT !in b
  {
    if b != [] {
      assert b[0] in b;
      assert forall c :: c in b[1..] ==> c in b;
      BucketNameStays(b[1..]);
    }
  }

  lemma SplitAddress(b: Str, k: Str)
    requires IsBucketName(b)
    ensures Split(Front(b) + k) == [UI] + ([UPLOAD] + ([b] + Split(k)))
  {
    hide Split;
    SplitFirst(b, k);
    SplitFirst(UPLOAD, b + [SLASH] + k);
    SplitFirst(UI, UPLOAD + [SLASH] + (b + [SLASH] + k));
    assert Front(b) + k == UI + [SLASH] + (UPLOAD + [SLASH] + (b + [SLASH] + k));
  }

  lemma ResolvePush(s: Str, segments: seq<Str>, stack: seq<Str>)
    requires s != [] && s[0] != DOT && PERCENT !in s && Escape(s) == s
    ensures Resolve([s] + segments, stack) == Resolve(segments, stack + [s])
  {
    assert s[0] in s;
    assert ([s] + segments)[1..] == segments;
  }

  lemma AddressSegments(b: Str, key: Str, q: Str)
    requires IsBucketName(b) && IsPlainQuery(q)
    ensures var s := Clean(Address(b, key, q));
      Resolve(Split(PathText(s)), []) == Resolve(Split(PathKey(key)), [UI, UPLOAD, b])
  {
    hide Split, Clean, PathText, Resolve, Escape, Address, PathKey, Front;
    PathOfAddress(b, key, q);
    SplitAddress(b, PathKey(key));
    BucketNameStays(UI);
    BucketNameStays(UPLOAD);
    BucketNameStays(b);
    var k := Split(PathKey(key));
    ResolvePush(UI, [UPLOAD] + ([b] + k), []);
    ResolvePush(UPLOAD, [b] + k, [UI]);
    ResolvePush(b, k, [UI, UPLOAD]);
    assert [] + [UI] == [UI] && [UI] + [UPLOAD] == [UI, UPLOAD] && [UI, UPLOAD] + [b] == [UI, UPLOAD, b];
  }

  lemma {:induction false} PathShrinks(s: Str)
    ensures |PathText(s)| == |s| ==> PathText(s) == s && forall c :: c in s ==> !IsMark(c)
    ensures (forall c :: c in s ==> !IsMark(c)) ==> PathText(s) == s
  {
    if forall c :: c in s ==> !IsMark(c) {
      PathOfConcat(s, []);
      assert s + [] == s;
    }
  }

  /** The whole key reaches the path exactly when nothing in it is removed or ends the path. */
  lemma WholePathKey(key: Str)
    ensures |PathKey(key)| <= |key|
    ensures |PathKey(key)| == |key| <==> forall c :: c in key ==> !IsRemoved(c) && !IsMark(c)
    ensures |PathKey(key)| == |key| ==> PathKey(key) == key
  {
    CleanShrinks(key);
    PathShrinks(Clean(key));
  }

  lemma SlashesStay(s: Str)
    ensures Slashes(s) == s <==> BACKSLASH !in s
  {
    if BACKSLASH !in s {
      forall i | 0 <= i < |s| ensures Slashes(s)[i] == s[i] {
        assert s[i] in s;
      }
    } else {
      var i :| 0 <= i < |s| && s[i] == BACKSLASH;
      assert Slashes(s)[i] == SLASH;
    }
  }

  /** A key in which nothing means anything in an address arrives as it is, with its query. */
  lemma PlainKeyArrives(b: Str, key: Str, q: Str)
    requires IsBucketName(b) && IsPlainQuery(q) && PlainKey(key) && ValidUtf8(key)
    ensures Arrives(Address(b, key, q)) == Some(Arrival(b, key, Some(q)))
  {
    hide Split, Clean, PathText, Resolve, Join, PercentDecode, Escape, EscapeQuery, Escapes, UpToHash, ValidUtf8;
    hide NoDots;
    WholePathKey(key);
    CleanStays(key);
    AddressSegments(b, key, q);
    var segments := Split(key);
    ResolvePlain(segments, [UI, UPLOAD, b]);
    var stack := [UI, UPLOAD, b] + Escapes(segments);
    assert stack[3..] == Escapes(segments);
    JoinSplit(key);
    SlashesStay(key);
    EscapesDecode(segments);
    DecodeShrinks(key);
    BucketNameStays(b);
    NoPercentDecodesToItself(b);
    AsciiIsUtf8(b);
    var s := Clean(Address(b, key, q));
    CleanAddress(b, key, q);
    PathOfAddress(b, key, q);
    assert s == Front(b) + key + ([QUESTION] + q);
    assert s[|Front(b) + key|..] == [QUESTION] + q;
    PlainQueryStays(q);
    assert ([QUESTION] + q)[1..] == q;
  }

  /** Any other key does not arrive, or another key arrives in its place. */
  lemma OnlyPlainKeysArrive(b: Str, key: Str, q: Str)
    requires IsBucketName(b) && IsPlainQuery(q)
    requires var a := Arrives(Address(b, key, q)); a.Some? && a.value.key == key
    ensures PlainKey(key)
  {
    hide Split, Clean, PathText, Resolve, Join, PercentDecode, Escape, EscapeQuery, Escapes, UpToHash, ValidUtf8;
    hide NoDots, Weight;
    hide QueryText, NoEscape;
    AddressSegments(b, key, q);
    WholePathKey(key);
    var k, front := PathKey(key), [UI, UPLOAD, b];
    var segments := Split(k);
    var stack := Resolve(segments, front);
    assert Below(front) == [] && Weight([]) == 0 by {
      WeightOfNone();
    }
    ResolveWeight(segments, front);
    WeightIsLength(segments);
    WeightIsLength(stack[3..]);
    JoinSplit(k);
    DecodeShrinks(Slashes(k));
    assert |PercentDecode(Slashes(k))| == |k| == |key| && k == key && NoDots(segments);
    ResolvePlain(segments, front);
    assert stack[3..] == Escapes(segments);
    EscapesDecode(segments);
    SlashesStay(key);
    NonEmptyDecodes(Join(stack[3..]));
  }

  lemma WeightOfNone()
    ensures Weight([]) == 0
  {
  }

  lemma NonEmptyDecodes(s: Str)
    ensures PercentDecode(s) == [] <==> s == []
  {
  }

  /** The address of a key is the key's own exactly when the key is plain. */
  lemma CarriesExactlyPlainKeys(b: Str, key: Str, q: Str)
    requires IsBucketName(b) && IsPlainQuery(q) && ValidUtf8(key)
    ensures Arrives(Address(b, key, q)) == Some(Arrival(b, key, Some(q))) <==> PlainKey(key)
    ensures !PlainKey(key) && Arrives(Address(b, key, q)).Some? ==> Arrives(Address(b, key, q)).value.key != key
  {
    hide Arrives, PlainKey;
    if PlainKey(key) {
      PlainKeyArrives(b, key, q);
    }
    var a := Arrives(Address(b, key, q));
    if a.Some? && a.value.key == key {
      OnlyPlainKeysArrive(b, key, q);
    }
  }

  // ---- Plain keys by positions ----

  predicate IsHex(b: Byte) {
    48 <= b < 58 || 65 <= b < 71 || 97 <= b < 103
  }

  /** A percent sign with two hexadecimal digits after it. */
  predicate EscapeAt(s: Str, i: int) {
    0 <= i && i + 2 < |s| && s[i] == 37 && IsHex(s[i + 1]) && IsHex(s[i + 2])
  }

  /** A whole segment of one or two dots from position `i` on. */
  predicate DotsAt(s: Str, i: int, n: int) {
    && (n == 1 || n == 2) && 0 <= i && i + n <= |s|
    && s[i] == 46 && s[i + n - 1] == 46
    && (i == 0 || s[i - 1] == 47)
    && (i + n == |s| || s[i + n] == 47)
  }

  lemma {:induction false} NoEscapeByPosition(s: Str)
    ensures NoEscape(s) <==> forall i :: !EscapeAt(s, i)
  {
    if s != [] {
      NoEscapeByPosition(s[1..]);
      assert forall i :: i >= 1 ==> (EscapeAt(s, i) <==> EscapeAt(s[1..], i - 1));
      assert IsEscape(s) <==> EscapeAt(s, 0);
      if !NoEscape(s[1..]) {
        var i :| EscapeAt(s[1..], i);
        assert EscapeAt(s, i + 1);
      }
    }
  }

  lemma {:induction false} SplitWhole(s: Str)
    requires forall c :: c in s ==> !IsSlash(c)
    ensures Split(s) == [s]
  {
    if s != [] {
      assert s[0] in s;
      assert forall c :: c in s[1..] ==> c in s;
      SplitWhole(s[1..]);
      assert [s[0]] + s[1..] == s;
    }
  }

  lemma PlainDots(s: Str)
    requires forall i :: !EscapeAt(s, i)
    ensures IsDots(s) <==> s == [46] || s == [46, 46]
  {
    assert !EscapeAt(s, 0) && !EscapeAt(s, 1);
    if |s| >= 1 {
      var t := s[1..];
      assert |t| >= 3 ==> t[1] == s[2] && t[2] == s[3];
      assert t == [] || t[0] == s[1];
      assert !EscapeAt(t, 0) by {
        assert EscapeAt(t, 0) ==> EscapeAt(s, 1);
      }
      assert DotAt(t) > 0 ==> t[0] == 46 || EscapeAt(t, 0);
    }
    assert DotAt(s) > 0 ==> s[0] == 46 || EscapeAt(s, 0);
  }

  /** The first segment, and what is behind the slash that ends it. */
  lemma DotsBehind(a: Str, rest: Str, i: int, n: int)
    requires forall c :: c in a ==> !IsSlash(c)
    ensures var s := a + [SLASH] + rest;
      && (i > 0 ==> (DotsAt(s, i, n) <==> i > |a| && DotsAt(rest, i - |a| - 1, n)))
      && (i == 0 ==> (DotsAt(s, i, n) <==> (n == 1 && a == [46]) || (n == 2 && a == [46, 46])))
  {
    var s := a + [SLASH] + rest;
    assert forall j :: 0 <= j < |a| ==> s[j] == a[j] && a[j] in a;
    assert s[|a|] == SLASH;
    assert forall j :: 0 <= j < |rest| ==> s[|a| + 1 + j] == rest[j];
  }

  lemma {:induction false} NoDotsByPosition(s: Str)
    requires BACKSLASH !in s && forall i :: !EscapeAt(s, i)
    ensures NoDots(Split(s)) <==> forall i, n :: !DotsAt(s, i, n)
    decreases |s|
  {
    hide IsDots, Split;
    if forall c :: c in s ==> !IsSlash(c) {
      SplitWhole(s);
      PlainDots(s);
      DotsWhole(s);
      assert NoDots([s]) <==> !IsDots(s);
    } else {
      var k := FirstSlash(s);
      var a, rest := s[..k], s[k + 1..];
      assert s == a + [SLASH] + rest;
      SplitFirst(a, rest);
      PartsHaveNoEscape(a, rest);
      PlainDots(a);
      NoDotsByPosition(rest);
      FirstOrRest(a, Split(rest));
      forall i, n ensures DotsAt(s, i, n) ==> IsDots(a) || DotsAt(rest, i - k - 1, n) {
        DotsBehind(a, rest, i, n);
      }
      if IsDots(a) {
        DotsBehind(a, rest, 0, |a|);
      }
      if i, n :| DotsAt(rest, i, n) {
        DotsBehind(a, rest, i + k + 1, n);
        assert DotsAt(s, i + k + 1, n);
      }
    }
  }

  lemma FirstSlash(s: Str) returns (k: nat)
    requires BACKSLASH !in s && exists c :: c in s && IsSlash(c)
    ensures k < |s| && s[k] == SLASH && forall c :: c in s[..k] ==> !IsSlash(c)
  {
    k := 0;
    while !IsSlash(s[k])
      invariant k < |s| && forall c :: c in s[..k] ==> !IsSlash(c)
      invariant exists j :: k <= j < |s| && IsSlash(s[j])
      decreases |s| - k
    {
      k := k + 1;
      assert s[..k] == s[..k - 1] + [s[k - 1]];
    }
    assert s[k] in s;
  }

  lemma FirstOrRest(a: Str, rest: seq<Str>)
    ensures NoDots([a] + rest) <==> !IsDots(a) && NoDots(rest)
  {
    hide IsDots;
    assert a in [a] + rest && forall s :: s in rest ==> s in [a] + rest;
  }

  lemma DotsWhole(s: Str)
    requires forall c :: c in s ==> !IsSlash(c)
    ensures (exists i, n :: DotsAt(s, i, n)) <==> s == [46] || s == [46, 46]
  {
    forall j | 0 <= j < |s| ensures s[j] != 47 {
      assert s[j] in s;
    }
    if s == [46] || s == [46, 46] {
      assert DotsAt(s, 0, |s|);
    }
  }

  lemma PartsHaveNoEscape(a: Str, rest: Str)
    requires forall i :: !EscapeAt(a + [SLASH] + rest, i)
    ensures forall i :: !EscapeAt(a, i)
    ensures forall i :: !EscapeAt(rest, i)
  {
    var s := a + [SLASH] + rest;
    forall i ensures !EscapeAt(a, i) {
      assert EscapeAt(a, i) ==> EscapeAt(s, i);
    }
    forall i ensures !EscapeAt(rest, i) {
      assert EscapeAt(rest, i) ==> EscapeAt(s, i + |a| + 1);
    }
  }

  /** Which keys are plain: those not empty, without tab, line break, `#`, `?` or backslash, without a
      percent sign before two hexadecimal digits, and without a segment `.` or `..`. */
  lemma PlainKeyMeaning(key: Str)
    ensures PlainKey(key) <==>
      && key != []
      && 9 !in key && 10 !in key && 13 !in key && 35 !in key && 63 !in key && 92 !in key
      && (forall i :: !EscapeAt(key, i))
      && (forall i, n :: !DotsAt(key, i, n))
  {
    hide NoEscape, Split, NoDots;
    NoEscapeByPosition(key);
    if 92 !in key && forall i :: !EscapeAt(key, i) {
      NoDotsByPosition(key);
    }
  }
}

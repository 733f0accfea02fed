/** Where requests go whose keys are not plain: what the browser's URL parser and the route make of
    the text in crates/ui/src/islands/upload_zone.rs:441-508. */
module StrayAddresses {
  import opened Wrappers
  import opened Bytes
  import opened KeyEncoding
  import opened UploadUrl

  /** The ways to write a dot in a segment of dots. */
  predicate IsDot(s: Str) {
    s == [46] || s == [37, 50, 101] || s == [37, 50, 69]
  }

  lemma DotForms(s: Str)
    ensures IsSingleDot(s) <==> IsDot(s)
  {
    assert |s| == 1 ==> s == [s[0]];
    assert |s| == 3 ==> s == [s[0], s[1], s[2]];
  }

  /** Two dots, each in any of the ways. */
  lemma DoubleDotForms(a: Str, b: Str)
    requires IsDot(a) && IsDot(b)
    ensures IsDoubleDot(a + b) && !IsSingleDot(a + b)
  {
    DotForms(b);
    assert (a + b)[|a|..] == b;
    assert forall i :: 0 <= i < |a| ==> (a + b)[i] == a[i];
  }

  lemma OnlyDoubleDots(s: Str)
    requires IsDoubleDot(s)
    ensures exists a, b :: IsDot(a) && IsDot(b) && s == a + b
  {
    var n := DotAt(s);
    DotForms(s[n..]);
    assert s == s[..n] + s[n..];
    assert n == 1 ==> s[..n] == [s[0]];
    assert n == 3 ==> s[..n] == [s[0], s[1], s[2]];
    assert IsDot(s[..n]);
  }

  // ---- The path ----

  ghost predicate NoMarks(key: Str) {
    forall c :: c in key ==> !IsMark(c)
  }

  /** A key without `#` and `?` reaches the route with all its segments, and the query with it. */
  lemma UnmarkedArrives(b: Str, key: Str, q: Str)
    requires IsBucketName(b) && IsPlainQuery(q) && NoMarks(key)
    ensures Arrives(Address(b, key, q)) == Route(Resolve(Split(Clean(key)), [UI, UPLOAD, b]), Some(q))
  {
    hide Split, Clean, PathText, Resolve, Route, Address, EscapeQuery, UpToHash;
    AddressSegments(b, key, q);
    CleanAddress(b, key, q);
    PathOfAddress(b, key, q);
    CleanKeepsUnmarked(key);
    PathShrinks(Clean(key));
    PlainQueryStays(q);
    var s, front := Clean(Address(b, key, q)), Front(b) + Clean(key);
    assert s == front + ([QUESTION] + q);
    assert s[|front|..] == [QUESTION] + q && ([QUESTION] + q)[1..] == q;
  }

  lemma {:induction false} CleanElements(s: Str)
    ensures forall c :: c in Clean(s) ==> c in s && !IsRemoved(c)
  {
    if s != [] {
      CleanElements(s[1..]);
      assert s[0] in s && forall c :: c in s[1..] ==> c in s;
    }
  }

  lemma CleanKeepsUnmarked(s: Str)
    requires NoMarks(s)
    ensures NoMarks(Clean(s)) && Clean(Clean(s)) == Clean(s)
  {
    hide Clean;
    CleanElements(s);
    CleanStays(Clean(s));
  }

  /** Tabs and line breaks in a key make no difference. */
  lemma RemovedBytes(b: Str, key: Str, q: Str)
    requires IsBucketName(b) && IsPlainQuery(q) && NoMarks(key)
    ensures Arrives(Address(b, key, q)) == Arrives(Address(b, Clean(key), q))
  {
    hide Arrives, Address, Split, Clean, Resolve, Route;
    CleanKeepsUnmarked(key);
    UnmarkedArrives(b, key, q);
    UnmarkedArrives(b, Clean(key), q);
  }

  lemma {:induction false} SplitSlashes(s: Str)
    ensures Split(Slashes(s)) == Split(s)
  {
    if s != [] {
      SplitSlashes(s[1..]);
      assert Slashes(s)[1..] == Slashes(s[1..]);
    }
  }

  lemma SlashesClean(s: Str)
    ensures Clean(s) == s ==> Clean(Slashes(s)) == Slashes(s)
    ensures NoMarks(s) ==> NoMarks(Slashes(s))
  {
    CleanShrinks(s);
    CleanShrinks(Slashes(s));
    var t := Slashes(s);
    if Clean(s) == s {
      forall c | c in t ensures !IsRemoved(c) {
        var i :| 0 <= i < |t| && t[i] == c;
        assert s[i] in s;
      }
    }
    if NoMarks(s) {
      forall c | c in t ensures !IsMark(c) {
        var i :| 0 <= i < |t| && t[i] == c;
        assert s[i] in s;
      }
    }
  }

  /** A backslash is a slash. */
  lemma Backslashes(b: Str, key: Str, q: Str)
    requires IsBucketName(b) && IsPlainQuery(q) && NoMarks(key) && Clean(key) == key
    ensures Arrives(Address(b, key, q)) == Arrives(Address(b, Slashes(key), q))
  {
    hide Arrives, Address, Split, Clean, Resolve, Route;
    SlashesClean(key);
    UnmarkedArrives(b, key, q);
    UnmarkedArrives(b, Slashes(key), q);
    SplitSlashes(key);
  }

  /** What a key has in common with plain ones: nothing is removed, cut off, or turned into a slash. */
  ghost predicate Ordinary(key: Str) {
    key != [] && forall c :: c in key ==> !IsRemoved(c) && !IsMark(c) && c != BACKSLASH
  }

  lemma RouteOf(b: Str, stack: seq<Str>, q: Str)
    requires IsBucketName(b) && |stack| >= 1
    ensures Route([UI, UPLOAD, b] + stack, Some(q)) ==
      if Join(stack) != [] && ValidUtf8(PercentDecode(Join(stack)))
      then Some(Arrival(b, PercentDecode(Join(stack)), Some(q))) else None
  {
    hide Join, PercentDecode, ValidUtf8;
    BucketNameStays(b);
    NoPercentDecodesToItself(b);
    AsciiIsUtf8(b);
    var all := [UI, UPLOAD, b] + stack;
    assert all[3..] == stack;
  }

  /** Escapes in a key are undone by the route: the request arrives under the decoded key, or not at
      all if that is no text. */
  lemma EscapedKeys(b: Str, key: Str, q: Str)
    requires IsBucketName(b) && IsPlainQuery(q) && Ordinary(key) && NoDots(Split(key))
    ensures Arrives(Address(b, key, q)) ==
      if ValidUtf8(PercentDecode(key)) then Some(Arrival(b, PercentDecode(key), Some(q))) else None
  {
    hide Arrives, Address, Split, Clean, Resolve, Route, Join, PercentDecode, Escapes, NoDots;
    CleanStays(key);
    UnmarkedArrives(b, key, q);
    ResolvePlain(Split(key), [UI, UPLOAD, b]);
    EscapesDecode(Split(key));
    JoinSplit(key);
    SlashesStay(key);
    RouteOf(b, Escapes(Split(key)), q);
  }

  // ---- Dot segments ----

  lemma SplitStep(c: Byte, rest: Str)
    ensures IsSlash(c) ==> Split([c] + rest) == [[]] + Split(rest)
    ensures !IsSlash(c) ==> Split([c] + rest) == [[c] + Split(rest)[0]] + Split(rest)[1..]
    ensures Split([]) == [[]]
  {
    assert ([c] + rest)[1..] == rest;
  }

  lemma {:induction false} SplitConcat(x: Str, y: Str)
    ensures Split(x + [SLASH] + y) == Split(x) + Split(y)
  {
    hide Split;
    if x == [] {
      SplitStep(SLASH, y);
      assert x + [SLASH] + y == [SLASH] + y;
    } else {
      var c, rest := x[0], x[1..];
      SplitConcat(rest, y);
      SplitStep(c, rest + [SLASH] + y);
      SplitStep(c, rest);
      assert [c] + rest == x && [c] + (rest + [SLASH] + y) == x + [SLASH] + y;
      var all := Split(rest) + Split(y);
      assert all[0] == Split(rest)[0] && all[1..] == Split(rest)[1..] + Split(y);
    }
  }

  lemma {:induction false} ResolveThrough(xs: seq<Str>, ys: seq<Str>, stack: seq<Str>)
    requires NoDots(xs) && ys != []
    ensures Resolve(xs + ys, stack) == Resolve(ys, stack + Escapes(xs))
    decreases |xs|
  {
    hide IsDots, Escape;
    if xs == [] {
      assert xs + ys == ys && stack + Escapes(xs) == stack;
    } else {
      hide Resolve, Escapes;
      var first, rest := xs[0], xs[1..];
      assert first in xs && forall s :: s in rest ==> s in xs;
      assert (xs + ys)[1..] == rest + ys && (xs + ys)[0] == first;
      ResolveStep(xs + ys, stack);
      ResolveStep(xs, stack);
      ResolveThrough(rest, ys, stack + [Escape(first)]);
      assert stack + [Escape(first)] + Escapes(rest) == stack + ([Escape(first)] + Escapes(rest));
    }
  }

  lemma {:induction false} JoinConcat(xs: seq<Str>, ys: seq<Str>)
    requires xs != [] && ys != []
    ensures Join(xs + ys) == Join(xs) + [SLASH] + Join(ys)
  {
    var all := xs + ys;
    assert all[1..] == xs[1..] + ys;
    if |xs| == 1 {
      assert all[1..] == ys;
    } else {
      JoinConcat(xs[1..], ys);
      assert xs[0] + [SLASH] + (Join(xs[1..]) + [SLASH] + Join(ys))
        == xs[0] + [SLASH] + Join(xs[1..]) + [SLASH] + Join(ys);
    }
  }

  /** A dot segment, and what it does to the segments before it. */
  lemma ResolveDots(s: Str, rest: seq<Str>, stack: seq<Str>)
    ensures IsDoubleDot(s) ==> Resolve([s] + rest, stack) == Resolve(rest, Pop(stack) + if rest == [] then [[]] else [])
    ensures IsSingleDot(s) && !IsDoubleDot(s) ==>
      Resolve([s] + rest, stack) == Resolve(rest, stack + if rest == [] then [[]] else [])
    ensures forall st :: Resolve([], st) == st
  {
    assert ([s] + rest)[1..] == rest;
  }

  lemma PlainPieces(x: Str)
    requires PlainKey(x)
    ensures Ordinary(x) && NoDots(Split(x)) && Join(Split(x)) == x && PercentDecode(x) == x
  {
    hide Split, NoDots;
    JoinSplit(x);
    SlashesStay(x);
    DecodeShrinks(x);
  }

  lemma SingleIsNotDouble(s: Str)
    requires IsDot(s)
    ensures IsSingleDot(s) && !IsDoubleDot(s)
  {
    DotForms(s);
  }

  /** The segments of a key with a dot segment between two plain ends, or after one. */
  lemma DotPieces(x: Str, dots: Str, y: Str)
    requires IsDot(dots) || IsDoubleDot(dots)
    ensures Split(x + [SLASH] + dots) == Split(x) + [dots]
    ensures Split(x + [SLASH] + dots + [SLASH] + y) == Split(x) + ([dots] + Split(y))
    ensures PlainKey(x) ==> Ordinary(x + [SLASH] + dots)
    ensures PlainKey(x) && PlainKey(y) ==> Ordinary(x + [SLASH] + dots + [SLASH] + y)
  {
    hide Split, PlainKey;
    DotBytes(dots);
    SplitWhole(dots);
    SplitConcat(x, dots);
    SplitFirst(dots, y);
    SplitConcat(x, dots + [SLASH] + y);
    assert x + [SLASH] + dots + [SLASH] + y == x + [SLASH] + (dots + [SLASH] + y);
    if PlainKey(x) {
      PlainPieces(x);
      if PlainKey(y) {
        PlainPieces(y);
      }
    }
  }

  lemma DotBytes(dots: Str)
    requires IsDot(dots) || IsDoubleDot(dots)
    ensures forall c :: c in dots ==> !IsSlash(c) && !IsRemoved(c) && !IsMark(c) && c != BACKSLASH
  {
    if IsDoubleDot(dots) {
      OnlyDoubleDots(dots);
    }
  }

  /** A single dot segment disappears; at the end it leaves a slash. */
  lemma DotDisappears(b: Str, x: Str, dot: Str, y: Str, q: Str)
    requires IsBucketName(b) && IsPlainQuery(q) && PlainKey(x) && PlainKey(y) && IsDot(dot)
    requires ValidUtf8(x + [SLASH] + y) && ValidUtf8(x + [SLASH])
    ensures Arrives(Address(b, x + [SLASH] + dot + [SLASH] + y, q)) == Some(Arrival(b, x + [SLASH] + y, Some(q)))
    ensures Arrives(Address(b, x + [SLASH] + dot, q)) == Some(Arrival(b, x + [SLASH], Some(q)))
  {
    hide Arrives, Address, Split, Clean, Resolve, Route, Join, Escapes, NoDots, PlainKey, PercentDecode, ValidUtf8;
    hide IsSingleDot, IsDoubleDot;
    var front := [UI, UPLOAD, b];
    PlainPieces(x);
    PlainPieces(y);
    SingleIsNotDouble(dot);
    DotPieces(x, dot, y);
    Through(b, x + [SLASH] + dot + [SLASH] + y, q);
    Through(b, x + [SLASH] + dot, q);
    ResolveThrough(Split(x), [dot] + Split(y), front);
    ResolveThrough(Split(x), [dot], front);
    ResolveDots(dot, Split(y), front + Escapes(Split(x)));
    ResolveDots(dot, [], front + Escapes(Split(x)));
    assert [dot] + [] == [dot];
    assert front + Escapes(Split(x)) + [] == front + Escapes(Split(x));
    ResolvePlain(Split(y), front + Escapes(Split(x)));
    Ends(b, Split(x), Split(y), q);
    Ends(b, Split(x), [[]], q);
    JoinNothing();
    assert x + [SLASH] + [] == x + [SLASH];
  }

  lemma JoinNothing()
    ensures Join([[]]) == [] && Escapes([[]]) == [[]] && PercentDecode([]) == []
  {
    var none: seq<Str> := [[]];
    assert none[1..] == [];
  }

  lemma Through(b: Str, key: Str, q: Str)
    requires IsBucketName(b) && IsPlainQuery(q) && Ordinary(key)
    ensures Arrives(Address(b, key, q)) == Route(Resolve(Split(key), [UI, UPLOAD, b]), Some(q))
  {
    hide Arrives, Address, Split, Clean, Resolve, Route;
    CleanStays(key);
    UnmarkedArrives(b, key, q);
  }

  /** The route on the segments of two pieces. */
  lemma Ends(b: Str, xs: seq<Str>, ys: seq<Str>, q: Str)
    requires IsBucketName(b) && xs != [] && ys != []
    ensures var key := PercentDecode(Join(xs)) + [SLASH] + PercentDecode(Join(ys));
      Route([UI, UPLOAD, b] + Escapes(xs) + Escapes(ys), Some(q)) ==
        if ValidUtf8(key) then Some(Arrival(b, key, Some(q))) else None
  {
    hide Route, Join, Escapes, PercentDecode, ValidUtf8;
    EscapesDecode(xs);
    EscapesDecode(ys);
    EscapesDecode(xs + ys);
    EscapesConcat(xs, ys);
    JoinConcat(xs, ys);
    DecodeAtSlash(Join(xs), Join(ys));
    RouteOf(b, Escapes(xs + ys), q);
    assert [UI, UPLOAD, b] + Escapes(xs) + Escapes(ys) == [UI, UPLOAD, b] + (Escapes(xs) + Escapes(ys));
  }

  lemma {:induction false} EscapesConcat(xs: seq<Str>, ys: seq<Str>)
    ensures Escapes(xs + ys) == Escapes(xs) + Escapes(ys)
  {
    if xs == [] {
      assert xs + ys == ys;
    } else {
      EscapesConcat(xs[1..], ys);
      assert (xs + ys)[1..] == xs[1..] + ys;
    }
  }

  /** A double dot segment takes the segment before it away; at the end it leaves a slash. */
  lemma DoubleDotClimbs(b: Str, x: Str, s: Str, dots: Str, y: Str, q: Str)
    requires IsBucketName(b) && IsPlainQuery(q) && PlainKey(x) && PlainKey(s) && PlainKey(y) && SLASH !in s
    requires IsDoubleDot(dots) && ValidUtf8(x + [SLASH] + y) && ValidUtf8(x + [SLASH])
    ensures Arrives(Address(b, x + [SLASH] + s + [SLASH] + dots + [SLASH] + y, q))
      == Some(Arrival(b, x + [SLASH] + y, Some(q)))
    ensures Arrives(Address(b, x + [SLASH] + s + [SLASH] + dots, q)) == Some(Arrival(b, x + [SLASH], Some(q)))
  {
    hide Arrives, Address, Split, Clean, Resolve, Route, Join, Escapes, NoDots, PlainKey, PercentDecode, ValidUtf8;
    hide IsSingleDot, IsDoubleDot;
    var front, xs := [UI, UPLOAD, b], x + [SLASH] + s;
    PlainPieces(x);
    PlainPieces(y);
    PlainPieces(s);
    JoinedIsOrdinary(x, s, dots, y);
    Through(b, xs + [SLASH] + dots + [SLASH] + y, q);
    Through(b, xs + [SLASH] + dots, q);
    ResolveThrough(Split(xs), [dots] + Split(y), front);
    ResolveThrough(Split(xs), [dots], front);
    ResolveDots(dots, Split(y), front + Escapes(Split(xs)));
    ResolveDots(dots, [], front + Escapes(Split(xs)));
    assert [dots] + [] == [dots];
    PopsLast(front, Split(x), s);
    assert front + Escapes(Split(x)) + [] == front + Escapes(Split(x));
    ResolvePlain(Split(y), front + Escapes(Split(x)));
    Ends(b, Split(x), Split(y), q);
    Ends(b, Split(x), [[]], q);
    JoinNothing();
    assert x + [SLASH] + [] == x + [SLASH];
  }

  lemma JoinedIsOrdinary(x: Str, s: Str, dots: Str, y: Str)
    requires PlainKey(x) && PlainKey(s) && PlainKey(y) && SLASH !in s && IsDoubleDot(dots)
    ensures var xs := x + [SLASH] + s;
      && Split(xs) == Split(x) + [s] && NoDots(Split(xs))
      && Split(xs + [SLASH] + dots) == Split(xs) + [dots]
      && Split(xs + [SLASH] + dots + [SLASH] + y) == Split(xs) + ([dots] + Split(y))
      && Ordinary(xs + [SLASH] + dots) && Ordinary(xs + [SLASH] + dots + [SLASH] + y)
  {
    hide Split, PlainKey, IsDots, IsDoubleDot;
    var xs := x + [SLASH] + s;
    PlainPieces(x);
    PlainPieces(s);
    PlainPieces(y);
    assert forall c :: c in s ==> !IsSlash(c);
    SplitWhole(s);
    SplitConcat(x, s);
    DotPieces(xs, dots, y);
    DotBytes(dots);
  }

  lemma PopsLast(front: seq<Str>, xs: seq<Str>, s: Str)
    ensures Pop(front + Escapes(xs + [s])) == front + Escapes(xs)
  {
    hide Escape;
    EscapesConcat(xs, [s]);
    assert Escapes([s]) == [Escape(s)];
    assert front + (Escapes(xs) + [Escape(s)]) == front + Escapes(xs) + [Escape(s)];
  }

  // ---- Queries and fragments ----

  /** What follows a `?` in the key is the query, up to a `#` if there is one; the query that the
      protocol adds is only the rest of it, or gone. */
  lemma QueryInKey(b: Str, k: Str, x: Str, y: Str, q: Str)
    requires IsBucketName(b) && IsPlainQuery(q) && PlainKey(k) && ValidUtf8(k) && IsPlainQuery(x)
    ensures Arrives(Address(b, k + [QUESTION] + x + [HASH] + y, q)) == Some(Arrival(b, k, Some(x)))
    ensures Arrives(Address(b, k + [QUESTION] + x, q)) == Some(Arrival(b, k, Some(x + [QUESTION] + q)))
  {
    hide Split, Clean, PathText, Resolve, Route, Address, ValidUtf8, PlainKey, EscapeQuery, UpToHash, Arrives;
    QueryBeforeHash(b, k, x, [HASH] + y, q);
    QueryBeforeHash(b, k, x, [], q);
    assert k + [QUESTION] + x + [HASH] + y == k + [QUESTION] + x + ([HASH] + y);
    assert k + [QUESTION] + x + [] == k + [QUESTION] + x;
    CleanedTail(x, y, q);
    HashCuts(x, Clean([HASH] + y) + [QUESTION] + q);
    assert x + (Clean([]) + [QUESTION] + q) == x + [QUESTION] + q;
    PlainQueryStays(x + [QUESTION] + q);
  }

  lemma CleanedTail(x: Str, y: Str, q: Str)
    ensures Clean([HASH] + y) + [QUESTION] + q != [] && (Clean([HASH] + y) + [QUESTION] + q)[0] == HASH
    ensures Clean([]) == []
  {
    assert ([HASH] + y)[1..] == y;
  }

  lemma {:induction false} HashCuts(x: Str, tail: Str)
    requires IsPlainQuery(x) && tail != [] && tail[0] == HASH
    ensures UpToHash(x + tail) == x && EscapeQuery(x) == x
  {
    if x == [] {
      assert x + tail == tail;
    } else {
      assert x[0] in x;
      assert forall c :: c in x[1..] ==> c in x;
      HashCuts(x[1..], tail);
      assert (x + tail)[1..] == x[1..] + tail;
    }
  }

  lemma PathOfQueryKey(k: Str, x: Str, tail: Str)
    requires PlainKey(k) && IsPlainQuery(x)
    ensures Clean(k + [QUESTION] + x + tail) == k + ([QUESTION] + x + Clean(tail))
    ensures PathKey(k + [QUESTION] + x + tail) == k && PathKey(k) == k
  {
    hide Clean, PathText, PlainKey;
    PlainPieces(k);
    CleanStays(k);
    PlainQueryStays(x);
    KeyCleaned(k, x, tail);
    assert k + [QUESTION] + x + Clean(tail) == k + ([QUESTION] + x + Clean(tail));
    PathBeforeMark(k, [QUESTION] + x + Clean(tail));
    PathShrinks(k);
  }

  lemma QueryOfTail(front: Str, k: Str, x: Str, rest: Str, q: Str)
    requires PathText(front + (k + ([QUESTION] + x + rest) + ([QUESTION] + q))) == front + k
    ensures QueryText(front + (k + ([QUESTION] + x + rest) + ([QUESTION] + q)))
      == Some(EscapeQuery(UpToHash(x + (rest + [QUESTION] + q))))
  {
    hide PathText, EscapeQuery, UpToHash;
    var s := front + (k + ([QUESTION] + x + rest) + ([QUESTION] + q));
    var after := [QUESTION] + (x + (rest + [QUESTION] + q));
    assert s == front + k + after;
    assert s[|front + k|..] == after && after[1..] == x + (rest + [QUESTION] + q);
  }

  /** The query as the parser reads it, when the key brings one. */
  lemma QueryBeforeHash(b: Str, k: Str, x: Str, tail: Str, q: Str)
    requires IsBucketName(b) && IsPlainQuery(q) && PlainKey(k) && ValidUtf8(k) && IsPlainQuery(x)
    ensures Arrives(Address(b, k + [QUESTION] + x + tail, q)) ==
      Some(Arrival(b, k, Some(EscapeQuery(UpToHash(x + (Clean(tail) + [QUESTION] + q))))))
  {
    hide Split, Clean, PathText, Resolve, Route, Address, ValidUtf8, PlainKey, EscapeQuery, UpToHash, PathKey, Front;
    hide QueryText, IsPlainQuery, IsBucketName;
    var key := k + [QUESTION] + x + tail;
    PathOfQueryKey(k, x, tail);
    AddressSegments(b, key, q);
    AddressSegments(b, k, q);
    CleanAddress(b, key, q);
    PathOfAddress(b, key, q);
    PlainKeyArrives(b, k, q);
    QueryOfTail(Front(b), k, x, Clean(tail), q);
    var s := Clean(Address(b, key, q));
    QueryOfRoute(Resolve(Split(k), [UI, UPLOAD, b]), QueryText(Clean(Address(b, k, q))), QueryText(s));
  }

  lemma KeyCleaned(k: Str, x: Str, tail: Str)
    requires Clean(k) == k && Clean(x) == x
    ensures Clean(k + [QUESTION] + x + tail) == k + [QUESTION] + x + Clean(tail)
  {
    hide Clean;
    CleanStays([QUESTION]);
    CleanConcat(k, [QUESTION]);
    CleanConcat(k + [QUESTION], x);
    CleanConcat(k + [QUESTION] + x, tail);
  }

  lemma QueryOfRoute(segments: seq<Str>, query: Option<Str>, other: Option<Str>)
    ensures Route(segments, other) ==
      if Route(segments, query).Some? then Some(Route(segments, query).value.(query := other)) else None
  {
    hide PercentDecode, ValidUtf8, Join;
  }
}

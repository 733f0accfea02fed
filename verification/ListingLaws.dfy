/** What a listing answers, said from the fields of the request and the entries of the directory. */
module ListingLaws {
  import opened Wrappers
  import opened Bytes
  import opened KeyEncoding
  import opened Meta
  import opened Collapsing
  import opened Paging
  import opened Listing

  /** The directory holds a name of the key. */
  ghost predicate Held(names: seq<Str>, k: Str) {
    exists n :: n in names && DecodeKey(n) == Success(k)
  }

  /** The key has the request's prefix and lies above its token. */
  predicate Wanted(req: Request, k: Str) {
    && (req.prefix.Some? ==> req.prefix.value <= k)
    && (req.token.Some? && req.token.value.After? ==> Lt(req.token.value.key, k))
  }

  function PrefixLength(req: Request): nat {
    if req.prefix.Some? then |req.prefix.value| else 0
  }

  /** The delimiter stands in the key at this position or after it. */
  predicate DelimiterAt(req: Request, k: Str, j: int) {
    && req.delimiter.Some? && 0 <= j && j + |req.delimiter.value| <= |k|
    && k[j..j + |req.delimiter.value|] == req.delimiter.value
  }

  /** No delimiter after the prefix: the key is listed by itself. */
  ghost predicate Single(req: Request, k: Str) {
    forall j :: PrefixLength(req) <= j ==> !DelimiterAt(req, k, j)
  }

  /** The key through the end of the first delimiter after the prefix. */
  ghost predicate FallsUnder(req: Request, k: Str, x: Str) {
    && req.delimiter.Some? && x <= k && PrefixLength(req) + |req.delimiter.value| <= |x|
    && DelimiterAt(req, k, |x| - |req.delimiter.value|)
    && forall j :: PrefixLength(req) <= j < |x| - |req.delimiter.value| ==> !DelimiterAt(req, k, j)
  }

  /** As many results as a page takes: 1000 unless asked for fewer, and never none. */
  function PageLimit(req: Request): nat {
    match req.maxKeys
    case None => 1000
    case Some(0) => 1
    case Some(n) => if n <= 1000 then n else 1000
  }

  lemma PageLimitIs(req: Request)
    ensures PageSize(req.maxKeys) == PageLimit(req)
  {
  }

  // ---- The request as the listing reads it ----

  lemma WantedIsLive(req: Request, k: Str)
    requires req.token != Some(Malformed)
    ensures Live(req.ListScope(), req.StartAfter(), k) <==> Wanted(req, k)
  {
    hide Lt;
    assert [] <= k;
  }

  lemma OccursAtDelimiter(req: Request, k: Str, j: nat)
    requires req.delimiter.Some? && PrefixLength(req) <= |k|
    ensures OccursAt(k[PrefixLength(req)..], req.delimiter.value, j) <==> DelimiterAt(req, k, PrefixLength(req) + j)
  {
    var p, d := PrefixLength(req), req.delimiter.value;
    if j + |d| <= |k| - p {
      assert k[p..][j..j + |d|] == k[p + j..p + j + |d|];
    }
  }

  /** A key is listed by itself, or under the string it falls under, which is only one. */
  lemma CollapseByFields(req: Request, k: Str)
    requires req.ListScope().Matches(k)
    ensures req.ListScope().Collapse(k) == Object(k) <==> Single(req, k)
    ensures forall x :: req.ListScope().Collapse(k) == CommonPrefix(x) <==> FallsUnder(req, k, x)
  {
    hide Find;
    var sc, p := req.ListScope(), PrefixLength(req);
    if req.delimiter.Some? {
      var d, rest := req.delimiter.value, k[p..];
      var found := Find(rest, d);
      forall j: nat ensures OccursAt(rest, d, j) <==> DelimiterAt(req, k, p + j) {
        OccursAtDelimiter(req, k, j);
      }
      if found.None? {
        forall j | p <= j ensures !DelimiterAt(req, k, j) {
          assert !OccursAt(rest, d, j - p);
        }
        assert Single(req, k);
        forall x ensures !FallsUnder(req, k, x) {
        }
      } else {
        var x := sc.prefix + rest[..found.value + |d|];
        assert sc.Collapse(k) == CommonPrefix(x) && x == k[..p + found.value + |d|];
        assert DelimiterAt(req, k, p + found.value) by {
          assert OccursAt(rest, d, found.value);
        }
        forall j | p <= j < p + found.value ensures !DelimiterAt(req, k, j) {
          assert !OccursAt(rest, d, j - p);
        }
        forall y ensures FallsUnder(req, k, y) <==> y == x {
          if FallsUnder(req, k, y) {
            OnlyOne(req, k, x, y);
          }
        }
      }
    }
  }

  lemma OnlyOne(req: Request, k: Str, x: Str, y: Str)
    requires FallsUnder(req, k, x) && FallsUnder(req, k, y)
    ensures x == y
  {
    var d := |req.delimiter.value|;
    assert |x| < |y| ==> !DelimiterAt(req, k, |x| - d);
    assert |y| < |x| ==> !DelimiterAt(req, k, |y| - d);
    assert x == k[..|x|] && y == k[..|y|];
  }

  // ---- The answer ----

  /** Counted by this page: held, wanted, and not above its next token. */
  ghost predicate Counted(names: seq<Str>, req: Request, next: Option<Str>, k: Str) {
    Held(names, k) && Wanted(req, k) && (next.Some? ==> k == next.value || Lt(k, next.value))
  }

  lemma CountedIsInWindow(names: seq<Str>, req: Request, next: Option<Str>, k: Str)
    requires DistinctKeys(names) && req.token != Some(Malformed)
    ensures Counted(names, req, next, k) <==>
      k in ListedKeys(names) && InWindow(req.ListScope(), req.StartAfter(), next, k)
  {
    hide Lt, DecodeKey, ListedKeys, DistinctKeys;
    ListedKeysSorted(names);
    WantedIsLive(req, k);
  }

  /** The page's items, from the fields. */
  lemma ItemsByFields(names: seq<Str>, req: Request, k: Str)
    requires DistinctKeys(names) && req.token != Some(Malformed)
    ensures var page := PageOf(req.ListScope(), ListedKeys(names), req.StartAfter(), req.maxKeys);
      && (Object(k) in page.items <==> Counted(names, req, page.next, k) && Single(req, k))
      && (CommonPrefix(k) in page.items <==>
           exists j :: Counted(names, req, page.next, j) && FallsUnder(req, j, k))
  {
    hide PageOf, ListedKeys, DistinctKeys, Counted, Single, FallsUnder, Find;
    var sc, keys, after := req.ListScope(), ListedKeys(names), req.StartAfter();
    var page := PageOf(sc, keys, after, req.maxKeys);
    ListedKeysSorted(names);
    if Object(k) in page.items {
      var j := PageSource(sc, keys, after, req.maxKeys, Object(k));
      CountedIsInWindow(names, req, page.next, j);
      CollapsesToItself(req, j, k);
    }
    if Counted(names, req, page.next, k) && Single(req, k) {
      CountedIsInWindow(names, req, page.next, k);
      PageCovers(sc, keys, after, req.maxKeys, k);
      CollapseByFields(req, k);
    }
    if CommonPrefix(k) in page.items {
      var j := PageSource(sc, keys, after, req.maxKeys, CommonPrefix(k));
      CountedIsInWindow(names, req, page.next, j);
      CollapseByFields(req, j);
      assert FallsUnder(req, j, k);
    }
    if j :| Counted(names, req, page.next, j) && FallsUnder(req, j, k) {
      CountedIsInWindow(names, req, page.next, j);
      PageCovers(sc, keys, after, req.maxKeys, j);
      CollapseByFields(req, j);
    }
  }

  lemma CollapsesToItself(req: Request, j: Str, k: Str)
    requires req.ListScope().Matches(j) && req.ListScope().Collapse(j) == Object(k)
    ensures j == k && Single(req, k)
  {
    CollapseByFields(req, j);
  }

  lemma ObjectsFollow(items: seq<Item>)
    requires Increasing(items) && items != []
    ensures forall k :: k in ObjectKeys(items[1..]) ==> Lt(items[0].Name(), k)
    ensures Increasing(items[1..])
  {
    hide Lt;
    ObjectKeysElements(items[1..]);
    forall k | k in ObjectKeys(items[1..]) ensures Lt(items[0].Name(), k) {
      var p :| 0 <= p < |items[1..]| && items[1..][p] == Object(k);
      assert items[p + 1] == Object(k);
    }
  }

  lemma {:induction false} ObjectKeysSorted(items: seq<Item>)
    requires Increasing(items)
    ensures StrictlySorted(ObjectKeys(items))
  {
    hide Lt, Increasing;
    if items != [] {
      ObjectsFollow(items);
      ObjectKeysSorted(items[1..]);
      var rest := ObjectKeys(items[1..]);
      assert forall j :: 0 <= j < |rest| ==> rest[j] in rest;
    }
  }

  lemma {:induction false} ResultsAreItems(items: seq<Item>)
    ensures |ObjectKeys(items)| + |PrefixNames(items)| == |items|
  {
    if items != [] {
      ResultsAreItems(items[1..]);
    }
  }

  /** What a successful listing says. Its objects are, in byte order, exactly the keys it counts
      that have no delimiter after the prefix, each with its own metadata; its CommonPrefixes, in
      byte order, exactly the strings that keys it counts fall under. There are no more results than
      a page takes. The next token, if there is one, is a key that is held and wanted, and then the
      page is full. */
  lemma AnswerByFields(names: seq<Str>, files: map<Str, Sidecar>, req: Request, r: Response)
    returns (keys: seq<Str>)
    requires DistinctKeys(names) && Answer(names, files, req) == Success(r)
    ensures StrictlySorted(keys) && |r.objects| == |keys|
    ensures forall i :: 0 <= i < |keys| ==> MetaOf(files, keys[i]) == Success(r.objects[i])
    ensures forall k :: k in keys <==> Counted(names, req, r.next, k) && Single(req, k)
    ensures StrictlySorted(r.commonPrefixes)
    ensures forall x :: x in r.commonPrefixes <==>
      exists k :: Counted(names, req, r.next, k) && FallsUnder(req, k, x)
    ensures |r.objects| + |r.commonPrefixes| <= PageLimit(req)
    ensures r.isTruncated == r.next.Some?
    ensures r.next.Some? ==>
      && Held(names, r.next.value) && Wanted(req, r.next.value)
      && |r.objects| + |r.commonPrefixes| == PageLimit(req)
  {
    hide PageOf, ListedKeys, DistinctKeys, Counted, Single, FallsUnder, Find, Lt, DecodeKey, MetaOf;
    assert req.token != Some(Malformed);
    var sc, all, after := req.ListScope(), ListedKeys(names), req.StartAfter();
    var page := PageOf(sc, all, after, req.maxKeys);
    AnswerMeaning(names, files, req);
    keys := ObjectKeys(page.items);
    ListedKeysSorted(names);
    ObjectKeysElements(page.items);
    ObjectKeysSorted(page.items);
    ResultsAreItems(page.items);
    PrefixNamesSorted(page.items);
    PageThenRest(sc, all, after, req.maxKeys);
    PageLimitIs(req);
    forall k ensures k in keys <==> Counted(names, req, r.next, k) && Single(req, k) {
      ItemsByFields(names, req, k);
    }
    forall x ensures x in r.commonPrefixes <==>
      exists k :: Counted(names, req, r.next, k) && FallsUnder(req, k, x)
    {
      ItemsByFields(names, req, x);
    }
    if r.next.Some? {
      PageToken(sc, all, after, req.maxKeys);
      WantedIsLive(req, r.next.value);
    }
  }

  /** So with a token every object and every key behind a CommonPrefix lies above it, and so does the
      next token. */
  lemma AboveToken(names: seq<Str>, files: map<Str, Sidecar>, req: Request, r: Response, t: Str)
    returns (keys: seq<Str>)
    requires DistinctKeys(names) && Answer(names, files, req) == Success(r) && req.token == Some(After(t))
    ensures |keys| == |r.objects| && forall i :: 0 <= i < |keys| ==> MetaOf(files, keys[i]) == Success(r.objects[i])
    ensures forall k :: k in keys ==> Held(names, k) && Lt(t, k)
    ensures forall x :: x in r.commonPrefixes ==> exists k :: Held(names, k) && x <= k && Lt(t, k)
    ensures r.next.Some? ==> Lt(t, r.next.value)
  {
    hide DistinctKeys, Answer, Single, MetaOf, DecodeKey;
    keys := AnswerByFields(names, files, req, r);
    forall x | x in r.commonPrefixes ensures exists k :: Held(names, k) && x <= k && Lt(t, k) {
      var k :| Counted(names, req, r.next, k) && FallsUnder(req, k, x);
    }
  }
}
